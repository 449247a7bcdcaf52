/** What the import promises over every run. */
module MigrationTheorems {
  import opened Wrappers
  import opened Migration
  import opened MigrationSteps
  import opened MigrationProofs
  import opened MigrationRuns

  // ---- fencing ----

  lemma StepKeepsSuperseded(sys: System, step: Step, token: nat)
    requires Sound(sys) && token in sys.workers && !Holds(sys.db, sys.workers[token].batch, token)
    ensures var next := After(sys, step);
            token in next.workers && next.workers[token].batch == sys.workers[token].batch
            && !Holds(next.db, sys.workers[token].batch, token)
  {
    if step.Work? && step.token in sys.workers {
      var w := sys.workers[step.token];
      if Holds(sys.db, w.batch, step.token) {
        WorkHeld(sys.db, w, step.token, step.crash, step.env);
      } else {
        Fenced(sys.db, w, step.token, step.crash, step.env);
      }
    }
  }

  /** A worker that lost its token never gets it back, and none of its later steps changes anything. */
  lemma {:induction false} SupersededForever(sys: System, steps: seq<Step>, token: nat, crash: bool, env: Env)
    requires Sound(sys) && token in sys.workers && !Holds(sys.db, sys.workers[token].batch, token)
    ensures var later := Run(sys, steps);
            && token in later.workers && later.workers[token].batch == sys.workers[token].batch
            && !Holds(later.db, later.workers[token].batch, token)
            && After(later, Work(token, crash, env)).db == later.db
  {
    if steps != [] {
      var front := steps[..|steps| - 1];
      SupersededForever(sys, front, token, crash, env);
      RunSound(sys, front);
      StepKeepsSuperseded(Run(sys, front), steps[|steps| - 1], token);
    }
    var later := Run(sys, steps);
    Fenced(later.db, later.workers[token], token, crash, env);
  }

  /** Once another worker has claimed the batch, no later step of the one that had it changes anything. */
  lemma ClaimSupersedes(sys: System, token: nat, steps: seq<Step>, crash: bool, env: Env)
    requires Sound(sys) && token in sys.workers && Claimable(sys.db, sys.workers[token].batch)
    ensures var b, claimed := sys.workers[token].batch, After(sys, TakeBatch(sys.workers[token].batch));
            var later := Run(claimed, steps);
            && Holds(claimed.db, b, sys.db.nextToken) && sys.db.nextToken !in sys.workers
            && !Holds(later.db, b, token) && After(later, Work(token, crash, env)).db == later.db
  {
    StepSound(sys, TakeBatch(sys.workers[token].batch));
    SupersededForever(After(sys, TakeBatch(sys.workers[token].batch)), steps, token, crash, env);
  }

  // ---- final records ----

  /**
   A house, building or landlord record that is final stays so, with its object,
   whatever is previewed, retried or executed.
   */
  lemma FinalBusinessRecordStays(sys: System, steps: seq<Step>, b: nat, i: nat)
    requires b < |sys.db.batches| && i < |sys.db.batches[b].records|
    requires Business(sys.db.batches[b].records[i].kind) && Final(sys.db.batches[b].records[i].state)
    ensures var later := Run(sys, steps).db;
            && b < |later.batches| && i < |later.batches[b].records|
            && later.batches[b].records[i].state == sys.db.batches[b].records[i].state
            && later.batches[b].records[i].target == sys.db.batches[b].records[i].target
  {
    RunForward(sys, steps);
    assert BatchForward(sys.db.batches[b], Run(sys, steps).db.batches[b]);
    assert RecordForward(sys.db.batches[b].records[i], Run(sys, steps).db.batches[b].records[i]);
  }

  predicate ImportingThroughout(sys: System, steps: seq<Step>, b: nat) {
    && b < |Run(sys, steps).db.batches| && Run(sys, steps).db.batches[b].status == Importing
    && (steps != [] ==> ImportingThroughout(sys, steps[..|steps| - 1], b))
  }

  /** Plans and choices stay, and final records of every kind stay. */
  predicate ImportKept(a: Batch, z: Batch) {
    && SamePlans(a, z)
    && forall i :: 0 <= i < |a.records| && Final(a.records[i].state)
                   ==> z.records[i].state == a.records[i].state && z.records[i].target == a.records[i].target
  }

  lemma ExecuteKeeps(db: Db, b: nat, i: nat, token: nat, env: Env)
    requires ExecuteRecord(db, b, i, token, env).Done?
    ensures ImportKept(db.batches[b], ExecuteRecord(db, b, i, token, env).db.batches[b])
  {
    ExecutePlans(db, b, i, token, env);
    ExecutionShape(db, b, i, token, env);
  }

  lemma WorkKeeps(db: Db, w: Worker, token: nat, crash: bool, env: Env, b: nat)
    requires b < |db.batches|
    ensures var next := WorkStep(db, w, token, crash, env).0;
            b < |next.batches| && ImportKept(db.batches[b], next.batches[b])
  {
    if w.batch >= |db.batches| {
      Fenced(db, w, token, crash, env);
    } else {
      WorkPlans(db, w, token, crash, env);
      if w.batch == b && w.phase.Executing? && w.todo != [] && ExecuteRecord(db, b, w.todo[0], token, env).Done? {
        ExecuteKeeps(db, b, w.todo[0], token, env);
      }
    }
  }

  /** While a batch imports, no step of anyone touches its plans, its choices or a final record. */
  lemma StepKeepsImport(sys: System, step: Step, b: nat)
    requires b < |sys.db.batches| && sys.db.batches[b].status == Importing
    ensures b < |After(sys, step).db.batches| && ImportKept(sys.db.batches[b], After(sys, step).db.batches[b])
  {
    match step
    case Work(token, crash, env) =>
      if token in sys.workers {
        WorkKeeps(sys.db, sys.workers[token], token, crash, env, b);
      }
    case Reopen(other) => if other < |sys.db.batches| { ReopenKeeps(sys.db.batches[other]); }
    case _ => PlanningKeeps(sys, step, b);
  }

  lemma PlanningKeeps(sys: System, step: Step, b: nat)
    requires b < |sys.db.batches| && sys.db.batches[b].status == Importing && !step.Work? && !step.Reopen?
    ensures b < |After(sys, step).db.batches|
    ensures var batch := sys.db.batches[b];
            After(sys, step).db.batches[b] == batch.(token := After(sys, step).db.batches[b].token,
                                                     heartbeat := After(sys, step).db.batches[b].heartbeat)
  {
    match step
    case MakePreview(p, d, env) => assert p != b || PreviewBatch(sys.db, p, d, env).None?;
    case Confirm(c, version, env) =>
      if ConfirmBatch(sys.db, c, version, env).Some? { ConfirmKeeps(sys.db, c, version, env, b); }
    case _ =>
  }

  lemma ConfirmKeeps(db: Db, c: nat, version: Version, env: Env, b: nat)
    requires b < |db.batches| && db.batches[b].status == Importing && ConfirmBatch(db, c, version, env).Some?
    ensures var next := ConfirmBatch(db, c, version, env).value;
            |next.batches| == |db.batches| && next.batches[b] == db.batches[b]
  {
  }

  lemma ReopenKeeps(batch: Batch)
    ensures ImportKept(batch, batch.(records := AllReopened(batch.records)))
  {
  }

  /** So within one import every record becomes final at most once, and what runs is what was confirmed. */
  lemma {:induction false} ImportRunsTheConfirmedPlan(sys: System, steps: seq<Step>, b: nat)
    requires Sound(sys) && ImportingThroughout(sys, steps, b)
    ensures b < |sys.db.batches|
    ensures ImportKept(sys.db.batches[b], Run(sys, steps).db.batches[b])
    ensures var batch := Run(sys, steps).db.batches[b];
            && batch.preview.Some? && batch.preview == sys.db.batches[b].preview && !batch.preview.value.issues
            && Plans(batch.records) == batch.preview.value.version.plans
            && batch.decisions == batch.preview.value.version.decisions
  {
    RunSound(sys, steps);
    assert AsConfirmed(Run(sys, steps).db.batches[b]);
    if steps != [] {
      var front := steps[..|steps| - 1];
      ImportRunsTheConfirmedPlan(sys, front, b);
      StepKeepsImport(Run(sys, front), steps[|steps| - 1], b);
    }
  }

  // ---- starting and ending ----

  /**
   An import starts only by confirming, with the version recomputed at that
   moment, no issue, and no other import around.
   */
  lemma ImportStartsByConfirming(sys: System, step: Step, b: nat)
    requires Sound(sys) && b < |sys.db.batches| && sys.db.batches[b].status != Importing
    requires b < |After(sys, step).db.batches| && After(sys, step).db.batches[b].status == Importing
    ensures step.Confirm? && step.b == b
    ensures var before, after := sys.db.batches[b], After(sys, step).db.batches[b];
            && after.preview == Previewed(sys.db, before, before.decisions, step.env).preview
            && after.preview == Some(Preview.Preview(step.version, false)) && after.token.None?
            && Plans(after.records) == step.version.plans && step.version.members == step.env.members
    ensures forall o :: 0 <= o < |sys.db.batches| && sys.db.batches[o].org == sys.db.batches[b].org ==>
              sys.db.batches[o].status != Importing
  {
    if step.Work? && step.token in sys.workers {
      var w := sys.workers[step.token];
      if Holds(sys.db, w.batch, step.token) {
        assert TokenSound(sys.db.batches[w.batch], w.batch, sys.workers);
        WorkHeld(sys.db, w, step.token, step.crash, step.env);
      } else {
        Fenced(sys.db, w, step.token, step.crash, step.env);
      }
    }
  }

  lemma OnlyWorkEndsAnImport(sys: System, step: Step, b: nat)
    requires b < |sys.db.batches| && sys.db.batches[b].status == Importing && !(step.Work? && step.token in sys.workers)
    ensures b < |After(sys, step).db.batches| && After(sys, step).db.batches[b].status == Importing
  {
  }

  /** It ends only by its token holder's last step: completed exactly when every record is final. */
  lemma ImportEndsByOutcome(sys: System, step: Step, b: nat)
    requires Sound(sys) && b < |sys.db.batches| && sys.db.batches[b].status == Importing
    requires b < |After(sys, step).db.batches| && After(sys, step).db.batches[b].status != Importing
    ensures step.Work? && Holds(sys.db, b, step.token)
    ensures var after := After(sys, step).db.batches[b];
            && after.records == sys.db.batches[b].records && after.token.None?
            && after.status == if Open(after.records) then PartialFailed else Completed
  {
    if step.Work? && step.token in sys.workers {
      var w := sys.workers[step.token];
      if Holds(sys.db, w.batch, step.token) {
        assert TokenSound(sys.db.batches[w.batch], w.batch, sys.workers);
        WorkHeld(sys.db, w, step.token, step.crash, step.env);
      } else {
        Fenced(sys.db, w, step.token, step.crash, step.env);
      }
    } else {
      OnlyWorkEndsAnImport(sys, step, b);
    }
  }

  /** In every run at most one batch of an organization imports. */
  lemma OneImportAtATime(now: int, steps: seq<Step>, a: nat, b: nat)
    requires var db := Run(Start(now), steps).db;
             && a < |db.batches| && b < |db.batches| && db.batches[a].org == db.batches[b].org
             && db.batches[a].status == Importing && db.batches[b].status == Importing
    ensures a == b
  {
    StartSound(now);
    RunSound(Start(now), steps);
  }

  lemma {:induction false} CountsAddUp(records: seq<Record>)
    ensures var s := SummaryOf(records);
            s.created + s.updated + s.reused + s.skipped + s.archived + s.failed + s.pending == s.total == |records|
  {
    if records != [] { CountsAddUp(records[..|records| - 1]); }
  }

  function InState(records: seq<Record>, state: RecordState): set<nat> {
    set i: nat | i < |records| && records[i].state == state
  }

  lemma {:induction false} CountIsSize(records: seq<Record>, state: RecordState)
    ensures CountState(records, state) == |InState(records, state)|
  {
    if records != [] {
      var n := |records| - 1;
      CountIsSize(records[..n], state);
      assert InState(records, state) == InState(records[..n], state) + if records[n].state == state then {n} else {};
    }
  }

  /** Each count of a summary is the number of records in its own state, and together they are all records. */
  lemma SummaryCountsRecords(records: seq<Record>)
    ensures var s := SummaryOf(records);
            && s.created == |InState(records, Created)| && s.updated == |InState(records, Updated)|
            && s.reused == |InState(records, Reused)|
            && s.skipped == |InState(records, Skipped)| && s.archived == |InState(records, Archived)|
            && s.failed == |InState(records, Failed)|
            && s.pending == |InState(records, Pending)| && s.total == |records|
            && s.created + s.updated + s.reused + s.skipped + s.archived + s.failed + s.pending == s.total
  {
    CountsAddUp(records);
    CountIsSize(records, Created);
    CountIsSize(records, Updated);
    CountIsSize(records, Reused);
    CountIsSize(records, Skipped);
    CountIsSize(records, Archived);
    CountIsSize(records, Failed);
    CountIsSize(records, Pending);
  }

  predicate AddsUp(batch: Batch) {
    batch.summary.Some? ==>
      var s := batch.summary.value;
      s.created + s.updated + s.reused + s.skipped + s.archived + s.failed + s.pending == s.total == |batch.records|
  }

  predicate SummariesAddUp(db: Db) {
    forall b :: 0 <= b < |db.batches| ==> AddsUp(db.batches[b])
  }

  /** A step of a worker keeps the stored summary or stores the counts. */
  lemma WorkSummary(db: Db, w: Worker, token: nat, crash: bool, env: Env)
    requires w.batch < |db.batches|
    ensures var next := WorkStep(db, w, token, crash, env).0;
            w.batch < |next.batches| && (next.batches[w.batch].summary == db.batches[w.batch].summary
                                         || next.batches[w.batch].summary
                                             == Some(SummaryOf(db.batches[w.batch].records)))
  {
    if w.phase.Executing? && w.todo != [] && ExecuteRecord(db, w.batch, w.todo[0], token, env).Done? {
      ExecutionShape(db, w.batch, w.todo[0], token, env);
    }
  }

  lemma WorkSummaries(db: Db, w: Worker, token: nat, crash: bool, env: Env)
    requires SummariesAddUp(db)
    ensures SummariesAddUp(WorkStep(db, w, token, crash, env).0)
  {
    if w.batch < |db.batches| {
      CountsAddUp(db.batches[w.batch].records);
      WorkSummary(db, w, token, crash, env);
      WorkPlans(db, w, token, crash, env);
      assert AddsUp(db.batches[w.batch]);
    } else {
      Fenced(db, w, token, crash, env);
    }
  }

  lemma StepSummaries(sys: System, step: Step)
    requires SummariesAddUp(sys.db)
    ensures SummariesAddUp(After(sys, step).db)
  {
    match step
    case MakePreview(b, d, env) => if b < |sys.db.batches| { PreviewForward(sys.db, sys.db.batches[b], d, env); }
    case Confirm(b, version, env) =>
      if b < |sys.db.batches| { PreviewForward(sys.db, sys.db.batches[b], sys.db.batches[b].decisions, env); }
    case Work(token, crash, env) =>
      if token in sys.workers {
        WorkSummaries(sys.db, sys.workers[token], token, crash, env);
      }
    case _ =>
  }

  /** In every run, the counts of every stored summary add up to the number of the batch's records. */
  lemma {:induction false} StoredSummariesAddUp(now: int, steps: seq<Step>)
    ensures SummariesAddUp(Run(Start(now), steps).db)
  {
    if steps != [] {
      StoredSummariesAddUp(now, steps[..|steps| - 1]);
      StepSummaries(Run(Start(now), steps[..|steps| - 1]), steps[|steps| - 1]);
    }
  }

  // ---- creation ----

  /** Objects appear only with a log entry that names them, as objects of the source's kind and organization. */
  predicate ObjectsLogged(db: Db, next: Db) {
    || (next.created == db.created && next.objects.Keys == db.objects.Keys)
    || (&& |next.created| == |db.created| + 1 && db.created < next.created
        && next.created[|db.created|].made == db.nextId
        && next.objects.Keys == db.objects.Keys + {db.nextId} && db.nextId in next.objects
        && var (made, identity) := (next.objects[db.nextId], next.created[|db.created|].identity);
        && made.kind == identity.kind && made.org == identity.org && (made.landlordRole <==> made.kind == Landlord))
  }

  lemma ExistingObjects(db: Db, b: nat, i: nat, action: Action, target: Option<nat>, version: Option<nat>)
    requires b < |db.batches| && i < |db.batches[b].records|
    ensures var ran := ExecuteExisting(db, b, i, action, target, version);
            ran.Done? ==>
              ran.db.created == db.created && ran.db.objects.Keys == db.objects.Keys && ran.db.nextId == db.nextId
  {
  }

  lemma ExecuteObjects(db: Db, b: nat, i: nat, token: nat, env: Env)
    requires ExecuteRecord(db, b, i, token, env).Done?
    ensures ObjectsLogged(db, ExecuteRecord(db, b, i, token, env).db)
  {
    var r := db.batches[b].records[i];
    ExistingObjects(db, b, i, r.plan.action, r.plan.target, r.plan.targetVersion);
    var previous := Lookup(db.mappings, IdentityOf(db.batches[b], r));
    if previous.Some? && previous.value.target in db.objects {
      ExistingObjects(db, b, i, Skip, Some(previous.value.target), Some(db.objects[previous.value.target].version));
    }
  }

  /** A work step adds exactly the logged object, if any. */
  lemma WorkAddsOnlyLoggedObjects(sys: System, token: nat, crash: bool, env: Env)
    ensures ObjectsLogged(sys.db, After(sys, Work(token, crash, env)).db)
  {
    if token in sys.workers {
      var w := sys.workers[token];
      if w.phase.Executing? && w.todo != [] && ExecuteRecord(sys.db, w.batch, w.todo[0], token, env).Done? {
        ExecuteObjects(sys.db, w.batch, w.todo[0], token, env);
      }
    }
  }

  /** Over every run, each record creates at most one object, and no object is created twice. */
  lemma EachRecordCreatesOnce(now: int, steps: seq<Step>, j: nat, k: nat)
    requires j < k < |Run(Start(now), steps).db.created|
    ensures var first, later := Run(Start(now), steps).db.created[j], Run(Start(now), steps).db.created[k];
            !(first.batch == later.batch && first.record == later.record) && first.made != later.made
  {
    StartSound(now);
    RunSound(Start(now), steps);
  }

  /**
   Over all batches of every run, a source that has an object gets another only
   where the operator chose a new one.
   */
  lemma OneObjectPerSource(now: int, steps: seq<Step>, j: nat, k: nat)
    requires j < k < |Run(Start(now), steps).db.created|
    requires Run(Start(now), steps).db.created[j].identity == Run(Start(now), steps).db.created[k].identity
    ensures Run(Start(now), steps).db.created[k].choice == Some(0)
  {
    StartSound(now);
    RunSound(Start(now), steps);
  }

  /** Reusing a contact makes it a landlord, which is a save when it was none. */
  predicate RoleAccepted(objects: map<nat, Object>, r: Record, target: nat) {
    r.kind == Landlord && target in objects && !objects[target].landlordRole ==>
      Accepted(objects, target, WithRole(objects[target]))
  }

  /**
   A create plan made before its source was mapped: onto the existing object
   when the content is the same, it is there, and it is a landlord or a save
   accepts it as one; else no effect.
   */
  lemma StaleCreate(db: Db, b: nat, i: nat, token: nat, env: Env)
    requires Holds(db, b, token) && i < |db.batches[b].records|
    requires var r := db.batches[b].records[i];
             && Business(r.kind) && !Final(r.state) && r.plan.action == Create
             && Lookup(db.mappings, IdentityOf(db.batches[b], r)) != r.plan.mappingVersion
    ensures var batch, r := db.batches[b], db.batches[b].records[i];
            var id := IdentityOf(batch, r);
            var ran := ExecuteRecord(db, b, i, token, env);
            && (ran.Done? <==> id in db.mappings && db.mappings[id].sourceHash == r.hash
                               && Available(db, r.kind, batch.org, db.mappings[id].target)
                               && RoleAccepted(db.objects, r, db.mappings[id].target))
            && (!ran.Done? ==> ran == Raised)
            && (ran.Done? ==>
                  && ran.db.created == db.created && ran.db.mappings == db.mappings
                  && ran.db.objects.Keys == db.objects.Keys
                  && ran.db.batches[b].records[i].state == Skipped
                  && ran.db.batches[b].records[i].target == Some(db.mappings[id].target))
  {
    var batch, r := db.batches[b], db.batches[b].records[i];
    var id := IdentityOf(batch, r);
    if id in db.mappings && db.mappings[id].target in db.objects {
      ExistingShape(db, b, i, Skip, Some(db.mappings[id].target), Some(db.objects[db.mappings[id].target].version));
    }
  }

  // ---- the lease ----

  function Ticks(steps: seq<Step>): nat {
    if steps == [] then 0
    else Ticks(steps[..|steps| - 1]) + if steps[|steps| - 1].Tick? then steps[|steps| - 1].seconds else 0
  }

  /** The worker holds its batch, whose last heartbeat is at most this old. */
  predicate Leased(db: Db, b: nat, token: nat, age: nat) {
    Holds(db, b, token) && db.batches[b].status == Importing && db.batches[b].heartbeat + age >= db.now
  }

  lemma StepKeepsLease(sys: System, step: Step, b: nat, token: nat, age: nat)
    requires Sound(sys) && Leased(sys.db, b, token, age) && age < LEASE
    requires token in sys.workers && sys.workers[token].batch == b && !(step.Work? && step.token == token)
    ensures Leased(After(sys, step).db, b, token, age + if step.Tick? then step.seconds else 0)
    ensures token in After(sys, step).workers && After(sys, step).workers[token] == sys.workers[token]
  {
    if step.Work? { OthersWorkKeepsLease(sys, step, b, token, age); }
  }

  lemma OthersWorkKeepsLease(sys: System, step: Step, b: nat, token: nat, age: nat)
    requires Sound(sys) && Leased(sys.db, b, token, age)
    requires token in sys.workers && sys.workers[token].batch == b && step.Work? && step.token != token
    ensures Leased(After(sys, step).db, b, token, age)
    ensures token in After(sys, step).workers && After(sys, step).workers[token] == sys.workers[token]
  {
    if step.token in sys.workers {
      var w := sys.workers[step.token];
      if Holds(sys.db, w.batch, step.token) {
        WorkHeld(sys.db, w, step.token, step.crash, step.env);
        assert w.batch != b;
        assert WorkStep(sys.db, w, step.token, step.crash, step.env).0.batches[b] == sys.db.batches[b];
      } else {
        Fenced(sys.db, w, step.token, step.crash, step.env);
      }
    }
  }

  lemma {:induction false} RunKeepsLease(sys: System, steps: seq<Step>, b: nat, token: nat)
    requires Sound(sys) && Leased(sys.db, b, token, 0) && Ticks(steps) < LEASE
    requires token in sys.workers && sys.workers[token].batch == b
    requires forall s :: s in steps ==> !(s.Work? && s.token == token)
    ensures Leased(Run(sys, steps).db, b, token, Ticks(steps))
    ensures token in Run(sys, steps).workers && Run(sys, steps).workers[token] == sys.workers[token]
  {
    if steps != [] {
      var front := steps[..|steps| - 1];
      RunKeepsLease(sys, front, b, token);
      RunSound(sys, front);
      StepKeepsLease(Run(sys, front), steps[|steps| - 1], b, token, Ticks(front));
    }
  }

  /**
   A heartbeat protects the worker: until the lease has passed on the clock,
   nobody takes its batch, whatever they do.
   */
  lemma HeartbeatProtects(sys: System, token: nat, crash: bool, env: Env, steps: seq<Step>)
    requires Sound(sys) && token in sys.workers && sys.workers[token].phase == Beat
    requires Holds(sys.db, sys.workers[token].batch, token)
    requires Ticks(steps) < LEASE && forall s :: s in steps ==> !(s.Work? && s.token == token)
    ensures var b, later := sys.workers[token].batch, Run(After(sys, Work(token, crash, env)), steps);
            && Holds(later.db, b, token) && !Claimable(later.db, b)
            && token in later.workers && later.workers[token].phase == Executing
  {
    var b, beaten := sys.workers[token].batch, After(sys, Work(token, crash, env));
    assert TokenSound(sys.db.batches[b], b, sys.workers);
    StepSound(sys, Work(token, crash, env));
    RunKeepsLease(beaten, steps, b, token);
  }

  // ---- edits by others ----

  /** Objects are never created again under an old id, and their versions only grow. */
  predicate VersionsForward(db: Db, next: Db) {
    && db.nextId <= next.nextId
    && forall id :: id < db.nextId && id in next.objects ==>
         id in db.objects && db.objects[id].version <= next.objects[id].version
  }

  /** The same, and no object changed without its version. */
  predicate ChangesStamped(db: Db, next: Db) {
    && VersionsForward(db, next)
    && forall id :: id < db.nextId && id in next.objects && db.objects[id].version == next.objects[id].version
                    ==> next.objects[id] == db.objects[id]
  }

  lemma ExistingVersions(db: Db, b: nat, i: nat, action: Action, target: Option<nat>, version: Option<nat>)
    requires b < |db.batches| && i < |db.batches[b].records|
    ensures var ran := ExecuteExisting(db, b, i, action, target, version); ran.Done? ==> ChangesStamped(db, ran.db)
  {
  }

  lemma CreateVersions(db: Db, b: nat, i: nat)
    requires IdsSound(db) && b < |db.batches| && i < |db.batches[b].records|
    ensures var ran := ExecuteCreate(db, b, i); ran.Done? ==> ChangesStamped(db, ran.db)
  {
  }

  lemma BusinessVersions(db: Db, b: nat, i: nat)
    requires IdsSound(db) && b < |db.batches| && i < |db.batches[b].records| && ExecuteBusiness(db, b, i).Done?
    ensures ChangesStamped(db, ExecuteBusiness(db, b, i).db)
  {
    var r := db.batches[b].records[i];
    var previous := Lookup(db.mappings, IdentityOf(db.batches[b], r));
    if previous != r.plan.mappingVersion {
      ExistingVersions(db, b, i, Skip, Some(previous.value.target), Some(db.objects[previous.value.target].version));
    } else if r.plan.action == Create {
      CreateVersions(db, b, i);
    } else {
      ExistingVersions(db, b, i, r.plan.action, r.plan.target, r.plan.targetVersion);
    }
  }

  /** The import itself changes no object without moving its version. */
  lemma ExecuteVersions(db: Db, b: nat, i: nat, token: nat, env: Env)
    requires IdsSound(db) && ExecuteRecord(db, b, i, token, env).Done?
    ensures ChangesStamped(db, ExecuteRecord(db, b, i, token, env).db)
  {
    var r := db.batches[b].records[i];
    if !Final(r.state) && Business(r.kind) && r.plan.action in {Create, Update, Reuse, Skip} {
      BusinessVersions(db, b, i);
    }
  }

  lemma StepVersions(sys: System, step: Step)
    requires Sound(sys)
    ensures VersionsForward(sys.db, After(sys, step).db)
  {
    if step.Work? { WorkVersionsForward(sys, step); }
  }

  lemma WorkVersionsForward(sys: System, step: Step)
    requires Sound(sys) && step.Work?
    ensures VersionsForward(sys.db, After(sys, step).db)
  {
    if step.token in sys.workers {
      var w := sys.workers[step.token];
      if w.phase.Executing? && w.todo != [] && ExecuteRecord(sys.db, w.batch, w.todo[0], step.token, step.env).Done? {
        ExecuteVersions(sys.db, w.batch, w.todo[0], step.token, step.env);
      }
    }
  }

  lemma {:induction false} RunVersions(sys: System, steps: seq<Step>)
    requires Sound(sys)
    ensures VersionsForward(sys.db, Run(sys, steps).db)
  {
    if steps != [] {
      var front := steps[..|steps| - 1];
      RunVersions(sys, front);
      RunSound(sys, front);
      StepVersions(Run(sys, front), steps[|steps| - 1]);
    }
  }

  /**
   A plan made for an object that someone saved since is never carried out on
   it, however late and whoever runs it.
   */
  lemma SavedTargetIsNotOverwritten(sys: System, id: nat, values: Object, steps: seq<Step>, b: nat, i: nat, token: nat,
                                    env: Env)
    requires Sound(sys) && id in sys.db.objects
    requires var later := Run(After(sys, EditObject(id, values, true)), steps).db;
             && b < |later.batches| && i < |later.batches[b].records|
             && var r := later.batches[b].records[i];
             && WorksOnObject(r) && !Final(r.state) && r.plan.target == Some(id)
             && r.plan.targetVersion.Some? && r.plan.targetVersion.value <= sys.db.objects[id].version
    ensures !ExecuteRecord(Run(After(sys, EditObject(id, values, true)), steps).db, b, i, token, env).Done?
  {
    var edited := After(sys, EditObject(id, values, true));
    StepSound(sys, EditObject(id, values, true));
    RunVersions(edited, steps);
    assert id < edited.db.nextId;
  }

  predicate OnlyEdits(steps: seq<Step>) {
    forall s :: s in steps ==> s.EditObject?
  }

  predicate SavedIn(steps: seq<Step>, id: nat) {
    exists s :: s in steps && s.EditObject? && s.id == id && s.stamped
  }

  /** Edits leave everything but the values of objects, and the version of one grows exactly when it was saved. */
  predicate OnlyObjectsEdited(db: Db, next: Db, id: nat, saved: bool) {
    && next == db.(objects := next.objects) && next.objects.Keys == db.objects.Keys
    && (id in db.objects ==>
          && next.objects[id].kind == db.objects[id].kind && next.objects[id].org == db.objects[id].org
          && next.objects[id].version >= db.objects[id].version
          && (next.objects[id].version == db.objects[id].version <==> !saved))
  }

  lemma EditFrame(sys: System, step: Step, id: nat)
    requires step.EditObject?
    ensures OnlyObjectsEdited(sys.db, After(sys, step).db, id, id in sys.db.objects && step.id == id && step.stamped)
  {
  }

  lemma {:induction false} EditsFrame(sys: System, steps: seq<Step>, id: nat)
    requires OnlyEdits(steps)
    ensures OnlyObjectsEdited(sys.db, Run(sys, steps).db, id, id in sys.db.objects && SavedIn(steps, id))
  {
    if steps != [] {
      var front, last := steps[..|steps| - 1], steps[|steps| - 1];
      assert steps == front + [last] && last in steps;
      EditsFrame(sys, front, id);
      EditFrame(Run(sys, front), last, id);
      SavedInSnoc(front, last, id);
    }
  }

  lemma SavedInSnoc(steps: seq<Step>, last: Step, id: nat)
    ensures SavedIn(steps + [last], id) <==> SavedIn(steps, id) || (last.EditObject? && last.id == id && last.stamped)
  {
    assert last in steps + [last];
    assert forall s :: s in steps ==> s in steps + [last];
  }

  /** The object has these values; names, phone numbers and addresses lost their superfluous space. */
  predicate Stored(o: Object, kind: EntityKind, values: Values) {
    && o.values.listed == values.listed
    && (if kind == House then o.values.name == values.name
        else o.values.name == Tidy(values.name) && o.values.detail == Tidy(values.detail))
  }

  /** What working on a planned object saves, if anything, is accepted. */
  predicate WriteAccepted(db: Db, batch: Batch, r: Record, target: nat) {
    target in db.objects ==>
      if r.plan.action == Update then Accepted(db.objects, target, Overwritten(batch, r, db.objects[target]))
      else RoleAccepted(db.objects, r, target)
  }

  /**
   Which edits a planned target is protected from: of a record that could be
   carried out now, after any edits of any objects, the execution is refused
   exactly when its target was saved, or when a save of what the plan writes is
   refused, because the target's other fields are no longer valid or somebody
   else got its key. An update of the target past the save is not noticed
   otherwise, and an update plan then lays its values over it.
   */
  lemma EditsAreNoticedExactly(sys: System, edits: seq<Step>, b: nat, i: nat, token: nat, env: Env)
    requires OnlyEdits(edits) && ExecuteRecord(sys.db, b, i, token, env).Done?
    requires var r := sys.db.batches[b].records[i]; WorksOnObject(r) && !Final(r.state)
    ensures var r, edited := sys.db.batches[b].records[i], Run(sys, edits).db;
            var ran := ExecuteRecord(edited, b, i, token, env);
            && r.plan.target.Some? && r.plan.target.value in edited.objects
            && (ran.Done? <==> !SavedIn(edits, r.plan.target.value)
                               && WriteAccepted(edited, sys.db.batches[b], r, r.plan.target.value))
            && (ran.Done? && r.plan.action == Update ==>
                  && r.plan.target.value in ran.db.objects
                  && var (held, new_) := (edited.objects[r.plan.target.value], ran.db.objects[r.plan.target.value]);
                  && new_.content == Overlaid(held.content, r.plan.fields)
                  && Stored(new_, r.kind, ValuesFor(r, held.values)))
  {
    EditsFrame(sys, edits, sys.db.batches[b].records[i].plan.target.value);
  }

  // ---- what an execution writes ----

  /** The target of a business record after its execution, and nothing else among the objects. */
  predicate Wrote(db: Db, next: Db, batch: Batch, r: Record) {
    match r.plan.action
    case Create =>
      && db.nextId in next.objects
      && next.objects == db.objects[db.nextId := next.objects[db.nextId]]
      && var made := next.objects[db.nextId];
      && made.kind == r.kind && made.org == batch.org && (made.landlordRole <==> r.kind == Landlord)
      && Stored(made, r.kind, ValuesFor(r, Values(NO_TEXT, NO_TEXT, false)))
      && made.content == Overlaid(BLANK_CONTENT, r.plan.fields)
      && (r.kind == House ==> made.building == BuildingOf(batch, r) && made.landlord == LandlordFor(r, None))
      && !KeyTaken(db.objects, db.nextId, KeyOf(made))
    case Update =>
      && r.plan.target.Some? && r.plan.target.value in db.objects
      && var held := db.objects[r.plan.target.value];
      && r.plan.target.value in next.objects
      && next.objects == db.objects[r.plan.target.value := next.objects[r.plan.target.value]]
      && var new_ := next.objects[r.plan.target.value];
      && new_.kind == held.kind && new_.org == held.org && new_.version == held.version + 1
      && Stored(new_, r.kind, ValuesFor(r, held.values)) && new_.content == Overlaid(held.content, r.plan.fields)
      && (r.kind == Landlord ==> new_.landlordRole)
      && (r.kind == House ==> new_.building == BuildingOf(batch, r) && new_.landlord == LandlordFor(r, held.landlord))
      && new_.rest.estate == held.rest.estate && new_.rest.active == held.rest.active
      && !KeyTaken(db.objects, r.plan.target.value, KeyOf(new_))
    case _ =>
      && r.plan.target.Some? && r.plan.target.value in db.objects
      && var held := db.objects[r.plan.target.value];
      next.objects == db.objects[r.plan.target.value :=
        if r.kind == Landlord && !held.landlordRole
        then held.(landlordRole := true, version := held.version + 1)
        else held]
  }

  /**
   With its mapping as planned, a record's execution writes its planned values
   to its planned object, and no other object.
   */
  lemma ExecutionWritesThePlan(db: Db, b: nat, i: nat, token: nat, env: Env)
    requires ExecuteRecord(db, b, i, token, env).Done?
    requires var r := db.batches[b].records[i];
             && Business(r.kind) && r.plan.action in {Create, Update, Reuse, Skip} && !Final(r.state)
             && r.plan.mappingVersion == Lookup(db.mappings, IdentityOf(db.batches[b], r))
    ensures Wrote(db, ExecuteRecord(db, b, i, token, env).db, db.batches[b], db.batches[b].records[i])
  {
  }
}
