/**
 What the steps of an import do, field by field: claims and leases, a worker's
 phases, and the operator's steps. Nothing here is said through the functions that
 compute it, and the constants are written out.
 */
module MigrationEffects {
  import opened Wrappers
  import opened Ordering
  import opened Migration
  import opened MigrationSteps
  import opened MigrationProofs
  import opened MigrationRuns
  import opened MigrationTheorems

  /** Batch b became after; everything else in the tables is as it was, but for what else is given. */
  predicate OnlyBatch(db: Db, next: Db, b: nat, after: Batch) {
    && b < |db.batches| && |next.batches| == |db.batches| && next.batches[b] == after
    && (forall k :: 0 <= k < |db.batches| && k != b ==> next.batches[k] == db.batches[k])
    && next.now == db.now && next.mappings == db.mappings && next.objects == db.objects && next.duties == db.duties
    && next.nextId == db.nextId && next.created == db.created
  }

  ghost predicate SameWorkers(sys: System, next: System, but: nat) {
    forall t :: t != but ==> (t in next.workers <==> t in sys.workers)
                             && (t in sys.workers ==> next.workers[t] == sys.workers[t])
  }

  // ---- claiming ----

  /** The batch imports, and nobody has been heard of for fifteen minutes. */
  predicate Unattended(batch: Batch, now: int) {
    batch.status.Importing? && (batch.token.None? || batch.heartbeat + 900 <= now)
  }

  const KINDS := [Team, Staff, Landlord, Building, House, Relation, Other]

  predicate KindBefore(a: EntityKind, b: EntityKind) {
    exists p, q :: 0 <= p < q < |KINDS| && KINDS[p] == a && KINDS[q] == b
  }

  /** Record i is worked on before record j: by kind, then by id. */
  predicate RecordBefore(records: seq<Record>, i: nat, j: nat)
    requires i < |records| && j < |records|
  {
    KindBefore(records[i].kind, records[j].kind) || (records[i].kind == records[j].kind && i < j)
  }

  /** All records, in that order. */
  predicate InWorkOrder(records: seq<Record>, todo: seq<nat>) {
    && |todo| == |records| && (forall p :: 0 <= p < |todo| ==> todo[p] < |records|)
    && (forall i: nat :: i < |records| ==> i in todo)
    && forall p, q :: 0 <= p < q < |todo| ==> RecordBefore(records, todo[p], todo[q])
  }

  lemma KindByRank(a: EntityKind, b: EntityKind)
    requires KindRank(a) < KindRank(b)
    ensures KindBefore(a, b)
  {
    assert KINDS[KindRank(a)] == a && KINDS[KindRank(b)] == b;
  }

  lemma OrderExact(records: seq<Record>)
    ensures InWorkOrder(records, WorkOrder(records))
  {
    var keys := seq(|records|, i requires 0 <= i < |records| => Key(KindRank(records[i].kind), 0, 0));
    var order := Order(keys);
    OrderRanked(keys);
    forall p, q | 0 <= p < q < |order| ensures RecordBefore(records, order[p], order[q]) {
      assert Ahead(keys, order[p], order[q]);
      if KindRank(records[order[p]].kind) < KindRank(records[order[q]].kind) {
        KindByRank(records[order[p]].kind, records[order[q]].kind);
      }
    }
  }

  /** The batch went to a new worker with a token nobody had before and all records to do. */
  ghost predicate HandedOver(sys: System, next: System, b: nat) {
    var (db, token) := (sys.db, sys.db.nextToken);
    && b < |db.batches| && token !in sys.workers && next.db.nextToken == token + 1
    && OnlyBatch(db, next.db, b, db.batches[b].(token := Some(token), heartbeat := db.now))
    && SameWorkers(sys, next, token) && token in next.workers && next.workers[token].batch == b
    && InWorkOrder(db.batches[b].records, next.workers[token].todo)
    && next.workers[token].phase == if db.batches[b].records == [] then Summarising else Beat
  }

  /** A claim hands the batch over exactly when it imports unattended, and otherwise changes nothing. */
  lemma ClaimExact(sys: System, b: nat)
    requires Sound(sys)
    ensures if b < |sys.db.batches| && Unattended(sys.db.batches[b], sys.db.now)
            then HandedOver(sys, After(sys, TakeBatch(b)), b)
            else After(sys, TakeBatch(b)) == sys
  {
    if b < |sys.db.batches| { OrderExact(sys.db.batches[b].records); }
  }

  lemma ReachableClaim(now: int, steps: seq<Step>, b: nat)
    ensures var sys := Run(Start(now), steps);
            if b < |sys.db.batches| && Unattended(sys.db.batches[b], sys.db.now)
            then HandedOver(sys, After(sys, TakeBatch(b)), b)
            else After(sys, TakeBatch(b)) == sys
  {
    StartSound(now);
    RunSound(Start(now), steps);
    ClaimExact(Run(Start(now), steps), b);
  }

  // ---- a worker that is not heard of ----

  /** No heartbeat lies in the future. */
  predicate Past(db: Db) {
    forall b :: 0 <= b < |db.batches| && db.batches[b].token.Some? ==> db.batches[b].heartbeat <= db.now
  }

  lemma WorkPast(db: Db, w: Worker, token: nat, crash: bool, env: Env)
    requires Past(db) && w.batch < |db.batches|
    ensures Past(WorkStep(db, w, token, crash, env).0)
  {
    if !Holds(db, w.batch, token) {
      Fenced(db, w, token, crash, env);
    } else if w.phase.Executing? && w.todo != [] && ExecuteRecord(db, w.batch, w.todo[0], token, env).Done? {
      ExecutionShape(db, w.batch, w.todo[0], token, env);
    }
  }

  lemma StepPast(sys: System, step: Step)
    requires Sound(sys) && Past(sys.db)
    ensures Past(After(sys, step).db)
  {
    if step.Work? {
      if step.token in sys.workers {
        WorkPast(sys.db, sys.workers[step.token], step.token, step.crash, step.env);
      }
    } else if step.TakeBatch? {
      ClaimExact(sys, step.b);
    } else if step.Confirm? {
      ConfirmExact(sys, step.b, step.version, step.env);
    } else if step.Reopen? {
      ReopenExact(sys, step.b);
    } else if step.MakePreview? {
      PreviewStep(sys, step.b, step.decisions, step.env);
    }
  }

  lemma {:induction false} RunPast(now: int, steps: seq<Step>)
    ensures Past(Run(Start(now), steps).db) && Sound(Run(Start(now), steps))
  {
    if steps == [] {
      StartSound(now);
    } else {
      RunPast(now, steps[..|steps| - 1]);
      StepSound(Run(Start(now), steps[..|steps| - 1]), steps[|steps| - 1]);
      StepPast(Run(Start(now), steps[..|steps| - 1]), steps[|steps| - 1]);
    }
  }

  /** The batch is with this worker and its last heartbeat, or has been taken over. */
  predicate StillOrTaken(db: Db, b: nat, token: nat, heartbeat: int, taken: bool) {
    b < |db.batches| && if taken then !Holds(db, b, token)
                        else && db.batches[b].token == Some(token) && db.batches[b].status == Importing
                             && db.batches[b].heartbeat == heartbeat
  }

  lemma QuietStep(sys: System, step: Step, b: nat, token: nat)
    requires Sound(sys) && Holds(sys.db, b, token) && !(step.Work? && step.token == token) && step != TakeBatch(b)
    ensures StillOrTaken(After(sys, step).db, b, token, sys.db.batches[b].heartbeat, false)
  {
    assert TokenSound(sys.db.batches[b], b, sys.workers);
    if step.Work? && step.token in sys.workers {
      var w := sys.workers[step.token];
      if Holds(sys.db, w.batch, step.token) {
        WorkHeld(sys.db, w, step.token, step.crash, step.env);
        assert w.batch != b;
      } else {
        Fenced(sys.db, w, step.token, step.crash, step.env);
      }
    }
  }

  lemma ClockStep(sys: System, step: Step)
    requires Sound(sys)
    ensures After(sys, step).db.now == sys.db.now + if step.Tick? then step.seconds else 0
  {
    if step.Work? && step.token in sys.workers {
      var w := sys.workers[step.token];
      if w.phase.Executing? && w.todo != [] && ExecuteRecord(sys.db, w.batch, w.todo[0], step.token, step.env).Done? {
        ExecutionShape(sys.db, w.batch, w.todo[0], step.token, step.env);
      }
    }
  }

  lemma {:induction false} QuietRun(sys: System, steps: seq<Step>, b: nat, token: nat)
    requires Sound(sys) && Holds(sys.db, b, token)
    requires forall s :: s in steps ==> !(s.Work? && s.token == token) && s != TakeBatch(b)
    ensures Sound(Run(sys, steps)) && Run(sys, steps).db.now == sys.db.now + Ticks(steps)
    ensures StillOrTaken(Run(sys, steps).db, b, token, sys.db.batches[b].heartbeat, false)
  {
    if steps == [] {
      assert TokenSound(sys.db.batches[b], b, sys.workers);
    } else {
      var (front, step) := (steps[..|steps| - 1], steps[|steps| - 1]);
      assert step in steps && forall s :: s in front ==> s in steps;
      QuietRun(sys, front, b, token);
      StepSound(Run(sys, front), step);
      ClockStep(Run(sys, front), step);
      QuietStep(Run(sys, front), step, b, token);
    }
  }

  /**
   A lease expires: in every run, once a worker that holds its batch makes no step
   while fifteen minutes pass, and nobody else claims the batch, the next claim
   hands it over, whatever happened besides.
   */
  lemma SilentWorkerIsReplaced(now: int, before: seq<Step>, steps: seq<Step>, b: nat, token: nat)
    requires Holds(Run(Start(now), before).db, b, token) && Ticks(steps) >= 900
    requires forall s :: s in steps ==> !(s.Work? && s.token == token) && s != TakeBatch(b)
    ensures var later := Run(Run(Start(now), before), steps);
            Holds(later.db, b, token) && HandedOver(later, After(later, TakeBatch(b)), b)
  {
    RunPast(now, before);
    QuietRun(Run(Start(now), before), steps, b, token);
    ClaimExact(Run(Run(Start(now), before), steps), b);
  }

  /** Nobody gets it earlier: until fifteen minutes have passed since the last heartbeat, no claim does anything. */
  lemma LeaseIsKept(sys: System, b: nat)
    requires Sound(sys) && b < |sys.db.batches| && sys.db.batches[b].token.Some?
    requires sys.db.now < sys.db.batches[b].heartbeat + 900
    ensures After(sys, TakeBatch(b)) == sys
  {
    ClaimExact(sys, b);
  }

  // ---- a worker's phases ----

  predicate Unfinished(r: Record) {
    r.state == Pending || r.state == Failed
  }

  /** The worker moved; of the tables, only what is said elsewhere. */
  ghost predicate Moved(sys: System, next: System, token: nat, todo: seq<nat>, phase: Phase) {
    && token in sys.workers && token in next.workers && SameWorkers(sys, next, token)
    && next.workers[token] == Worker(sys.workers[token].batch, todo, phase)
  }

  predicate HeldBy(sys: System, token: nat) {
    && token in sys.workers && sys.workers[token].batch < |sys.db.batches|
    && sys.db.batches[sys.workers[token].batch].token == Some(token)
  }

  function Following(todo: seq<nat>): Phase {
    if |todo| > 1 then Beat else Summarising
  }

  /** The worker is about to beat, to execute a record of its batch, or to finish. */
  predicate Ends(sys: System, w: Worker) {
    || w.phase.Beat? || w.phase.Finishing?
    || (&& w.phase.Executing? && w.todo != [] && w.batch < |sys.db.batches|
        && w.todo[0] < |sys.db.batches[w.batch].records|)
  }

  /** Without the token nothing is written; a heartbeat or an execution then ends the work. */
  lemma LostExact(sys: System, token: nat, crash: bool, env: Env)
    requires token in sys.workers && !HeldBy(sys, token)
    ensures var next := After(sys, Work(token, crash, env));
            && next.db == sys.db && SameWorkers(sys, next, token)
            && (Ends(sys, sys.workers[token]) ==> Moved(sys, next, token, sys.workers[token].todo, Stopped))
  {
    Fenced(sys.db, sys.workers[token], token, crash, env);
  }

  /** With it, a heartbeat is the time now, and the next record is executed. */
  lemma BeatExact(sys: System, token: nat, crash: bool, env: Env)
    requires HeldBy(sys, token) && sys.workers[token].phase == Beat
    ensures var (w, next) := (sys.workers[token], After(sys, Work(token, crash, env)));
            && OnlyBatch(sys.db, next.db, w.batch, sys.db.batches[w.batch].(heartbeat := sys.db.now))
            && next.db.nextToken == sys.db.nextToken && Moved(sys, next, token, w.todo, Executing)
  {
  }

  /** A record that could not be executed is marked as failed unless it is finished, and the next one is up. */
  lemma MarkExact(sys: System, token: nat, crash: bool, env: Env)
    requires HeldBy(sys, token) && sys.workers[token].phase == Marking && sys.workers[token].todo != []
    requires sys.workers[token].todo[0] < |sys.db.batches[sys.workers[token].batch].records|
    ensures var (w, next) := (sys.workers[token], After(sys, Work(token, crash, env)));
            var (batch, i) := (sys.db.batches[w.batch], w.todo[0]);
            && OnlyBatch(sys.db, next.db, w.batch,
                         if Unfinished(batch.records[i])
                         then batch.(records := batch.records[i := batch.records[i].(state := Failed)]) else batch)
            && next.db.nextToken == sys.db.nextToken && Moved(sys, next, token, w.todo[1..], Following(w.todo))
  {
  }

  /** Each count is the number of records in its state. */
  predicate Counts(summary: Summary, records: seq<Record>) {
    && summary.created == |InState(records, Created)| && summary.updated == |InState(records, Updated)|
    && summary.reused == |InState(records, Reused)| && summary.skipped == |InState(records, Skipped)|
    && summary.archived == |InState(records, Archived)| && summary.failed == |InState(records, Failed)|
    && summary.pending == |InState(records, RecordState.Pending)| && summary.total == |records|
  }

  lemma SummaryExact(sys: System, token: nat, crash: bool, env: Env)
    requires HeldBy(sys, token) && sys.workers[token].phase == Summarising
    ensures var (w, next) := (sys.workers[token], After(sys, Work(token, crash, env)));
            var batch := sys.db.batches[w.batch];
            && w.batch < |next.db.batches| && next.db.batches[w.batch].summary.Some?
            && Counts(next.db.batches[w.batch].summary.value, batch.records)
            && OnlyBatch(sys.db, next.db, w.batch, batch.(summary := next.db.batches[w.batch].summary))
            && next.db.nextToken == sys.db.nextToken
            && Moved(sys, next, token, w.todo,
                     Finishing(exists i :: 0 <= i < |batch.records| && Unfinished(batch.records[i])))
  {
    var records := sys.db.batches[sys.workers[token].batch].records;
    SummaryCountsRecords(records);
    SummaryShowsOpen(records);
    assert forall i :: 0 <= i < |records| ==> (Unfinished(records[i]) <==> !Final(records[i].state));
  }

  lemma FinishExact(sys: System, token: nat, crash: bool, env: Env)
    requires HeldBy(sys, token) && sys.workers[token].phase.Finishing?
    ensures var (w, next) := (sys.workers[token], After(sys, Work(token, crash, env)));
            && OnlyBatch(sys.db, next.db, w.batch, sys.db.batches[w.batch].(
                           status := if w.phase.unfinished then PartialFailed else Completed,
                           token := None, heartbeat := sys.db.now))
            && next.db.nextToken == sys.db.nextToken && Moved(sys, next, token, w.todo, Stopped)
  {
  }

  /** An execution is kept whole or not at all; a record whose execution fails is marked next. */
  lemma TurnExact(sys: System, token: nat, crash: bool, env: Env)
    requires HeldBy(sys, token) && sys.workers[token].phase == Executing && sys.workers[token].todo != []
    ensures var (w, next) := (sys.workers[token], After(sys, Work(token, crash, env)));
            var ran := ExecuteRecord(sys.db, w.batch, w.todo[0], token, env);
            if ran.Done? && !crash then next.db == ran.db && Moved(sys, next, token, w.todo[1..], Following(w.todo))
            else next.db == sys.db && Moved(sys, next, token, w.todo, Marking)
  {
  }

  // ---- the operator's steps ----

  /** Failed records of the batch are pending again, and nothing else changes. */
  lemma ReopenExact(sys: System, b: nat)
    ensures var next := After(sys, Reopen(b));
            if b >= |sys.db.batches| then next == sys
            else
              var (before, after) := (sys.db.batches[b], next.db.batches[b]);
              && next.workers == sys.workers && next.db.nextToken == sys.db.nextToken
              && OnlyBatch(sys.db, next.db, b, before.(records := after.records))
              && |after.records| == |before.records|
              && forall i :: 0 <= i < |before.records| ==>
                   after.records[i] == if before.records[i].state.Failed? then before.records[i].(state := Pending)
                                       else before.records[i]
  {
  }

  /** A preview is refused while the batch imports; otherwise it changes that batch only. */
  lemma PreviewStep(sys: System, b: nat, d: Decisions, env: Env)
    ensures var next := After(sys, MakePreview(b, d, env));
            && next.workers == sys.workers && next.db.nextToken == sys.db.nextToken
            && if b >= |sys.db.batches| || sys.db.batches[b].status.Importing? then next == sys
               else OnlyBatch(sys.db, next.db, b, Previewed(sys.db, sys.db.batches[b], d, env))
  {
  }

  /** Another batch of the organization imports. */
  predicate Busy(db: Db, b: nat)
    requires b < |db.batches|
  {
    exists k :: 0 <= k < |db.batches| && k != b && db.batches[k].org == db.batches[b].org
                && db.batches[k].status.Importing?
  }

  /**
   An import starts exactly when no other of the organization runs, the batch was
   previewed without issues or finished partially, and previewing it again gives the
   confirmed version without issues; it starts now and unheld, with that preview.
   */
  lemma ConfirmExact(sys: System, b: nat, version: Version, env: Env)
    ensures var (db, next) := (sys.db, After(sys, Confirm(b, version, env)));
            && next.workers == sys.workers && next.db.nextToken == sys.db.nextToken
            && if && b < |db.batches| && !Busy(db, b)
                  && (db.batches[b].status.Awaiting? || db.batches[b].status.PartialFailed?)
                  && Previewed(db, db.batches[b], db.batches[b].decisions, env).preview == Some(Preview(version, false))
               then OnlyBatch(db, next.db, b, Previewed(db, db.batches[b], db.batches[b].decisions, env).(
                                status := Importing, heartbeat := db.now, token := None))
               else next == sys
  {
  }

  // ---- everyone else ----

  /** The batch was read just now: blocked, nothing decided, and every record pending without a plan. */
  predicate Read(batch: Batch) {
    && batch.status.Blocked? && batch.token == None && batch.preview == None && batch.summary == None
    && forall i :: 0 <= i < |batch.records| ==>
         && batch.records[i].state.Pending? && batch.records[i].target == None
         && batch.records[i].plan == Plan(Archive, None, None, None, None, KeepLink, None)
  }

  lemma AddExact(sys: System, batch: Batch)
    ensures var next := After(sys, AddBatch(batch));
            if Read(batch)
            then next == System(sys.db.(batches := next.db.batches), sys.workers)
                 && next.db.batches == sys.db.batches + [batch]
            else next == sys
  {
    if Read(batch) {
      assert forall r :: r in batch.records ==> r.state == RecordState.Pending;
    } else if FreshBatch(batch) {
      assert forall i :: 0 <= i < |batch.records| ==> batch.records[i] in batch.records;
    }
  }

  /** The link as given, unless nothing is there. */
  predicate LinkStands(objects: map<nat, Object>, given: Option<nat>, link: Option<nat>) {
    match given
    case None => link == None
    case Some(id) => link == if id in objects then Some(id) else None
  }

  /** The object has all fields of the given one, but for its kind, organization, version and links. */
  predicate AsGiven(o: Object, given: Object) {
    o == given.(kind := o.kind, org := o.org, version := o.version, building := o.building, landlord := o.landlord)
  }

  /** Others add, edit and remove objects of their own; references never dangle when they are made. */
  lemma OthersExact(sys: System, made: Object, id: nat, stamped: bool)
    ensures var added := After(sys, AddObject(made)).db.objects;
            && sys.db.nextId in added && AsGiven(added[sys.db.nextId], made)
            && added[sys.db.nextId].kind == made.kind && added[sys.db.nextId].org == made.org
            && added[sys.db.nextId].version == made.version
            && LinkStands(sys.db.objects, made.building, added[sys.db.nextId].building)
            && LinkStands(sys.db.objects, made.landlord, added[sys.db.nextId].landlord)
    ensures id in sys.db.objects ==>
              var (before, edited) := (sys.db.objects[id], After(sys, EditObject(id, made, stamped)).db.objects);
              && id in edited && AsGiven(edited[id], made)
              && edited[id].kind == before.kind && edited[id].org == before.org
              && edited[id].version == before.version + (if stamped then 1 else 0)
              && LinkStands(sys.db.objects, made.building, edited[id].building)
              && LinkStands(sys.db.objects, made.landlord, edited[id].landlord)
  {
  }

  /** Time passes and objects come, change and go; none of it touches anything else. */
  lemma OutsideExact(sys: System, step: Step)
    requires step.Tick? || step.AddObject? || step.EditObject? || step.RemoveObject?
    ensures var (db, next) := (sys.db, After(sys, step).db);
            && After(sys, step).workers == sys.workers && next.batches == db.batches && next.mappings == db.mappings
            && next.created == db.created && next.nextToken == db.nextToken
            && next.now == db.now + (if step.Tick? then step.seconds else 0)
            && next.nextId == db.nextId + (if step.AddObject? then 1 else 0)
            && next.objects.Keys == (if step.AddObject? then db.objects.Keys + {db.nextId}
                                     else if step.RemoveObject? then db.objects.Keys - {step.id}
                                     else db.objects.Keys)
            && (forall k :: k in db.objects && k in next.objects && !(step.EditObject? && step.id == k)
                            && !(step.AddObject? && k == db.nextId)
                            ==> next.objects[k] == db.objects[k])
            && (forall t :: t in next.duties <==> t in db.duties && !(step.RemoveObject? && t.2 == step.id))
            && (forall t :: t in next.duties ==> next.duties[t] == db.duties[t])
  {
  }
}
