/** The invariants of every run of the migration: tokens, the confirmed plan, one import at a time, the creation log. */
module MigrationRuns {
  import opened Wrappers
  import opened Migration
  import opened MigrationSteps
  import opened MigrationProofs

  // ---- tokens ----

  /** The tables changed one batch or none, and no worker moved. */
  lemma OneBatchTokens(sys: System, next: Db, b: nat)
    requires TokensSound(sys) && OneBatch(sys.db, next, b) && next.nextToken == sys.db.nextToken
    requires TokenSound(next.batches[b], b, sys.workers)
    ensures TokensSound(sys.(db := next))
  {
  }

  /** A worker's own step: its batch changed or nothing did, and the worker moved. */
  lemma WorkerTokens(sys: System, next: Db, token: nat, w: Worker)
    requires TokensSound(sys) && token in sys.workers && w.batch == sys.workers[token].batch
    requires next == sys.db || (OneBatch(sys.db, next, w.batch) && next.nextToken == sys.db.nextToken)
    requires TokenSound(next.batches[w.batch], w.batch, sys.workers[token := w])
    ensures TokensSound(System(next, sys.workers[token := w]))
  {
    var workers := sys.workers[token := w];
    forall b | 0 <= b < |next.batches| ensures TokenSound(next.batches[b], b, workers) {
      assert TokenSound(sys.db.batches[b], b, sys.workers);
    }
  }

  /** Without the token, a worker's step changes nothing in the tables. */
  lemma Fenced(db: Db, w: Worker, token: nat, crash: bool, env: Env)
    requires !Holds(db, w.batch, token)
    ensures WorkStep(db, w, token, crash, env).0 == db
  {
  }

  /** With it, a step changes its own batch only, and keeps the token until the import finishes. */
  predicate HeldStep(db: Db, next: Db, w: Worker, after: Worker, token: nat)
    requires w.batch < |db.batches|
  {
    && OneBatch(db, next, w.batch) && next.nextToken == db.nextToken && after.batch == w.batch
    && var old_, new_ := db.batches[w.batch], next.batches[w.batch];
    && ((new_.token == old_.token && new_.status == old_.status && !after.phase.Finishing?)
        || (w.phase.Finishing? && new_.token.None?
            && new_.status == (if w.phase.unfinished then PartialFailed else Completed)
            && new_.records == old_.records)
        || (w.phase.Summarising? && new_.token == old_.token
            && new_.status == old_.status && new_.records == old_.records
            && after.phase.Finishing? && (after.phase.unfinished <==> Open(new_.records))))
  }

  lemma ExecuteHeld(db: Db, w: Worker, token: nat, crash: bool, env: Env)
    requires Holds(db, w.batch, token) && w.phase.Executing?
    ensures var (next, after) := WorkStep(db, w, token, crash, env); HeldStep(db, next, w, after, token)
  {
    if w.todo != [] && ExecuteRecord(db, w.batch, w.todo[0], token, env).Done? {
      ExecutionShape(db, w.batch, w.todo[0], token, env);
    }
  }

  lemma MarkHeld(db: Db, w: Worker, token: nat, crash: bool, env: Env)
    requires Holds(db, w.batch, token) && w.phase.Marking?
    ensures var (next, after) := WorkStep(db, w, token, crash, env); HeldStep(db, next, w, after, token)
  {
  }

  lemma OtherHeld(db: Db, w: Worker, token: nat, crash: bool, env: Env)
    requires Holds(db, w.batch, token) && !w.phase.Executing? && !w.phase.Marking?
    ensures var (next, after) := WorkStep(db, w, token, crash, env); HeldStep(db, next, w, after, token)
  {
    SummaryShowsOpen(db.batches[w.batch].records);
  }

  lemma WorkHeld(db: Db, w: Worker, token: nat, crash: bool, env: Env)
    requires Holds(db, w.batch, token)
    ensures var (next, after) := WorkStep(db, w, token, crash, env); HeldStep(db, next, w, after, token)
  {
    if w.phase.Executing? { ExecuteHeld(db, w, token, crash, env); }
    else if w.phase.Marking? { MarkHeld(db, w, token, crash, env); }
    else { OtherHeld(db, w, token, crash, env); }
  }

  lemma WorkTokens(sys: System, token: nat, crash: bool, env: Env)
    requires TokensSound(sys)
    ensures TokensSound(After(sys, Work(token, crash, env)))
  {
    if token in sys.workers {
      var w := sys.workers[token];
      var (next, after) := WorkStep(sys.db, w, token, crash, env);
      assert TokenSound(sys.db.batches[w.batch], w.batch, sys.workers);
      if Holds(sys.db, w.batch, token) {
        WorkHeld(sys.db, w, token, crash, env);
      } else {
        Fenced(sys.db, w, token, crash, env);
      }
      WorkerTokens(sys, next, token, after);
    }
  }

  lemma ReopenKeepsOpen(records: seq<Record>)
    ensures Open(AllReopened(records)) <==> Open(records)
  {
    var reopened := AllReopened(records);
    if Open(records) {
      var i :| 0 <= i < |records| && !Final(records[i].state);
      assert !Final(reopened[i].state);
    }
    if Open(reopened) {
      var i :| 0 <= i < |reopened| && !Final(reopened[i].state);
      assert !Final(records[i].state);
    }
  }

  lemma ClaimTokens(sys: System, b: nat)
    requires TokensSound(sys) && Claimable(sys.db, b)
    ensures TokensSound(Claim(sys, b))
  {
    var next := Claim(sys, b);
    forall o | 0 <= o < |next.db.batches| ensures TokenSound(next.db.batches[o], o, next.workers) {
      assert TokenSound(sys.db.batches[o], o, sys.workers);
    }
  }

  lemma AddTokens(sys: System, batch: Batch)
    requires TokensSound(sys)
    ensures TokensSound(After(sys, AddBatch(batch)))
  {
    var next := After(sys, AddBatch(batch));
    forall b | 0 <= b < |next.db.batches| ensures TokenSound(next.db.batches[b], b, next.workers) {
      if b < |sys.db.batches| { assert TokenSound(sys.db.batches[b], b, sys.workers); }
    }
  }

  lemma PreviewTokens(sys: System, b: nat, d: Decisions, env: Env)
    requires TokensSound(sys)
    ensures TokensSound(After(sys, MakePreview(b, d, env)))
  {
    if PreviewBatch(sys.db, b, d, env).Some? {
      assert TokenSound(sys.db.batches[b], b, sys.workers);
      OneBatchTokens(sys, PreviewBatch(sys.db, b, d, env).value, b);
    }
  }

  lemma ConfirmTokens(sys: System, b: nat, version: Version, env: Env)
    requires TokensSound(sys)
    ensures TokensSound(After(sys, Confirm(b, version, env)))
  {
    if b < |sys.db.batches| && ConfirmBatch(sys.db, b, version, env).Some? {
      assert TokenSound(sys.db.batches[b], b, sys.workers);
      OneBatchTokens(sys, ConfirmBatch(sys.db, b, version, env).value, b);
    }
  }

  lemma ReopenTokens(sys: System, b: nat)
    requires TokensSound(sys)
    ensures TokensSound(After(sys, Reopen(b)))
  {
    if b < |sys.db.batches| {
      ReopenKeepsOpen(sys.db.batches[b].records);
      assert TokenSound(sys.db.batches[b], b, sys.workers);
      OneBatchTokens(sys, ReopenFailed(sys.db, b), b);
    }
  }

  lemma StepTokens(sys: System, step: Step)
    requires TokensSound(sys)
    ensures TokensSound(After(sys, step))
  {
    match step
    case AddBatch(batch) => AddTokens(sys, batch);
    case MakePreview(b, d, env) => PreviewTokens(sys, b, d, env);
    case Confirm(b, version, env) => ConfirmTokens(sys, b, version, env);
    case Reopen(b) => ReopenTokens(sys, b);
    case TakeBatch(b) => if Claimable(sys.db, b) { ClaimTokens(sys, b); }
    case Work(token, crash, env) => WorkTokens(sys, token, crash, env);
    case _ =>
  }

  // ---- identifiers ----

  predicate PlansPositive(batch: Batch) {
    forall i :: 0 <= i < |batch.records| ==> batch.records[i].plan.target != Some(0)
  }

  /** No object refers to one that is yet to come. */
  predicate RefersBack(o: Object, nextId: nat) {
    (o.building.Some? ==> o.building.value < nextId) && (o.landlord.Some? ==> o.landlord.value < nextId)
  }

  /** Object ids start at 1 and are never used twice, and nothing is mapped to 0. */
  predicate IdsSound(db: Db) {
    && db.nextId >= 1
    && (forall id :: id in db.mappings ==> db.mappings[id].target > 0)
    && (forall id :: id in db.objects ==> id < db.nextId && RefersBack(db.objects[id], db.nextId))
    && (forall b :: 0 <= b < |db.batches| ==> PlansPositive(db.batches[b]))
  }

  lemma FindingPositive(db: Db, batch: Batch, d: Decisions, env: Env, i: nat)
    requires i < |batch.records|
    ensures FindingFor(db, batch, d, i, env).plan.target != Some(0)
  {
  }

  lemma PreviewPositive(db: Db, batch: Batch, d: Decisions, env: Env)
    ensures PlansPositive(Previewed(db, batch, d, env))
  {
    PlannedRecordsAt(db, batch, d, env, |batch.records|);
    forall i | 0 <= i < |batch.records|
      ensures PlannedRecords(db, batch, d, env, |batch.records|)[i].plan.target != Some(0)
    {
      FindingPositive(db, batch, d, env, i);
    }
  }

  lemma ExistingIds(db: Db, b: nat, i: nat, action: Action, target: Option<nat>, version: Option<nat>)
    requires IdsSound(db) && b < |db.batches| && i < |db.batches[b].records| && target != Some(0)
    requires ExecuteExisting(db, b, i, action, target, version).Done?
    ensures IdsSound(ExecuteExisting(db, b, i, action, target, version).db)
  {
    ExistingShape(db, b, i, action, target, version);
    var next := ExecuteExisting(db, b, i, action, target, version).db;
    assert next.objects.Keys == db.objects.Keys && next.nextId == db.nextId;
    assert PlansPositive(db.batches[b]);
  }

  lemma CreateIds(db: Db, b: nat, i: nat)
    requires IdsSound(db) && b < |db.batches| && i < |db.batches[b].records| && ExecuteCreate(db, b, i).Done?
    ensures IdsSound(ExecuteCreate(db, b, i).db)
  {
    CreateShape(db, b, i);
    assert PlansPositive(db.batches[b]);
  }

  lemma OtherIds(db: Db, b: nat, i: nat, env: Env)
    requires IdsSound(db) && b < |db.batches| && i < |db.batches[b].records| && ExecuteOther(db, b, i, env).Done?
    ensures IdsSound(ExecuteOther(db, b, i, env).db)
  {
    OtherShape(db, b, i, env);
    assert PlansPositive(db.batches[b]);
  }

  lemma ExecuteIds(db: Db, b: nat, i: nat, token: nat, env: Env)
    requires IdsSound(db) && ExecuteRecord(db, b, i, token, env).Done?
    ensures IdsSound(ExecuteRecord(db, b, i, token, env).db)
  {
    var r := db.batches[b].records[i];
    assert PlansPositive(db.batches[b]);
    if !Final(r.state) {
      if Business(r.kind) && r.plan.action in {Create, Update, Reuse, Skip} {
        var previous := Lookup(db.mappings, IdentityOf(db.batches[b], r));
        if previous != r.plan.mappingVersion {
          ExistingIds(db, b, i, Skip, Some(previous.value.target), Some(db.objects[previous.value.target].version));
        } else if r.plan.action == Create {
          CreateIds(db, b, i);
        } else {
          ExistingIds(db, b, i, r.plan.action, r.plan.target, r.plan.targetVersion);
        }
      } else {
        OtherIds(db, b, i, env);
      }
    }
  }

  lemma WorkIds(db: Db, w: Worker, token: nat, crash: bool, env: Env)
    requires IdsSound(db)
    ensures IdsSound(WorkStep(db, w, token, crash, env).0)
  {
    if w.batch < |db.batches| { assert PlansPositive(db.batches[w.batch]); }
    if w.phase.Executing? && w.todo != [] && ExecuteRecord(db, w.batch, w.todo[0], token, env).Done? {
      ExecuteIds(db, w.batch, w.todo[0], token, env);
    }
  }

  lemma StepIds(sys: System, step: Step)
    requires IdsSound(sys.db)
    ensures IdsSound(After(sys, step).db)
  {
    match step
    case MakePreview(b, d, env) => if b < |sys.db.batches| { PreviewPositive(sys.db, sys.db.batches[b], d, env); }
    case Confirm(b, version, env) =>
      if b < |sys.db.batches| {
        PreviewPositive(sys.db, sys.db.batches[b], sys.db.batches[b].decisions, env);
      }
    case Reopen(b) => if b < |sys.db.batches| { assert PlansPositive(sys.db.batches[b]); }
    case TakeBatch(b) => if b < |sys.db.batches| { assert PlansPositive(sys.db.batches[b]); }
    case Work(token, crash, env) => if token in sys.workers { WorkIds(sys.db, sys.workers[token], token, crash, env); }
    case _ =>
  }

  // ---- the confirmed plan ----

  /** An object may be created for a source that has one already only when the operator asked for a new one. */
  predicate Justified(d: Decisions, r: Record) {
    Business(r.kind) && r.plan.action == Create && r.plan.mappingVersion.Some? ==> ChoiceFor(d, r) == Some(0)
  }

  /** While it imports, a batch carries exactly the plans, hashes and choices of a preview without issues. */
  predicate AsConfirmed(batch: Batch) {
    batch.status == Importing ==>
      && batch.preview.Some? && !batch.preview.value.issues
      && batch.preview.value.version.plans == Plans(batch.records)
      && batch.preview.value.version.hashes == Hashes(batch.records)
      && batch.preview.value.version.decisions == batch.decisions
      && forall i :: 0 <= i < |batch.records| ==> Justified(batch.decisions, batch.records[i])
  }

  predicate OneImport(db: Db) {
    forall a, b :: 0 <= a < b < |db.batches| && db.batches[a].org == db.batches[b].org
                   ==> !(db.batches[a].status == Importing && db.batches[b].status == Importing)
  }

  predicate ImportsSound(db: Db) {
    OneImport(db) && forall b :: 0 <= b < |db.batches| ==> AsConfirmed(db.batches[b])
  }

  /** The same plans, sources and choices under possibly other states. */
  predicate SamePlans(a: Batch, b: Batch) {
    && a.org == b.org && a.preview == b.preview && a.decisions == b.decisions && |a.records| == |b.records|
    && forall i :: 0 <= i < |a.records| ==>
         SameSource(a.records[i], b.records[i]) && a.records[i].plan == b.records[i].plan
  }

  lemma SamePlansConfirmed(a: Batch, b: Batch)
    requires SamePlans(a, b) && AsConfirmed(a) && a.status == Importing
    ensures AsConfirmed(b)
  {
    assert Plans(a.records) == Plans(b.records);
    assert Hashes(a.records) == Hashes(b.records);
    forall i | 0 <= i < |b.records| ensures Justified(b.decisions, b.records[i]) {
      assert Justified(a.decisions, a.records[i]);
    }
  }

  /** One batch changed and did not start to import. */
  lemma OneBatchImports(db: Db, next: Db, b: nat)
    requires ImportsSound(db) && OneBatch(db, next, b) && SamePlans(db.batches[b], next.batches[b])
    requires next.batches[b].status == Importing ==> db.batches[b].status == Importing
    ensures ImportsSound(next)
  {
    if db.batches[b].status == Importing { SamePlansConfirmed(db.batches[b], next.batches[b]); }
  }

  lemma ExecutePlans(db: Db, b: nat, i: nat, token: nat, env: Env)
    requires ExecuteRecord(db, b, i, token, env).Done?
    ensures var next := ExecuteRecord(db, b, i, token, env).db;
            OneBatch(db, next, b) && SamePlans(db.batches[b], next.batches[b])
  {
    ExecutionShape(db, b, i, token, env);
    var next := ExecuteRecord(db, b, i, token, env).db;
    if !Final(db.batches[b].records[i].state) {
      assert next.batches[b].records == db.batches[b].records[i := next.batches[b].records[i]];
    }
  }

  lemma WorkPlans(db: Db, w: Worker, token: nat, crash: bool, env: Env)
    requires w.batch < |db.batches|
    ensures var next := WorkStep(db, w, token, crash, env).0;
            OneBatch(db, next, w.batch) && SamePlans(db.batches[w.batch], next.batches[w.batch])
  {
    match w.phase
    case Executing =>
      if w.todo != [] && ExecuteRecord(db, w.batch, w.todo[0], token, env).Done? {
        ExecutePlans(db, w.batch, w.todo[0], token, env);
      }
    case Marking => if w.todo != [] { MarkPlans(db, w.batch, w.todo[0], token); }
    case _ =>
  }

  lemma MarkPlans(db: Db, b: nat, i: nat, token: nat)
    requires b < |db.batches|
    ensures var next := MarkFailed(db, b, i, token); OneBatch(db, next, b) && SamePlans(db.batches[b], next.batches[b])
  {
  }

  lemma WorkImports(sys: System, token: nat, crash: bool, env: Env)
    requires TokensSound(sys) && ImportsSound(sys.db) && token in sys.workers
    ensures ImportsSound(After(sys, Work(token, crash, env)).db)
  {
    var w := sys.workers[token];
    if Holds(sys.db, w.batch, token) {
      assert TokenSound(sys.db.batches[w.batch], w.batch, sys.workers);
      WorkPlans(sys.db, w, token, crash, env);
      OneBatchImports(sys.db, WorkStep(sys.db, w, token, crash, env).0, w.batch);
    } else {
      Fenced(sys.db, w, token, crash, env);
    }
  }

  lemma {:induction false} NoIssue(db: Db, batch: Batch, d: Decisions, env: Env, n: nat, i: nat)
    requires i < n <= |batch.records| && !AnyIssue(db, batch, d, env, n)
    ensures !FindingFor(db, batch, d, i, env).issue
  {
    if i < n - 1 { NoIssue(db, batch, d, env, n - 1, i); }
  }

  lemma FindingJustified(db: Db, batch: Batch, d: Decisions, env: Env, i: nat)
    requires IdsSound(db) && i < |batch.records| && !FindingFor(db, batch, d, i, env).issue
    ensures Justified(d, Replanned(batch.records[i], FindingFor(db, batch, d, i, env).plan))
  {
  }

  /** A preview without issues justifies every plan in it. */
  lemma PreviewJustified(db: Db, batch: Batch, d: Decisions, env: Env)
    requires IdsSound(db) && !Previewed(db, batch, d, env).preview.value.issues
    ensures var checked := Previewed(db, batch, d, env);
            forall i :: 0 <= i < |checked.records| ==> Justified(checked.decisions, checked.records[i])
  {
    var n := |batch.records|;
    PlannedRecordsAt(db, batch, d, env, n);
    forall i | 0 <= i < n ensures Justified(d, PlannedRecords(db, batch, d, env, n)[i]) {
      NoIssue(db, batch, d, env, n, i);
      FindingJustified(db, batch, d, env, i);
    }
  }

  lemma ConfirmImports(db: Db, b: nat, version: Version, env: Env)
    requires IdsSound(db) && ImportsSound(db) && ConfirmBatch(db, b, version, env).Some?
    ensures ImportsSound(ConfirmBatch(db, b, version, env).value)
  {
    var next := ConfirmBatch(db, b, version, env).value;
    if next != db {
      PreviewJustified(db, db.batches[b], db.batches[b].decisions, env);
      assert AsConfirmed(next.batches[b]);
    }
  }

  lemma StepImports(sys: System, step: Step)
    requires TokensSound(sys) && IdsSound(sys.db) && ImportsSound(sys.db)
    ensures ImportsSound(After(sys, step).db)
  {
    match step
    case Confirm(b, version, env) =>
      if ConfirmBatch(sys.db, b, version, env).Some? {
        ConfirmImports(sys.db, b, version, env);
      }
    case Reopen(b) => if b < |sys.db.batches| { OneBatchImports(sys.db, ReopenFailed(sys.db, b), b); }
    case TakeBatch(b) => if Claimable(sys.db, b) { OneBatchImports(sys.db, Claim(sys, b).db, b); }
    case Work(token, crash, env) => if token in sys.workers { WorkImports(sys, token, crash, env); }
    case _ =>
  }

  // ---- the creation log ----

  /** The logged creation belongs to a final record that still names the object. */
  predicate Logged(db: Db, c: Creation) {
    && c.batch < |db.batches| && c.record < |db.batches[c.batch].records|
    && var r := db.batches[c.batch].records[c.record];
    && Business(r.kind) && r.state == Created && r.target == Some(c.made)
    && c.identity == IdentityOf(db.batches[c.batch], r)
    && c.identity in db.mappings && c.made < db.nextId
  }

  /** No record created twice; no source created twice unless the operator asked for a new object. */
  predicate Apart(first: Creation, later: Creation) {
    && first.made < later.made
    && (first.batch, first.record) != (later.batch, later.record)
    && (first.identity == later.identity ==> later.choice == Some(0))
  }

  predicate LogSound(db: Db) {
    && (forall k :: 0 <= k < |db.created| ==> Logged(db, db.created[k]))
    && (forall j, k :: 0 <= j < k < |db.created| ==> Apart(db.created[j], db.created[k]))
  }

  lemma LoggedForward(db: Db, next: Db, c: Creation)
    requires Logged(db, c) && Forward(db, next) && db.nextId <= next.nextId
    ensures Logged(next, c)
  {
    assert BatchForward(db.batches[c.batch], next.batches[c.batch]);
    assert RecordForward(db.batches[c.batch].records[c.record], next.batches[c.batch].records[c.record]);
  }

  lemma SameLog(db: Db, next: Db)
    requires LogSound(db) && Forward(db, next) && db.nextId <= next.nextId && next.created == db.created
    ensures LogSound(next)
  {
    forall k | 0 <= k < |next.created| ensures Logged(next, next.created[k]) {
      LoggedForward(db, next, db.created[k]);
    }
  }

  lemma ExecuteLog(db: Db, b: nat, i: nat, token: nat, env: Env)
    requires IdsSound(db) && ImportsSound(db) && LogSound(db)
    requires ExecuteRecord(db, b, i, token, env).Done? && db.batches[b].status == Importing
    ensures LogSound(ExecuteRecord(db, b, i, token, env).db)
  {
    var next := ExecuteRecord(db, b, i, token, env).db;
    ExecuteForward(db, b, i, token, env);
    ExecutionShape(db, b, i, token, env);
    NextIdGrows(db, b, i, token, env);
    if next.created == db.created {
      SameLog(db, next);
    } else {
      NewEntry(db, b, i, token, env);
      var n := |db.created|;
      forall k | 0 <= k < n ensures Logged(next, next.created[k]) && Apart(next.created[k], next.created[n]) {
        LoggedForward(db, next, db.created[k]);
        assert Logged(db, db.created[k]);
        assert AsConfirmed(db.batches[b]) && Justified(db.batches[b].decisions, db.batches[b].records[i]);
      }
      forall j, k | 0 <= j < k < |next.created| ensures Apart(next.created[j], next.created[k]) {
        if k < n { assert Apart(db.created[j], db.created[k]); }
      }
    }
  }

  lemma NextIdGrows(db: Db, b: nat, i: nat, token: nat, env: Env)
    requires ExecuteRecord(db, b, i, token, env).Done?
    ensures db.nextId <= ExecuteRecord(db, b, i, token, env).db.nextId
  {
  }

  lemma NewEntry(db: Db, b: nat, i: nat, token: nat, env: Env)
    requires ExecuteRecord(db, b, i, token, env).Done? && ExecuteRecord(db, b, i, token, env).db.created != db.created
    ensures var next := ExecuteRecord(db, b, i, token, env).db;
            && next.nextId == db.nextId + 1 && !Final(db.batches[b].records[i].state)
            && next.created == db.created + [Creation(IdentityOf(db.batches[b], db.batches[b].records[i]),
                                                      db.nextId, b, i,
                                                      ChoiceFor(db.batches[b].decisions, db.batches[b].records[i]))]
            && Logged(next, next.created[|db.created|])
  {
    ExecutionShape(db, b, i, token, env);
    CreateShape(db, b, i);
  }

  lemma WorkLog(sys: System, token: nat, crash: bool, env: Env)
    requires TokensSound(sys) && IdsSound(sys.db) && ImportsSound(sys.db) && LogSound(sys.db) && token in sys.workers
    ensures LogSound(After(sys, Work(token, crash, env)).db)
  {
    var w := sys.workers[token];
    var next := WorkStep(sys.db, w, token, crash, env).0;
    if !Holds(sys.db, w.batch, token) {
      Fenced(sys.db, w, token, crash, env);
    } else if w.phase.Executing? && w.todo != [] && ExecuteRecord(sys.db, w.batch, w.todo[0], token, env).Done? {
      assert TokenSound(sys.db.batches[w.batch], w.batch, sys.workers);
      ExecuteLog(sys.db, w.batch, w.todo[0], token, env);
    } else {
      WorkForward(sys.db, w, token, crash, env);
      SameLog(sys.db, next);
    }
  }

  lemma StepLog(sys: System, step: Step)
    requires TokensSound(sys) && IdsSound(sys.db) && ImportsSound(sys.db) && LogSound(sys.db)
    ensures LogSound(After(sys, step).db)
  {
    if step.Work? && step.token in sys.workers {
      WorkLog(sys, step.token, step.crash, step.env);
    } else {
      StepForward(sys, step);
      SameLog(sys.db, After(sys, step).db);
    }
  }

  // ---- together ----

  predicate Sound(sys: System) {
    TokensSound(sys) && IdsSound(sys.db) && ImportsSound(sys.db) && LogSound(sys.db)
  }

  lemma StepSound(sys: System, step: Step)
    requires Sound(sys)
    ensures Sound(After(sys, step))
  {
    StepTokens(sys, step);
    StepIds(sys, step);
    StepImports(sys, step);
    StepLog(sys, step);
  }

  lemma {:induction false} RunSound(sys: System, steps: seq<Step>)
    requires Sound(sys)
    ensures Sound(Run(sys, steps))
  {
    if steps != [] {
      RunSound(sys, steps[..|steps| - 1]);
      StepSound(Run(sys, steps[..|steps| - 1]), steps[|steps| - 1]);
    }
  }

  lemma StartSound(now: int)
    ensures Sound(Start(now))
  {
  }
}
