/** What every interleaving of the migration steps keeps. */
module MigrationProofs {
  import opened Wrappers
  import opened Migration
  import opened MigrationSteps

  // ---- executing one record ----

  predicate SameSource(a: Record, b: Record) {
    && a.kind == b.kind && a.source == b.source && a.hash == b.hash && a.deleted == b.deleted
    && a.buildingSource == b.buildingSource && a.staffSource == b.staffSource && a.landlordSource == b.landlordSource
    && a.values == b.values
  }

  /** One record moved to a final state; nothing else of any batch moved. */
  predicate OneRecordSettled(db: Db, next: Db, b: nat, i: nat)
    requires b < |db.batches| && i < |db.batches[b].records|
  {
    && b < |next.batches| && i < |next.batches[b].records|
    && var r, settled := db.batches[b].records[i], next.batches[b].records[i];
    && next.batches == db.batches[b := db.batches[b].(records := db.batches[b].records[i := settled])]
    && SameSource(r, settled) && settled.plan == r.plan && Final(settled.state)
  }

  predicate OthersKept(db: Db, next: Db) {
    && next.now == db.now && next.nextToken == db.nextToken
    && (forall id :: id in db.mappings ==> id in next.mappings)
  }

  /** At most one object was created, and then for the planned identity, under the mapping it was planned under. */
  predicate CreationFits(db: Db, next: Db, b: nat, i: nat)
    requires b < |db.batches| && i < |db.batches[b].records|
  {
    var batch, r := db.batches[b], db.batches[b].records[i];
    var id := IdentityOf(batch, r);
    || next.created == db.created
    || (&& next.created == db.created + [Creation(id, db.nextId, b, i, ChoiceFor(batch.decisions, r))]
        && Business(r.kind) && r.plan.action == Create && r.plan.mappingVersion == Lookup(db.mappings, id)
        && id in next.mappings && next.mappings[id].target == db.nextId && db.nextId in next.objects)
  }

  /** Writing one record over tables whose batches are untouched. */
  lemma SetShape(db: Db, other: Db, b: nat, i: nat, r: Record)
    requires b < |db.batches| && i < |db.batches[b].records| && other.batches == db.batches
    requires SameSource(db.batches[b].records[i], r) && r.plan == db.batches[b].records[i].plan && Final(r.state)
    ensures OneRecordSettled(db, SetRecord(other, b, i, r), b, i)
    ensures SetRecord(other, b, i, r).batches[b].records[i] == r
  {
    var next := SetRecord(other, b, i, r);
    assert next.batches[b].records[i] == r;
  }

  lemma ExistingShape(db: Db, b: nat, i: nat, action: Action, target: Option<nat>, version: Option<nat>)
    requires b < |db.batches| && i < |db.batches[b].records|
    ensures var ran := ExecuteExisting(db, b, i, action, target, version);
            ran.Done? ==> && OneRecordSettled(db, ran.db, b, i)
                          && OthersKept(db, ran.db) && ran.db.created == db.created
                          && target.Some? && ran.db.batches[b].records[i].target == target
                          && ran.db.mappings == db.mappings[IdentityOf(db.batches[b], db.batches[b].records[i])
                                                            := Mapping(target.value, db.batches[b].records[i].hash)]
  {
  }

  lemma CreateShape(db: Db, b: nat, i: nat)
    requires b < |db.batches| && i < |db.batches[b].records|
    ensures var ran := ExecuteCreate(db, b, i);
            ran.Done? ==> && OneRecordSettled(db, ran.db, b, i) && OthersKept(db, ran.db)
                          && ran.db.batches[b].records[i].state == Created
                          && ran.db.batches[b].records[i].target == Some(db.nextId)
  {
  }

  lemma ExecutionShape(db: Db, b: nat, i: nat, token: nat, env: Env)
    requires ExecuteRecord(db, b, i, token, env).Done?
    ensures b < |db.batches| && i < |db.batches[b].records|
    ensures var next := ExecuteRecord(db, b, i, token, env).db;
            && (Final(db.batches[b].records[i].state) ==> next == db)
            && (!Final(db.batches[b].records[i].state) ==> OneRecordSettled(db, next, b, i))
            && OthersKept(db, next) && CreationFits(db, next, b, i)
  {
    var r := db.batches[b].records[i];
    if !Final(r.state) {
      if Business(r.kind) && r.plan.action in {Create, Update, Reuse, Skip} {
        var previous := Lookup(db.mappings, IdentityOf(db.batches[b], r));
        CreateShape(db, b, i);
        ExistingShape(db, b, i, r.plan.action, r.plan.target, r.plan.targetVersion);
        if previous.Some? && previous.value.target in db.objects {
          ExistingShape(db, b, i, Skip, Some(previous.value.target), Some(db.objects[previous.value.target].version));
        }
      } else {
        OtherShape(db, b, i, env);
      }
    }
  }

  lemma OtherShape(db: Db, b: nat, i: nat, env: Env)
    requires b < |db.batches| && i < |db.batches[b].records|
    ensures var ran := ExecuteOther(db, b, i, env);
            ran.Done? ==> OneRecordSettled(db, ran.db, b, i) && OthersKept(db, ran.db) && ran.db.created == db.created
  {
    var batch, r := db.batches[b], db.batches[b].records[i];
    if r.kind == Staff && r.plan.action == Reuse {
      StaffShape(db, b, i, env);
    } else if r.plan.action == Responsibility {
      DutyShape(db, b, i, env);
    } else {
      SetShape(db, db, b, i, r.(state := Archived));
    }
  }

  lemma StaffShape(db: Db, b: nat, i: nat, env: Env)
    requires b < |db.batches| && i < |db.batches[b].records|
    requires db.batches[b].records[i].kind == Staff && db.batches[b].records[i].plan.action == Reuse
    ensures var ran := ExecuteOther(db, b, i, env);
            ran.Done? ==> OneRecordSettled(db, ran.db, b, i) && OthersKept(db, ran.db) && ran.db.created == db.created
  {
    var batch, r := db.batches[b], db.batches[b].records[i];
    if r.plan.target.Some? {
      var mapped := db.(mappings := db.mappings[IdentityOf(batch, r) := Mapping(r.plan.target.value, r.hash)]);
      SetShape(db, mapped, b, i, r.(state := Reused, target := Some(r.plan.target.value)));
    }
  }

  lemma DutyShape(db: Db, b: nat, i: nat, env: Env)
    requires b < |db.batches| && i < |db.batches[b].records|
    requires db.batches[b].records[i].kind != Staff || db.batches[b].records[i].plan.action != Reuse
    requires db.batches[b].records[i].plan.action == Responsibility
    ensures var ran := ExecuteOther(db, b, i, env);
            ran.Done? ==> OneRecordSettled(db, ran.db, b, i) && OthersKept(db, ran.db) && ran.db.created == db.created
  {
    var batch, r := db.batches[b], db.batches[b].records[i];
    var landlord := Dependency(batch, Landlord, r.landlordSource);
    if r.plan.target.Some? && landlord.Some? {
      var duty := (batch.org, r.plan.target.value, landlord.value);
      if duty in db.duties {
        SetShape(db, db, b, i, r.(state := Reused, target := Some(db.duties[duty])));
      } else {
        SetShape(db, db.(duties := db.duties[duty := db.nextId], nextId := db.nextId + 1), b, i,
                 r.(state := Created, target := Some(db.nextId)));
      }
    }
  }

  // ---- moving forward ----

  predicate RecordForward(a: Record, b: Record) {
    SameSource(a, b) && (Business(a.kind) && Final(a.state) ==> b.state == a.state && b.target == a.target)
  }

  predicate BatchForward(a: Batch, b: Batch) {
    && a.org == b.org && a.source == b.source && |a.records| == |b.records|
    && forall i :: 0 <= i < |a.records| ==> RecordForward(a.records[i], b.records[i])
  }

  /** Sources stay what they are, final business records stay as they are, mappings and the creation log only grow. */
  predicate Forward(db: Db, next: Db) {
    && |db.batches| <= |next.batches|
    && (forall b :: 0 <= b < |db.batches| ==> BatchForward(db.batches[b], next.batches[b]))
    && (forall id :: id in db.mappings ==> id in next.mappings)
    && db.created <= next.created
    && db.nextToken <= next.nextToken
  }

  lemma ForwardTransitive(a: Db, b: Db, c: Db)
    requires Forward(a, b) && Forward(b, c)
    ensures Forward(a, c)
  {
    forall k | 0 <= k < |a.batches| ensures BatchForward(a.batches[k], c.batches[k]) {
      assert BatchForward(a.batches[k], b.batches[k]) && BatchForward(b.batches[k], c.batches[k]);
      forall i | 0 <= i < |a.batches[k].records|
        ensures RecordForward(a.batches[k].records[i], c.batches[k].records[i])
      {
        assert RecordForward(a.batches[k].records[i], b.batches[k].records[i]);
        assert RecordForward(b.batches[k].records[i], c.batches[k].records[i]);
      }
    }
  }

  lemma {:induction false} PlannedRecordsAt(db: Db, batch: Batch, d: Decisions, env: Env, n: nat)
    requires n <= |batch.records|
    ensures var records := PlannedRecords(db, batch, d, env, n);
            |records| == n && forall i :: 0 <= i < n ==>
                records[i] == Replanned(batch.records[i], FindingFor(db, batch, d, i, env).plan)
  {
    if n > 0 { PlannedRecordsAt(db, batch, d, env, n - 1); }
  }

  lemma PreviewForward(db: Db, batch: Batch, d: Decisions, env: Env)
    ensures BatchForward(batch, Previewed(db, batch, d, env))
  {
    PlannedRecordsAt(db, batch, d, env, |batch.records|);
  }

  /** Nothing but one batch changed among the batches. */
  predicate OneBatch(db: Db, next: Db, b: nat) {
    b < |db.batches| && |next.batches| == |db.batches| && next.batches == db.batches[b := next.batches[b]]
  }

  lemma OneBatchForward(db: Db, next: Db, b: nat)
    requires OneBatch(db, next, b) && BatchForward(db.batches[b], next.batches[b])
    requires (forall id :: id in db.mappings ==> id in next.mappings) && db.created <= next.created
    requires db.nextToken <= next.nextToken
    ensures Forward(db, next)
  {
  }

  lemma ExecuteForward(db: Db, b: nat, i: nat, token: nat, env: Env)
    requires ExecuteRecord(db, b, i, token, env).Done?
    ensures Forward(db, ExecuteRecord(db, b, i, token, env).db)
  {
    ExecutionShape(db, b, i, token, env);
    var next := ExecuteRecord(db, b, i, token, env).db;
    if !Final(db.batches[b].records[i].state) {
      assert next.batches[b].records == db.batches[b].records[i := next.batches[b].records[i]];
      OneBatchForward(db, next, b);
    }
  }

  lemma MarkForward(db: Db, b: nat, i: nat, token: nat)
    ensures Forward(db, MarkFailed(db, b, i, token))
  {
    if MarkFailed(db, b, i, token) != db { OneBatchForward(db, MarkFailed(db, b, i, token), b); }
  }

  lemma WorkForward(db: Db, w: Worker, token: nat, crash: bool, env: Env)
    ensures Forward(db, WorkStep(db, w, token, crash, env).0)
  {
    match w.phase
    case Executing =>
      if w.todo != [] && ExecuteRecord(db, w.batch, w.todo[0], token, env).Done? {
        ExecuteForward(db, w.batch, w.todo[0], token, env);
      }
    case Marking =>
      if w.todo != [] { MarkForward(db, w.batch, w.todo[0], token); }
    case _ =>
      if Holds(db, w.batch, token) { OneBatchForward(db, WorkStep(db, w, token, crash, env).0, w.batch); }
  }

  lemma PlanningForward(db: Db, b: nat, d: Decisions, env: Env)
    ensures PreviewBatch(db, b, d, env).Some? ==> Forward(db, PreviewBatch(db, b, d, env).value)
  {
    if PreviewBatch(db, b, d, env).Some? {
      PreviewForward(db, db.batches[b], d, env);
      OneBatchForward(db, PreviewBatch(db, b, d, env).value, b);
    }
  }

  lemma ConfirmForward(db: Db, b: nat, version: Version, env: Env)
    ensures ConfirmBatch(db, b, version, env).Some? ==> Forward(db, ConfirmBatch(db, b, version, env).value)
  {
    if b < |db.batches| && ConfirmBatch(db, b, version, env).Some? && ConfirmBatch(db, b, version, env).value != db {
      PreviewForward(db, db.batches[b], db.batches[b].decisions, env);
      OneBatchForward(db, ConfirmBatch(db, b, version, env).value, b);
    }
  }

  lemma StepForward(sys: System, step: Step)
    ensures Forward(sys.db, After(sys, step).db)
  {
    match step
    case MakePreview(b, d, env) => PlanningForward(sys.db, b, d, env);
    case Confirm(b, version, env) => ConfirmForward(sys.db, b, version, env);
    case Work(token, crash, env) =>
      if token in sys.workers {
        WorkForward(sys.db, sys.workers[token], token, crash, env);
      }
    case _ =>
  }

  /** Across any further run, a house, building or landlord record that is final keeps its state and its object. */
  lemma {:induction false} RunForward(sys: System, steps: seq<Step>)
    ensures Forward(sys.db, Run(sys, steps).db)
  {
    if steps != [] {
      var front := steps[..|steps| - 1];
      RunForward(sys, front);
      StepForward(Run(sys, front), steps[|steps| - 1]);
      ForwardTransitive(sys.db, Run(sys, front).db, Run(sys, steps).db);
    }
  }

  // ---- tokens and workers ----

  predicate Open(records: seq<Record>) {
    exists i :: 0 <= i < |records| && !Final(records[i].state)
  }

  /** A token belongs to a worker of the batch, while it imports; a worker about to finish knows what is left. */
  predicate TokenSound(batch: Batch, b: nat, workers: map<nat, Worker>) {
    batch.token.Some? ==>
      && batch.status == Importing && batch.token.value in workers
      && var w := workers[batch.token.value];
      && w.batch == b && (w.phase.Finishing? ==> (w.phase.unfinished <==> Open(batch.records)))
  }

  predicate WorkersKnown(sys: System) {
    forall t :: t in sys.workers ==> t < sys.db.nextToken && sys.workers[t].batch < |sys.db.batches|
  }

  predicate TokensSound(sys: System) {
    WorkersKnown(sys) && forall b :: 0 <= b < |sys.db.batches| ==> TokenSound(sys.db.batches[b], b, sys.workers)
  }

  lemma {:induction false} CountPositive(records: seq<Record>, state: RecordState)
    ensures CountState(records, state) > 0 <==> exists i :: 0 <= i < |records| && records[i].state == state
  {
    if records != [] {
      var front := records[..|records| - 1];
      CountPositive(front, state);
      if CountState(front, state) > 0 {
        var i :| 0 <= i < |front| && front[i].state == state;
        assert records[i].state == state;
      }
      if i :| 0 <= i < |records| && records[i].state == state && i < |front| {
        assert front[i].state == state;
      }
    }
  }

  lemma SummaryShowsOpen(records: seq<Record>)
    ensures var summary := SummaryOf(records); (summary.failed > 0 || summary.pending > 0) <==> Open(records)
  {
    CountPositive(records, Failed);
    CountPositive(records, Pending);
  }
}
