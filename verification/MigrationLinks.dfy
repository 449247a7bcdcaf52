/** Final records name their objects, and imported houses stand in buildings of their own organization. */
module MigrationLinks {
  import opened Wrappers
  import opened Migration
  import opened MigrationSteps
  import opened MigrationProofs
  import opened MigrationRuns

  /** An object of this kind and organization, or one that was and has been removed. */
  predicate Belongs(db: Db, id: nat, kind: EntityKind, org: int) {
    id < db.nextId && (id in db.objects ==> db.objects[id].kind == kind && db.objects[id].org == org)
  }

  /** Ids are never used again, and objects keep kind and organization. */
  predicate ObjectsForward(db: Db, next: Db) {
    && db.nextId <= next.nextId
    && forall id :: id < db.nextId && id in next.objects
                    ==> id in db.objects
                        && next.objects[id].kind == db.objects[id].kind
                        && next.objects[id].org == db.objects[id].org
  }

  predicate RecordLinked(db: Db, batch: Batch, r: Record) {
    && (r.plan.action == Responsibility ==> r.kind == Relation)
    && (Business(r.kind) && r.target.Some? ==> Belongs(db, r.target.value, r.kind, batch.org))
    && (batch.status == Importing && r.kind == House && r.plan.building.Some? ==>
          Belongs(db, r.plan.building.value, Building, batch.org))
    && Named(r) && (batch.status == Importing && Business(r.kind) && r.plan.action == Archive ==> r.deleted)
  }

  /**
   A business record that is deleted at the source is only ever archived; any
   other that is final names its object.
   */
  predicate Named(r: Record) {
    Business(r.kind) ==>
      if r.deleted
      then r.target.None? && r.plan.action == Archive
      else Final(r.state) ==> r.target.Some?
  }

  predicate BatchLinked(db: Db, batch: Batch) {
    forall i :: 0 <= i < |batch.records| ==> RecordLinked(db, batch, batch.records[i])
  }

  predicate Linked(db: Db) {
    forall b :: 0 <= b < |db.batches| ==> BatchLinked(db, db.batches[b])
  }

  lemma BatchLinkedForward(db: Db, next: Db, batch: Batch, same: Batch)
    requires BatchLinked(db, batch) && ObjectsForward(db, next)
    requires same.records == batch.records && same.org == batch.org && same.status == batch.status
    ensures BatchLinked(next, same)
  {
    forall i | 0 <= i < |same.records| ensures RecordLinked(next, same, same.records[i]) {
      assert RecordLinked(db, batch, batch.records[i]);
    }
  }

  lemma OneBatchLinked(db: Db, next: Db, b: nat)
    requires Linked(db) && ObjectsForward(db, next) && OneBatch(db, next, b) && BatchLinked(next, next.batches[b])
    ensures Linked(next)
  {
    forall k | 0 <= k < |next.batches| ensures BatchLinked(next, next.batches[k]) {
      if k != b { BatchLinkedForward(db, next, db.batches[k], db.batches[k]); }
    }
  }

  // ---- planning ----

  lemma FindingLinked(db: Db, batch: Batch, d: Decisions, env: Env, i: nat)
    requires IdsSound(db) && i < |batch.records|
    ensures var finding := FindingFor(db, batch, d, i, env);
            && (finding.plan.action == Responsibility ==> batch.records[i].kind == Relation)
            && (Business(batch.records[i].kind) ==> (finding.plan.action == Archive <==> batch.records[i].deleted))
            && (!finding.issue && batch.records[i].kind == House && finding.plan.building.Some?
                ==> Belongs(db, finding.plan.building.value, Building, batch.org))
  {
  }

  /** A preview links its records; with the status it ends in, or importing when it has no issue. */
  lemma PreviewLinked(db: Db, batch: Batch, d: Decisions, env: Env, status: Status)
    requires IdsSound(db) && BatchLinked(db, batch)
    requires status == Importing ==> !Previewed(db, batch, d, env).preview.value.issues
    ensures BatchLinked(db, Previewed(db, batch, d, env).(status := status))
  {
    var n := |batch.records|;
    PlannedRecordsAt(db, batch, d, env, n);
    var checked := Previewed(db, batch, d, env).(status := status);
    forall i | 0 <= i < n ensures RecordLinked(db, checked, checked.records[i]) {
      assert RecordLinked(db, batch, batch.records[i]);
      FindingLinked(db, batch, d, env, i);
      if status == Importing { NoIssue(db, batch, d, env, n, i); }
    }
  }

  // ---- executing ----

  lemma DependencyLinked(db: Db, batch: Batch, source: int)
    requires BatchLinked(db, batch)
    ensures Dependency(batch, Building, source).Some? ==>
              Belongs(db, Dependency(batch, Building, source).value, Building, batch.org)
  {
    var found := FindFrom(batch.records, Building, source, 0);
    if found.Some? { assert RecordLinked(db, batch, batch.records[found.value]); }
  }

  /** The building an importing batch gives a house is one of its organization. */
  lemma BuildingLinked(db: Db, batch: Batch, i: nat)
    requires BatchLinked(db, batch) && batch.status == Importing && i < |batch.records|
    requires batch.records[i].kind == House
    ensures var building := BuildingOf(batch, batch.records[i]);
            building.Some? ==> Belongs(db, building.value, Building, batch.org)
  {
    assert RecordLinked(db, batch, batch.records[i]);
    DependencyLinked(db, batch, batch.records[i].buildingSource);
  }

  /** The record that was executed names an object of its kind, and the other objects kept kind and organization. */
  predicate ExecutedLinked(db: Db, next: Db, b: nat, i: nat)
    requires b < |db.batches| && i < |db.batches[b].records|
  {
    && ObjectsForward(db, next) && b < |next.batches| && i < |next.batches[b].records|
    && var batch, settled := db.batches[b], next.batches[b].records[i];
    && (Business(settled.kind) && settled.target.Some? ==>
          Belongs(next, settled.target.value, settled.kind, batch.org))
    && Named(settled)
  }

  lemma ExistingLinked(db: Db, b: nat, i: nat, action: Action, target: Option<nat>, version: Option<nat>)
    requires IdsSound(db) && b < |db.batches| && i < |db.batches[b].records| && !db.batches[b].records[i].deleted
    requires ExecuteExisting(db, b, i, action, target, version).Done?
    ensures ExecutedLinked(db, ExecuteExisting(db, b, i, action, target, version).db, b, i)
  {
    ExistingShape(db, b, i, action, target, version);
  }

  lemma CreateLinked(db: Db, b: nat, i: nat)
    requires IdsSound(db) && b < |db.batches| && i < |db.batches[b].records| && !db.batches[b].records[i].deleted
    requires ExecuteCreate(db, b, i).Done?
    ensures ExecutedLinked(db, ExecuteCreate(db, b, i).db, b, i)
  {
    CreateShape(db, b, i);
  }

  lemma OtherLinked(db: Db, b: nat, i: nat, env: Env)
    requires IdsSound(db) && b < |db.batches| && i < |db.batches[b].records| && ExecuteOther(db, b, i, env).Done?
    requires RecordLinked(db, db.batches[b], db.batches[b].records[i])
    requires Business(db.batches[b].records[i].kind) ==> db.batches[b].records[i].deleted
    ensures ExecutedLinked(db, ExecuteOther(db, b, i, env).db, b, i)
  {
    OtherShape(db, b, i, env);
  }

  lemma ExecuteLinked(db: Db, b: nat, i: nat, token: nat, env: Env)
    requires IdsSound(db) && Linked(db) && ExecuteRecord(db, b, i, token, env).Done?
    requires db.batches[b].status == Importing
    ensures Linked(ExecuteRecord(db, b, i, token, env).db) && ObjectsForward(db, ExecuteRecord(db, b, i, token, env).db)
  {
    var batch, r := db.batches[b], db.batches[b].records[i];
    var next := ExecuteRecord(db, b, i, token, env).db;
    assert BatchLinked(db, batch) && RecordLinked(db, batch, r);
    if !Final(r.state) {
      var previous := Lookup(db.mappings, IdentityOf(batch, r));
      if !(Business(r.kind) && r.plan.action in {Create, Update, Reuse, Skip}) {
        OtherLinked(db, b, i, env);
      } else if previous != r.plan.mappingVersion {
        ExistingLinked(db, b, i, Skip, Some(previous.value.target), Some(db.objects[previous.value.target].version));
      } else if r.plan.action == Create {
        CreateLinked(db, b, i);
      } else {
        ExistingLinked(db, b, i, r.plan.action, r.plan.target, r.plan.targetVersion);
      }
      ExecutionShape(db, b, i, token, env);
      SettledLinked(db, next, b, i);
      OneBatchLinked(db, next, b);
    }
  }

  lemma SettledLinked(db: Db, next: Db, b: nat, i: nat)
    requires b < |db.batches| && i < |db.batches[b].records| && BatchLinked(db, db.batches[b])
    requires OneRecordSettled(db, next, b, i) && ExecutedLinked(db, next, b, i)
    ensures BatchLinked(next, next.batches[b])
  {
    var batch, changed := db.batches[b], next.batches[b];
    assert changed.records == batch.records[i := changed.records[i]];
    forall k | 0 <= k < |changed.records| ensures RecordLinked(next, changed, changed.records[k]) {
      assert RecordLinked(db, batch, batch.records[k]);
    }
  }

  lemma MarkLinked(db: Db, b: nat, i: nat, token: nat)
    requires Linked(db)
    ensures Linked(MarkFailed(db, b, i, token))
  {
    var next := MarkFailed(db, b, i, token);
    if next != db {
      var batch, changed := db.batches[b], next.batches[b];
      assert BatchLinked(db, batch);
      forall k | 0 <= k < |changed.records| ensures RecordLinked(next, changed, changed.records[k]) {
        assert RecordLinked(db, batch, batch.records[k]);
      }
      OneBatchLinked(db, next, b);
    }
  }

  /** The same records under a status that does not start an import. */
  lemma SameRecordsLinked(db: Db, next: Db, b: nat)
    requires Linked(db) && ObjectsForward(db, next) && OneBatch(db, next, b)
    requires next.batches[b].records == db.batches[b].records && next.batches[b].org == db.batches[b].org
    requires next.batches[b].status == Importing ==> db.batches[b].status == Importing
    ensures Linked(next)
  {
    assert BatchLinked(db, db.batches[b]);
    forall k | 0 <= k < |next.batches[b].records|
      ensures RecordLinked(next, next.batches[b], next.batches[b].records[k])
    {
      assert RecordLinked(db, db.batches[b], db.batches[b].records[k]);
    }
    OneBatchLinked(db, next, b);
  }

  lemma WorkLinked(sys: System, token: nat, crash: bool, env: Env)
    requires Sound(sys) && Linked(sys.db) && token in sys.workers
    ensures Linked(After(sys, Work(token, crash, env)).db)
  {
    var db, w := sys.db, sys.workers[token];
    if !Holds(db, w.batch, token) {
      Fenced(db, w, token, crash, env);
    } else {
      assert TokenSound(db.batches[w.batch], w.batch, sys.workers);
      match w.phase
      case Executing =>
        if w.todo != [] && ExecuteRecord(db, w.batch, w.todo[0], token, env).Done? {
          ExecuteLinked(db, w.batch, w.todo[0], token, env);
        }
      case Marking => if w.todo != [] { MarkLinked(db, w.batch, w.todo[0], token); }
      case _ => SameRecordsLinked(db, WorkStep(db, w, token, crash, env).0, w.batch);
    }
  }

  lemma ReopenLinked(db: Db, b: nat)
    requires Linked(db) && b < |db.batches|
    ensures Linked(ReopenFailed(db, b))
  {
    var next := ReopenFailed(db, b);
    assert BatchLinked(db, db.batches[b]);
    forall k | 0 <= k < |next.batches[b].records|
      ensures RecordLinked(next, next.batches[b], next.batches[b].records[k])
    {
      assert RecordLinked(db, db.batches[b], db.batches[b].records[k]);
    }
    OneBatchLinked(db, next, b);
  }

  lemma PlanningLinked(sys: System, step: Step)
    requires Sound(sys) && Linked(sys.db) && (step.MakePreview? || step.Confirm?)
    ensures Linked(After(sys, step).db)
  {
    var db, next := sys.db, After(sys, step).db;
    if next != db {
      var b := step.b;
      assert BatchLinked(db, db.batches[b]);
      var d := if step.MakePreview? then step.decisions else db.batches[b].decisions;
      PreviewLinked(db, db.batches[b], d, step.env, next.batches[b].status);
      BatchLinkedForward(db, next, Previewed(db, db.batches[b], d, step.env).(status := next.batches[b].status),
                         next.batches[b]);
      OneBatchLinked(db, next, b);
    }
  }

  lemma StepLinked(sys: System, step: Step)
    requires Sound(sys) && Linked(sys.db)
    ensures Linked(After(sys, step).db)
  {
    match step
    case MakePreview(_, _, _) => PlanningLinked(sys, step);
    case Confirm(_, _, _) => PlanningLinked(sys, step);
    case Reopen(b) => if b < |sys.db.batches| { ReopenLinked(sys.db, b); }
    case TakeBatch(b) => if Claimable(sys.db, b) { SameRecordsLinked(sys.db, Claim(sys, b).db, b); }
    case Work(token, crash, env) => if token in sys.workers { WorkLinked(sys, token, crash, env); }
    case _ => OutsideLinked(sys, step);
  }

  lemma OutsideLinked(sys: System, step: Step)
    requires Sound(sys) && Linked(sys.db)
    requires step.AddBatch? || step.Tick? || step.AddObject? || step.EditObject? || step.RemoveObject?
    ensures Linked(After(sys, step).db)
  {
    var db, next := sys.db, After(sys, step).db;
    forall b | 0 <= b < |db.batches| ensures BatchLinked(next, next.batches[b]) {
      BatchLinkedForward(db, next, db.batches[b], next.batches[b]);
    }
  }

  lemma {:induction false} RunLinked(now: int, steps: seq<Step>)
    ensures Sound(Run(Start(now), steps)) && Linked(Run(Start(now), steps).db)
  {
    StartSound(now);
    RunSound(Start(now), steps);
    if steps != [] {
      var front := steps[..|steps| - 1];
      RunLinked(now, front);
      StepLinked(Run(Start(now), front), steps[|steps| - 1]);
    }
  }

  /**
   In every run, a house that an import creates stands in an existing building of
   the importing organization: the planned one, else the one its source's building
   became. If it has a landlord, that is a contact of the organization with that
   role, and no other house has its building and room number.
   */
  lemma CreatedHouseStandsInOwnBuilding(now: int, steps: seq<Step>, token: nat, crash: bool, env: Env)
    requires var sys := Run(Start(now), steps);
             var next := After(sys, Work(token, crash, env)).db;
             |next.created| > |sys.db.created| && next.created[|sys.db.created|].identity.kind == House
    ensures var db := Run(Start(now), steps).db;
            var next := After(Run(Start(now), steps), Work(token, crash, env)).db;
            var c := next.created[|db.created|];
            && c.made in next.objects && c.batch < |db.batches| && c.record < |db.batches[c.batch].records|
            && next.objects[c.made].building == BuildingOf(db.batches[c.batch], db.batches[c.batch].records[c.record])
            && next.objects[c.made].building.Some?
            && StandsWell(next.objects, c.made, c.identity.org)
  {
    RunLinked(now, steps);
    var sys := Run(Start(now), steps);
    var w := sys.workers[token];
    OnlyExecutionCreates(sys.db, w, token, crash, env);
    assert TokenSound(sys.db.batches[w.batch], w.batch, sys.workers);
    NewEntry(sys.db, w.batch, w.todo[0], token, env);
    HouseCreated(sys.db, w.batch, w.todo[0], token, env);
  }

  /** The house's building and landlord are of the organization, and its room is its own. */
  predicate StandsWell(objects: map<nat, Object>, house: nat, org: int)
    requires house in objects && objects[house].building.Some?
  {
    var o := objects[house];
    && IsBuilding(objects, o.building.value) && objects[o.building.value].org == org
    && (o.landlord.Some? ==> IsLandlord(objects, org, o.landlord.value))
    && forall k :: k in objects && k != house && objects[k].kind == House && objects[k].building == o.building
                   ==> objects[k].values.name != o.values.name
  }

  lemma OnlyExecutionCreates(db: Db, w: Worker, token: nat, crash: bool, env: Env)
    requires WorkStep(db, w, token, crash, env).0.created != db.created
    ensures Holds(db, w.batch, token) && w.todo != [] && ExecuteRecord(db, w.batch, w.todo[0], token, env).Done?
    ensures WorkStep(db, w, token, crash, env).0 == ExecuteRecord(db, w.batch, w.todo[0], token, env).db
  {
  }

  lemma HouseCreated(db: Db, b: nat, i: nat, token: nat, env: Env)
    requires IdsSound(db) && Linked(db) && ExecuteRecord(db, b, i, token, env).Done?
    requires db.batches[b].status == Importing
    requires ExecuteRecord(db, b, i, token, env).db.created != db.created && db.batches[b].records[i].kind == House
    ensures var next := ExecuteRecord(db, b, i, token, env).db;
            var building := BuildingOf(db.batches[b], db.batches[b].records[i]);
            && db.nextId in next.objects && next.objects[db.nextId].building == building && building.Some?
            && StandsWell(next.objects, db.nextId, db.batches[b].org)
  {
    NewEntry(db, b, i, token, env);
    ExecuteLinked(db, b, i, token, env);
    assert BatchLinked(db, db.batches[b]);
    BuildingLinked(db, db.batches[b], i);
  }

  // ---- landlords of houses ----

  /** The landlord of the house is a record of the package that is planned to be created. */
  predicate LandlordIsNew(db: Db, batch: Batch, d: Decisions, env: Env, r: Record) {
    var found := FindFrom(batch.records, Landlord, r.landlordSource, 0);
    && r.landlordSource != 0 && found.Some? && !batch.records[found.value].deleted
    && FindingFor(db, batch, d, found.value, env).plan.action == Create
  }

  /**
   When a house is planned to be without a landlord: the operator asked for it, or
   said nothing and its landlord is created by the same import.
   */
  lemma PlannedWithoutLandlord(db: Db, batch: Batch, d: Decisions, env: Env, i: nat)
    requires i < |batch.records| && batch.records[i].kind == House && !FindingFor(db, batch, d, i, env).issue
    requires FindingFor(db, batch, d, i, env).plan.action in {Create, Update}
    ensures var r, choice := batch.records[i], ExtraFor(d, batch.records[i]).landlord;
            FindingFor(db, batch, d, i, env).plan.landlord == SetLink(None)
            <==> choice.NoLandlord?
                 || ((choice.Unsaid? || choice == ChosenLandlord(0)) && LandlordIsNew(db, batch, d, env, r))
  {
  }

  /**
   However late it is executed, a house that was planned together with a new
   landlord ends without a landlord, although its landlord was imported before it.
   */
  lemma NewLandlordIsNotLinked(db: Db, batch: Batch, d: Decisions, env: Env, i: nat, later: Db, b: nat, k: nat,
                               token: nat)
    requires i < |batch.records| && batch.records[i].kind == House && !FindingFor(db, batch, d, i, env).issue
    requires FindingFor(db, batch, d, i, env).plan.action in {Create, Update}
    requires ExtraFor(d, batch.records[i]).landlord.Unsaid? && LandlordIsNew(db, batch, d, env, batch.records[i])
    requires ExecuteRecord(later, b, k, token, env).Done?
    requires var r := later.batches[b].records[k];
             && r.kind == House && !Final(r.state) && r.plan == FindingFor(db, batch, d, i, env).plan
             && r.plan.mappingVersion == Lookup(later.mappings, IdentityOf(later.batches[b], r))
    ensures var next := ExecuteRecord(later, b, k, token, env).db;
            && b < |next.batches| && k < |next.batches[b].records|
            && var house := next.batches[b].records[k].target;
            house.Some? && house.value in next.objects && next.objects[house.value].landlord.None?
  {
    PlannedWithoutLandlord(db, batch, d, env, i);
    var r := later.batches[b].records[k];
    CreateShape(later, b, k);
    ExistingShape(later, b, k, r.plan.action, r.plan.target, r.plan.targetVersion);
  }
}
