/** What an import makes of its confirmed plan when nobody interferes. */
module MigrationOutcome {
  import opened Wrappers
  import opened Ordering
  import opened Migration
  import opened MigrationSteps
  import opened MigrationProofs
  import opened MigrationRuns
  import opened MigrationTheorems
  import opened MigrationLinks

  /** One record's turn: executed, or marked failed. */
  function TurnOf(db: Db, b: nat, i: nat, token: nat, env: Env): Db {
    match ExecuteRecord(db, b, i, token, env)
    case Done(next) => next
    case _ => MarkFailed(db, b, i, token)
  }

  function WorkAll(db: Db, b: nat, order: seq<nat>, token: nat, env: Env): Db
    decreases |order|
  {
    if order == [] then db else WorkAll(TurnOf(db, b, order[0], token, env), b, order[1..], token, env)
  }

  // ---- plans that are up to date ----

  /** The house's building is there, or is a record of the package that was or will be created. */
  predicate BuildingNamed(db: Db, batch: Batch, r: Record) {
    if r.plan.building.Some? then Available(db, Building, batch.org, r.plan.building.value)
    else
      var found := FindFrom(batch.records, Building, r.buildingSource, 0);
      && found.Some? && !batch.records[found.value].deleted
      && (Final(batch.records[found.value].state) || batch.records[found.value].plan.action == Create)
  }

  predicate LandlordNamed(db: Db, r: Record) {
    r.plan.landlord.SetLink? && r.plan.landlord.landlord.Some? ==> r.plan.landlord.landlord.value < db.nextId
  }

  /** The plan of a record fits the tables as they are. */
  predicate UpToDate(db: Db, b: nat, i: nat, env: Env)
    requires b < |db.batches| && i < |db.batches[b].records|
  {
    var batch, r := db.batches[b], db.batches[b].records[i];
    if Business(r.kind) && r.plan.action in {Create, Update, Reuse, Skip} then
      && !r.deleted && r.plan.mappingVersion == Lookup(db.mappings, IdentityOf(batch, r))
      && (r.kind == House && r.plan.action in {Create, Update} ==> BuildingNamed(db, batch, r) && LandlordNamed(db, r))
      && (WorksOnObject(r) ==>
            && r.plan.target.Some? && Available(db, r.kind, batch.org, r.plan.target.value)
            && r.plan.targetVersion == Some(db.objects[r.plan.target.value].version))
    else if Business(r.kind) then r.deleted && r.plan.action == Archive
    else if (r.kind == Staff && r.plan.action == Reuse) || r.plan.action == Responsibility then
      && r.plan.target.Some? && r.plan.target.value in env.members
      && (r.plan.action == Responsibility ==>
            r.kind == Relation && FindFrom(batch.records, Landlord, r.landlordSource, 0).Some?)
    else true
  }

  predicate SourcesUnique(records: seq<Record>) {
    forall i, j :: 0 <= i < j < |records| ==>
        !(records[i].kind == records[j].kind && records[i].source == records[j].source)
  }

  predicate OrderFits(records: seq<Record>, order: seq<nat>) {
    && (forall x :: 0 <= x < |order| ==> order[x] < |records|)
    && (forall x, y :: 0 <= x < y < |order| ==>
          order[x] != order[y] && KindRank(records[order[x]].kind) <= KindRank(records[order[y]].kind))
  }

  /** Records already worked on are final, and name their object unless deleted. */
  predicate Behind(records: seq<Record>, order: seq<nat>) {
    forall j: nat :: j < |records| && j !in order ==> Final(records[j].state)
  }

  /** What a record became was created before. */
  predicate TargetsKnown(db: Db, records: seq<Record>) {
    forall j :: 0 <= j < |records| && Business(records[j].kind) && records[j].target.Some? ==>
                  records[j].target.value < db.nextId
  }

  /** The state of the loop: the token is held, what is behind is final, and what is ahead is final or up to date. */
  predicate OnTrack(db: Db, b: nat, order: seq<nat>, token: nat, env: Env) {
    && Holds(db, b, token) && IdsSound(db) && SourcesUnique(db.batches[b].records)
    && OrderFits(db.batches[b].records, order) && Behind(db.batches[b].records, order)
    && (forall j :: 0 <= j < |db.batches[b].records| ==> Named(db.batches[b].records[j]))
    && TargetsKnown(db, db.batches[b].records)
    && (forall x :: 0 <= x < |order| ==> Final(db.batches[b].records[order[x]].state) || UpToDate(db, b, order[x], env))
  }

  /** Working on the planned object changes it: an update, or the first time a contact becomes a landlord. */
  predicate Touches(db: Db, r: Record) {
    && WorksOnObject(r) && r.plan.target.Some? && r.plan.target.value in db.objects
    && (r.plan.action == Update || (r.kind == Landlord && !db.objects[r.plan.target.value].landlordRole))
  }

  predicate Spoils(db: Db, first: Record, later: Record) {
    && !Final(first.state) && !Final(later.state) && Touches(db, first) && WorksOnObject(later)
    && later.plan.target == first.plan.target
  }

  /** No record changes an object that a later record is planned to work on. */
  predicate Compatible(db: Db, records: seq<Record>, order: seq<nat>)
    requires OrderFits(records, order)
  {
    forall x, y :: 0 <= x < y < |order| ==> !Spoils(db, records[order[x]], records[order[y]])
  }

  /** The landlord of a responsibility is imported, not deleted at the source. */
  predicate DutyPossible(records: seq<Record>, r: Record) {
    var landlord := FindFrom(records, Landlord, r.landlordSource, 0);
    !Final(r.state) && r.plan.action == Responsibility ==> landlord.Some? && !records[landlord.value].deleted
  }

  predicate DutiesPossible(records: seq<Record>, order: seq<nat>)
    requires OrderFits(records, order)
  {
    forall x :: 0 <= x < |order| ==> DutyPossible(records, records[order[x]])
  }

  /** The state that carrying out the plan leads to. */
  predicate AsPlanned(r: Record, state: RecordState) {
    if Business(r.kind) && r.plan.action in {Create, Update, Reuse, Skip} then
      state == match r.plan.action case Create => Created case Update => Updated case Reuse => Reused case _ => Skipped
    else if r.kind == Staff && r.plan.action == Reuse then state == Reused
    else if r.plan.action == Responsibility then state == Created || state == Reused
    else state == Archived
  }

  // ---- one turn ----

  lemma {:induction false} FindSame(a: seq<Record>, b: seq<Record>, kind: EntityKind, source: int, from: nat)
    requires |a| == |b| && from <= |a|
    requires forall i :: 0 <= i < |a| ==> a[i].kind == b[i].kind && a[i].source == b[i].source
    ensures FindFrom(a, kind, source, from) == FindFrom(b, kind, source, from)
    decreases |a| - from
  {
    if from < |a| { FindSame(a, b, kind, source, from + 1); }
  }

  /** A record of the package that ranks before the current one and is not deleted has its object by now. */
  lemma DependencyThere(db: Db, b: nat, order: seq<nat>, token: nat, env: Env, kind: EntityKind, source: int)
    requires OnTrack(db, b, order, token, env) && order != [] && Business(kind)
    requires KindRank(kind) < KindRank(db.batches[b].records[order[0]].kind)
    requires var found := FindFrom(db.batches[b].records, kind, source, 0);
             found.Some? && !db.batches[b].records[found.value].deleted
    ensures Dependency(db.batches[b], kind, source).Some?
  {
    var records := db.batches[b].records;
    var j := FindFrom(records, kind, source, 0).value;
    assert forall y :: 0 <= y < |order| ==> KindRank(records[order[0]].kind) <= KindRank(records[order[y]].kind);
    assert j !in order;
    assert Named(records[j]);
  }

  /** The object that a record's turn saves, if any. */
  function SaveOf(db: Db, batch: Batch, r: Record): Option<Object> {
    if !Business(r.kind) then None
    else if r.plan.action == Create then Some(Made(batch, r))
    else if r.plan.target.None? || r.plan.target.value !in db.objects then None
    else if r.plan.action == Update then Some(Overwritten(batch, r, db.objects[r.plan.target.value]))
    else if r.plan.action in {Reuse, Skip} && r.kind == Landlord && !db.objects[r.plan.target.value].landlordRole
    then Some(WithRole(db.objects[r.plan.target.value]))
    else None
  }

  /** The id of that object: the planned one, or the next for a new one. */
  function SavedId(db: Db, r: Record): nat {
    if r.plan.action != Create && r.plan.target.Some? then r.plan.target.value else db.nextId
  }

  /** The save of a record's turn is accepted by the tables as they are; a new responsibility needs a landlord. */
  predicate TurnAccepted(db: Db, batch: Batch, r: Record) {
    var o := SaveOf(db, batch, r);
    && (o.Some? ==> Accepted(db.objects, SavedId(db, r), o.value))
    && (r.plan.action == Responsibility ==>
          var landlord := Dependency(batch, Landlord, r.landlordSource);
          && r.plan.target.Some? && landlord.Some?
          && ((batch.org, r.plan.target.value, landlord.value) in db.duties
              || IsLandlord(db.objects, batch.org, landlord.value)))
  }

  /** The turn of a record went as planned. */
  predicate Succeeds(db: Db, b: nat, i: nat, token: nat, env: Env)
    requires b < |db.batches| && i < |db.batches[b].records|
  {
    var ran := ExecuteRecord(db, b, i, token, env);
    && ran.Done? && b < |ran.db.batches| && i < |ran.db.batches[b].records|
    && (!Final(db.batches[b].records[i].state) ==>
          AsPlanned(db.batches[b].records[i], ran.db.batches[b].records[i].state))
  }

  lemma BusinessSucceeds(db: Db, b: nat, i: nat, token: nat, env: Env)
    requires Holds(db, b, token) && i < |db.batches[b].records| && UpToDate(db, b, i, env)
    requires var r := db.batches[b].records[i];
             && Business(r.kind) && r.plan.action in {Create, Update, Reuse, Skip} && !Final(r.state)
             && (r.kind == House && r.plan.action in {Create, Update} ==> BuildingOf(db.batches[b], r).Some?)
    ensures ExecuteRecord(db, b, i, token, env).Done? <==> TurnAccepted(db, db.batches[b], db.batches[b].records[i])
    ensures ExecuteRecord(db, b, i, token, env).Done? ==> Succeeds(db, b, i, token, env)
  {
    var r := db.batches[b].records[i];
    if r.plan.action == Create {
      CreateShape(db, b, i);
    } else {
      ExistingSucceeds(db, b, i);
    }
  }

  function WorkedState(action: Action): RecordState {
    match action case Update => Updated case Reuse => Reused case _ => Skipped
  }

  lemma ExistingSucceeds(db: Db, b: nat, i: nat)
    requires b < |db.batches| && i < |db.batches[b].records|
    requires var r := db.batches[b].records[i];
             && r.plan.action in {Update, Reuse, Skip} && r.plan.target.Some?
             && Available(db, r.kind, db.batches[b].org, r.plan.target.value)
             && r.plan.targetVersion == Some(db.objects[r.plan.target.value].version)
             && Business(r.kind)
             && (r.kind == House && r.plan.action == Update ==> BuildingOf(db.batches[b], r).Some?)
    ensures var r := db.batches[b].records[i];
            var ran := ExecuteExisting(db, b, i, r.plan.action, r.plan.target, r.plan.targetVersion);
            && (ran.Done? <==> TurnAccepted(db, db.batches[b], r))
            && (ran.Done? ==>
                  && b < |ran.db.batches| && i < |ran.db.batches[b].records|
                  && ran.db.batches[b].records[i].state == WorkedState(r.plan.action))
  {
  }

  lemma OtherSucceeds(db: Db, b: nat, i: nat, token: nat, env: Env)
    requires Holds(db, b, token) && i < |db.batches[b].records| && UpToDate(db, b, i, env)
    requires var r := db.batches[b].records[i];
             && !(Business(r.kind) && r.plan.action in {Create, Update, Reuse, Skip}) && !Final(r.state)
    ensures ExecuteRecord(db, b, i, token, env).Done? <==> TurnAccepted(db, db.batches[b], db.batches[b].records[i])
    ensures ExecuteRecord(db, b, i, token, env).Done? ==> Succeeds(db, b, i, token, env)
  {
    OtherShape(db, b, i, env);
  }

  /** The next record's turn succeeds, in the state its plan names, exactly when its save is accepted. */
  lemma TurnSucceeds(db: Db, b: nat, order: seq<nat>, token: nat, env: Env)
    requires OnTrack(db, b, order, token, env) && order != []
    ensures var batch, r := db.batches[b], db.batches[b].records[order[0]];
            ExecuteRecord(db, b, order[0], token, env).Done? <==> Final(r.state) || TurnAccepted(db, batch, r)
    ensures ExecuteRecord(db, b, order[0], token, env).Done? ==> Succeeds(db, b, order[0], token, env)
  {
    var i := order[0];
    var batch, r := db.batches[b], db.batches[b].records[i];
    if !Final(r.state) {
      assert UpToDate(db, b, i, env);
      if Business(r.kind) && r.plan.action in {Create, Update, Reuse, Skip} {
        if r.kind == House && r.plan.action in {Create, Update} && r.plan.building.None? {
          DependencyThere(db, b, order, token, env, Building, r.buildingSource);
        }
        BusinessSucceeds(db, b, i, token, env);
      } else {
        OtherSucceeds(db, b, i, token, env);
      }
    }
  }

  // ---- what a turn leaves ----

  /** Other sources keep their mapping, and objects other than a touched target stay as they are. */
  ghost predicate LeavesOthers(db: Db, next: Db, batch: Batch, r: Record) {
    && (forall id :: id != IdentityOf(batch, r) ==> Lookup(next.mappings, id) == Lookup(db.mappings, id))
    && (forall t :: t in db.objects ==>
          && t in next.objects && (next.objects[t] == db.objects[t] || (Touches(db, r) && r.plan.target == Some(t)))
          && next.objects[t].kind == db.objects[t].kind && next.objects[t].org == db.objects[t].org)
    && db.nextId <= next.nextId
  }

  lemma ExistingLeavesOthers(db: Db, b: nat, i: nat)
    requires b < |db.batches| && i < |db.batches[b].records| && WorksOnObject(db.batches[b].records[i])
    ensures var r := db.batches[b].records[i];
            var ran := ExecuteExisting(db, b, i, r.plan.action, r.plan.target, r.plan.targetVersion);
            ran.Done? ==> LeavesOthers(db, ran.db, db.batches[b], r)
  {
  }

  lemma CreateLeavesOthers(db: Db, b: nat, i: nat)
    requires IdsSound(db) && b < |db.batches| && i < |db.batches[b].records|
    ensures ExecuteCreate(db, b, i).Done? ==>
              LeavesOthers(db, ExecuteCreate(db, b, i).db, db.batches[b], db.batches[b].records[i])
  {
  }

  lemma OtherLeavesOthers(db: Db, b: nat, i: nat, env: Env)
    requires b < |db.batches| && i < |db.batches[b].records|
    ensures ExecuteOther(db, b, i, env).Done? ==>
              LeavesOthers(db, ExecuteOther(db, b, i, env).db, db.batches[b], db.batches[b].records[i])
  {
  }

  lemma TurnLeavesOthers(db: Db, b: nat, i: nat, token: nat, env: Env)
    requires IdsSound(db) && ExecuteRecord(db, b, i, token, env).Done?
    requires Final(db.batches[b].records[i].state) || UpToDate(db, b, i, env)
    ensures LeavesOthers(db, ExecuteRecord(db, b, i, token, env).db, db.batches[b], db.batches[b].records[i])
  {
    var r := db.batches[b].records[i];
    if !Final(r.state) {
      if !(Business(r.kind) && r.plan.action in {Create, Update, Reuse, Skip}) {
        OtherLeavesOthers(db, b, i, env);
      } else if r.plan.action == Create {
        CreateLeavesOthers(db, b, i);
      } else {
        ExistingLeavesOthers(db, b, i);
      }
    }
  }

  /** A plan stays up to date when its source's mapping and its object stay. */
  lemma UpToDateKept(db: Db, next: Db, b: nat, i: nat, env: Env)
    requires b < |db.batches| && i < |db.batches[b].records| && UpToDate(db, b, i, env)
    requires b < |next.batches| && SamePlans(db.batches[b], next.batches[b])
    requires next.batches[b].source == db.batches[b].source && db.nextId <= next.nextId
    requires forall t :: t in db.objects ==>
               && t in next.objects && next.objects[t].kind == db.objects[t].kind
               && next.objects[t].org == db.objects[t].org
    requires forall j :: 0 <= j < |db.batches[b].records| && Final(db.batches[b].records[j].state) ==>
               Final(next.batches[b].records[j].state)
    requires var id := IdentityOf(db.batches[b], db.batches[b].records[i]);
             Lookup(next.mappings, id) == Lookup(db.mappings, id)
    requires var r := db.batches[b].records[i];
             WorksOnObject(r) ==>
               r.plan.target.value in next.objects
               && next.objects[r.plan.target.value] == db.objects[r.plan.target.value]
    ensures UpToDate(next, b, i, env)
  {
    var batch, after, r := db.batches[b], next.batches[b], db.batches[b].records[i];
    assert SameSource(r, after.records[i]) && r.plan == after.records[i].plan;
    FindSame(batch.records, after.records, Building, r.buildingSource, 0);
    FindSame(batch.records, after.records, Landlord, r.landlordSource, 0);
    var found := FindFrom(batch.records, Building, r.buildingSource, 0);
    if found.Some? { assert SameSource(batch.records[found.value], after.records[found.value]); }
  }

  /** A successful turn makes its own record final and named, and touches no other record. */
  predicate OneTurn(db: Db, next: Db, b: nat, i: nat)
    requires b < |db.batches| && i < |db.batches[b].records|
  {
    && b < |next.batches| && SamePlans(db.batches[b], next.batches[b])
    && next.batches[b].source == db.batches[b].source && next.batches[b].token == db.batches[b].token
    && (forall j :: 0 <= j < |db.batches[b].records| && j != i ==>
          next.batches[b].records[j] == db.batches[b].records[j])
    && Final(next.batches[b].records[i].state) && Named(next.batches[b].records[i])
  }

  lemma NamedAfter(db: Db, b: nat, i: nat, token: nat, env: Env)
    requires ExecuteRecord(db, b, i, token, env).Done? && !Final(db.batches[b].records[i].state)
    requires Named(db.batches[b].records[i]) && UpToDate(db, b, i, env)
    ensures var next := ExecuteRecord(db, b, i, token, env).db;
            b < |next.batches| && i < |next.batches[b].records| && Named(next.batches[b].records[i])
  {
    ExecutionShape(db, b, i, token, env);
    var r := db.batches[b].records[i];
    if Business(r.kind) && r.plan.action in {Create, Update, Reuse, Skip} {
      CreateShape(db, b, i);
      ExistingShape(db, b, i, r.plan.action, r.plan.target, r.plan.targetVersion);
    }
  }

  lemma TargetsAfter(db: Db, b: nat, order: seq<nat>, token: nat, env: Env)
    requires OnTrack(db, b, order, token, env) && order != [] && ExecuteRecord(db, b, order[0], token, env).Done?
    ensures var next := ExecuteRecord(db, b, order[0], token, env).db;
            b < |next.batches| && TargetsKnown(next, next.batches[b].records)
  {
    var i := order[0];
    ExecutionShape(db, b, i, token, env);
    TurnLeavesOthers(db, b, i, token, env);
    if !Final(db.batches[b].records[i].state) { TargetAfter(db, b, i, token, env); }
  }

  lemma TargetAfter(db: Db, b: nat, i: nat, token: nat, env: Env)
    requires IdsSound(db) && ExecuteRecord(db, b, i, token, env).Done? && !Final(db.batches[b].records[i].state)
    requires UpToDate(db, b, i, env)
    requires var r := db.batches[b].records[i];
             Business(r.kind) && r.target.Some? ==> r.target.value < db.nextId
    ensures var next := ExecuteRecord(db, b, i, token, env).db;
            && b < |next.batches| && i < |next.batches[b].records|
            && var r := next.batches[b].records[i];
            Business(r.kind) && r.target.Some? ==> r.target.value < next.nextId
  {
    ExecutionShape(db, b, i, token, env);
  }

  lemma TurnIsOne(db: Db, b: nat, order: seq<nat>, token: nat, env: Env)
    requires OnTrack(db, b, order, token, env) && order != [] && ExecuteRecord(db, b, order[0], token, env).Done?
    ensures OneTurn(db, ExecuteRecord(db, b, order[0], token, env).db, b, order[0])
  {
    var i := order[0];
    assert Named(db.batches[b].records[i]);
    ExecutePlans(db, b, i, token, env);
    ExecutionShape(db, b, i, token, env);
    if !Final(db.batches[b].records[i].state) { NamedAfter(db, b, i, token, env); }
  }

  lemma OrderAfter(db: Db, next: Db, b: nat, order: seq<nat>)
    requires b < |db.batches| && order != [] && OrderFits(db.batches[b].records, order)
    requires Behind(db.batches[b].records, order)
    requires SourcesUnique(db.batches[b].records) && OneTurn(db, next, b, order[0])
    ensures var records := next.batches[b].records;
            OrderFits(records, order[1..]) && Behind(records, order[1..]) && SourcesUnique(records)
  {
    var before, records := db.batches[b].records, next.batches[b].records;
    forall j: nat | j < |records| && j !in order[1..] ensures Final(records[j].state) {
      if j != order[0] { assert j !in order; }
    }
    assert forall j :: 0 <= j < |records| ==> SameSource(before[j], records[j]);
    forall i, j | 0 <= i < j < |records|
      ensures !(records[i].kind == records[j].kind && records[i].source == records[j].source)
    {
      assert !(before[i].kind == before[j].kind && before[i].source == before[j].source);
    }
  }

  lemma SpoiledOnly(db: Db, next: Db, batch: Batch, r: Record, other: Record)
    requires LeavesOthers(db, next, batch, r) && WorksOnObject(other) && other.plan.target.Some?
    requires other.plan.target.value in db.objects
    requires !Final(r.state) && !Final(other.state) ==> !Spoils(db, r, other)
    requires Final(r.state) ==> next == db
    requires !Final(other.state)
    ensures other.plan.target.value in next.objects
    ensures next.objects[other.plan.target.value] == db.objects[other.plan.target.value]
  {
  }

  lemma AheadUpToDate(db: Db, b: nat, order: seq<nat>, token: nat, env: Env, x: nat)
    requires OnTrack(db, b, order, token, env) && 0 < x < |order| && Compatible(db, db.batches[b].records, order)
    requires ExecuteRecord(db, b, order[0], token, env).Done? && !Final(db.batches[b].records[order[x]].state)
    ensures var next := ExecuteRecord(db, b, order[0], token, env).db;
            && b < |next.batches| && order[x] < |next.batches[b].records| && UpToDate(next, b, order[x], env)
            && (WorksOnObject(db.batches[b].records[order[x]]) ==>
                  var t := db.batches[b].records[order[x]].plan.target.value;
                  t in next.objects && next.objects[t] == db.objects[t])
  {
    var next, batch := ExecuteRecord(db, b, order[0], token, env).db, db.batches[b];
    var first, r := batch.records[order[0]], batch.records[order[x]];
    TurnIsOne(db, b, order, token, env);
    TurnLeavesOthers(db, b, order[0], token, env);
    assert UpToDate(db, b, order[x], env);
    assert !(first.kind == r.kind && first.source == r.source) by {
      var low, high :=
        if order[0] < order[x] then order[0] else order[x], if order[0] < order[x] then order[x] else order[0];
      assert !(batch.records[low].kind == batch.records[high].kind
               && batch.records[low].source == batch.records[high].source);
    }
    if WorksOnObject(r) {
      assert !Spoils(db, batch.records[order[0]], batch.records[order[x]]);
      SpoiledOnly(db, next, batch, first, r);
    }
    UpToDateKept(db, next, b, order[x], env);
  }

  lemma TurnKeepsTrack(db: Db, b: nat, order: seq<nat>, token: nat, env: Env)
    requires OnTrack(db, b, order, token, env) && order != [] && Compatible(db, db.batches[b].records, order)
    requires ExecuteRecord(db, b, order[0], token, env).Done?
    ensures OnTrack(ExecuteRecord(db, b, order[0], token, env).db, b, order[1..], token, env)
  {
    var next, rest := ExecuteRecord(db, b, order[0], token, env).db, order[1..];
    TurnIsOne(db, b, order, token, env);
    TargetsAfter(db, b, order, token, env);
    OrderAfter(db, next, b, order);
    ExecuteIds(db, b, order[0], token, env);
    var before, records := db.batches[b].records, next.batches[b].records;
    forall j | 0 <= j < |records| ensures Named(records[j]) { assert Named(before[j]); }
    forall x | 0 <= x < |rest| ensures Final(records[rest[x]].state) || UpToDate(next, b, rest[x], env) {
      assert rest[x] == order[x + 1] && order[x + 1] != order[0];
      if !Final(before[order[x + 1]].state) { AheadUpToDate(db, b, order, token, env, x + 1); }
    }
  }

  lemma TurnKeepsCompatible(db: Db, b: nat, order: seq<nat>, token: nat, env: Env)
    requires OnTrack(db, b, order, token, env) && order != [] && Compatible(db, db.batches[b].records, order)
    requires ExecuteRecord(db, b, order[0], token, env).Done?
    requires OneTurn(db, ExecuteRecord(db, b, order[0], token, env).db, b, order[0])
    requires OrderFits(ExecuteRecord(db, b, order[0], token, env).db.batches[b].records, order[1..])
    ensures var next := ExecuteRecord(db, b, order[0], token, env).db;
            Compatible(next, next.batches[b].records, order[1..])
  {
    var next := ExecuteRecord(db, b, order[0], token, env).db;
    var records := next.batches[b].records;
    forall x, y | 0 < x < y < |order| ensures !Spoils(next, records[order[x]], records[order[y]]) {
      StillNoSpoil(db, b, order, token, env, x, y);
    }
    NoSpoilAhead(next, records, order);
  }

  lemma NoSpoilAhead(db: Db, records: seq<Record>, order: seq<nat>)
    requires order != [] && OrderFits(records, order[1..])
    requires forall x, y :: 0 < x < y < |order| && order[x] < |records| && order[y] < |records| ==>
               !Spoils(db, records[order[x]], records[order[y]])
    ensures Compatible(db, records, order[1..])
  {
    var rest := order[1..];
    forall x, y | 0 <= x < y < |rest| ensures !Spoils(db, records[rest[x]], records[rest[y]]) {
      assert rest[x] == order[x + 1] && rest[y] == order[y + 1];
    }
  }

  lemma StillNoSpoil(db: Db, b: nat, order: seq<nat>, token: nat, env: Env, x: nat, y: nat)
    requires OnTrack(db, b, order, token, env) && 0 < x < y < |order| && Compatible(db, db.batches[b].records, order)
    requires ExecuteRecord(db, b, order[0], token, env).Done?
    requires OneTurn(db, ExecuteRecord(db, b, order[0], token, env).db, b, order[0])
    ensures var next := ExecuteRecord(db, b, order[0], token, env).db;
            !Spoils(next, next.batches[b].records[order[x]], next.batches[b].records[order[y]])
  {
    var before := db.batches[b].records;
    assert !Spoils(db, before[order[x]], before[order[y]]);
    if !Final(before[order[x]].state) { AheadUpToDate(db, b, order, token, env, x); }
  }

  // ---- the whole loop ----

  lemma TurnFrame(db: Db, b: nat, i: nat, token: nat, env: Env)
    requires Holds(db, b, token) && i < |db.batches[b].records|
    ensures var next := TurnOf(db, b, i, token, env);
            && Holds(next, b, token) && SamePlans(db.batches[b], next.batches[b])
            && forall j :: 0 <= j < |db.batches[b].records| && j != i ==>
                 next.batches[b].records[j] == db.batches[b].records[j]
  {
    if ExecuteRecord(db, b, i, token, env).Done? {
      ExecutePlans(db, b, i, token, env);
      ExecutionShape(db, b, i, token, env);
    }
  }

  /** Records that are not listed are not touched. */
  lemma {:induction false} WorkFrame(db: Db, b: nat, order: seq<nat>, token: nat, env: Env)
    requires Holds(db, b, token) && forall x :: 0 <= x < |order| ==> order[x] < |db.batches[b].records|
    ensures var done := WorkAll(db, b, order, token, env);
            && Holds(done, b, token) && SamePlans(db.batches[b], done.batches[b])
            && forall j: nat :: j < |db.batches[b].records| && j !in order ==>
                 done.batches[b].records[j] == db.batches[b].records[j]
    decreases |order|
  {
    if order != [] {
      TurnFrame(db, b, order[0], token, env);
      WorkFrame(TurnOf(db, b, order[0], token, env), b, order[1..], token, env);
    }
  }

  // ---- what stands in the way ----

  lemma {:induction false} WorkConcat(db: Db, b: nat, first: seq<nat>, later: seq<nat>, token: nat, env: Env)
    ensures WorkAll(db, b, first + later, token, env)
              == WorkAll(WorkAll(db, b, first, token, env), b, later, token, env)
    decreases |first|
  {
    if first == [] {
      assert first + later == later;
    } else {
      assert (first + later)[1..] == first[1..] + later;
      WorkConcat(TurnOf(db, b, first[0], token, env), b, first[1..], later, token, env);
    }
  }

  lemma TurnVersions(db: Db, b: nat, i: nat, token: nat, env: Env)
    requires IdsSound(db) && Holds(db, b, token)
    ensures IdsSound(TurnOf(db, b, i, token, env)) && ChangesStamped(db, TurnOf(db, b, i, token, env))
  {
    assert PlansPositive(db.batches[b]);
    if ExecuteRecord(db, b, i, token, env).Done? {
      ExecuteIds(db, b, i, token, env);
      ExecuteVersions(db, b, i, token, env);
    }
  }

  lemma StampedTransitive(a: Db, b: Db, c: Db)
    requires ChangesStamped(a, b) && ChangesStamped(b, c)
    ensures ChangesStamped(a, c)
  {
    forall id | id < a.nextId && id in c.objects
      ensures && id in a.objects && a.objects[id].version <= c.objects[id].version
              && (a.objects[id].version == c.objects[id].version ==> c.objects[id] == a.objects[id])
    {
      assert id in b.objects;
    }
  }

  lemma {:induction false} WorkVersions(db: Db, b: nat, order: seq<nat>, token: nat, env: Env)
    requires IdsSound(db) && Holds(db, b, token) && forall x :: 0 <= x < |order| ==> order[x] < |db.batches[b].records|
    ensures var done := WorkAll(db, b, order, token, env); IdsSound(done) && ChangesStamped(db, done)
    decreases |order|
  {
    if order != [] {
      TurnFrame(db, b, order[0], token, env);
      TurnVersions(db, b, order[0], token, env);
      var next := TurnOf(db, b, order[0], token, env);
      WorkVersions(next, b, order[1..], token, env);
      StampedTransitive(db, next, WorkAll(next, b, order[1..], token, env));
    }
  }

  /** A record whose turn fails stays unfinished. */
  lemma FailedTurnStays(db: Db, b: nat, i: nat, rest: seq<nat>, token: nat, env: Env)
    requires Holds(db, b, token) && i < |db.batches[b].records| && i !in rest
    requires forall x :: 0 <= x < |rest| ==> rest[x] < |db.batches[b].records|
    requires !Final(db.batches[b].records[i].state) && !ExecuteRecord(db, b, i, token, env).Done?
    ensures var done := WorkAll(TurnOf(db, b, i, token, env), b, rest, token, env);
            b < |done.batches| && i < |done.batches[b].records| && !Final(done.batches[b].records[i].state)
  {
    TurnFrame(db, b, i, token, env);
    WorkFrame(TurnOf(db, b, i, token, env), b, rest, token, env);
  }

  lemma TurnKeepsDeleted(db: Db, b: nat, i: nat, token: nat, env: Env, l: nat)
    requires Holds(db, b, token) && i < |db.batches[b].records| && l < |db.batches[b].records|
    requires var r := db.batches[b].records[l]; Business(r.kind) && r.deleted && Named(r)
    ensures var next := TurnOf(db, b, i, token, env);
            b < |next.batches| && l < |next.batches[b].records| && Named(next.batches[b].records[l])
            && SameSource(db.batches[b].records[l], next.batches[b].records[l])
  {
    TurnFrame(db, b, i, token, env);
    if i == l && ExecuteRecord(db, b, i, token, env).Done? { ExecutionShape(db, b, i, token, env); }
  }

  lemma {:induction false} WorkKeepsDeleted(db: Db, b: nat, order: seq<nat>, token: nat, env: Env, l: nat)
    requires Holds(db, b, token) && forall x :: 0 <= x < |order| ==> order[x] < |db.batches[b].records|
    requires l < |db.batches[b].records| && var r := db.batches[b].records[l]; Business(r.kind) && r.deleted && Named(r)
    ensures var done := WorkAll(db, b, order, token, env);
            b < |done.batches| && l < |done.batches[b].records|
            && Named(done.batches[b].records[l])
            && done.batches[b].records[l].deleted
    decreases |order|
  {
    if order != [] {
      TurnFrame(db, b, order[0], token, env);
      TurnKeepsDeleted(db, b, order[0], token, env, l);
      WorkKeepsDeleted(TurnOf(db, b, order[0], token, env), b, order[1..], token, env, l);
    }
  }

  /** The tables when the record at position x has its turn; the record itself is as it was. */
  lemma Reached(db: Db, b: nat, order: seq<nat>, token: nat, env: Env, x: nat)
    requires Holds(db, b, token) && OrderFits(db.batches[b].records, order) && x < |order|
    ensures var reached := WorkAll(db, b, order[..x], token, env);
            && Holds(reached, b, token) && SamePlans(db.batches[b], reached.batches[b])
            && reached.batches[b].records[order[x]] == db.batches[b].records[order[x]]
            && WorkAll(db, b, order, token, env)
               == WorkAll(TurnOf(reached, b, order[x], token, env), b, order[x + 1..], token, env)
            && order[x] !in order[x + 1..]
  {
    WorkFrame(db, b, order[..x], token, env);
    assert order == order[..x] + order[x..] && order[x..][1..] == order[x + 1..];
    WorkConcat(db, b, order[..x], order[x..], token, env);
  }

  /** When its turn fails, the record at position x ends unfinished. */
  lemma FailsInTurn(db: Db, b: nat, order: seq<nat>, token: nat, env: Env, x: nat)
    requires Holds(db, b, token) && OrderFits(db.batches[b].records, order) && x < |order|
    requires !Final(db.batches[b].records[order[x]].state)
    requires !ExecuteRecord(WorkAll(db, b, order[..x], token, env), b, order[x], token, env).Done?
    ensures var done := WorkAll(db, b, order, token, env);
            b < |done.batches| && order[x] < |done.batches[b].records|
            && !Final(done.batches[b].records[order[x]].state)
  {
    Reached(db, b, order, token, env, x);
    FailedTurnStays(WorkAll(db, b, order[..x], token, env), b, order[x], order[x + 1..], token, env);
  }

  lemma DutyRaises(db: Db, b: nat, i: nat, token: nat, env: Env)
    requires Holds(db, b, token) && i < |db.batches[b].records|
    requires var records, r := db.batches[b].records, db.batches[b].records[i];
             && !Final(r.state) && !Business(r.kind) && r.kind != Staff && r.plan.action == Responsibility
             && var l := FindFrom(records, Landlord, r.landlordSource, 0);
                  l.Some? && records[l.value].deleted && Named(records[l.value])
    ensures !ExecuteRecord(db, b, i, token, env).Done?
  {
  }

  /** A responsibility for a landlord that is deleted at the source always fails. */
  lemma DutyFails(db: Db, b: nat, order: seq<nat>, token: nat, env: Env, x: nat)
    requires OnTrack(db, b, order, token, env) && x < |order|
    requires !DutyPossible(db.batches[b].records, db.batches[b].records[order[x]])
    ensures var done := WorkAll(db, b, order, token, env);
            b < |done.batches| && order[x] < |done.batches[b].records|
            && !Final(done.batches[b].records[order[x]].state)
  {
    var records, i := db.batches[b].records, order[x];
    assert UpToDate(db, b, i, env);
    var l := FindFrom(records, Landlord, records[i].landlordSource, 0).value;
    assert Named(records[l]);
    Reached(db, b, order, token, env, x);
    WorkKeepsDeleted(db, b, order[..x], token, env, l);
    var reached := WorkAll(db, b, order[..x], token, env);
    FindSame(records, reached.batches[b].records, Landlord, records[i].landlordSource, 0);
    DutyRaises(reached, b, i, token, env);
    FailsInTurn(db, b, order, token, env, x);
  }

  lemma SpoilingTurn(start: Db, db: Db, b: nat, i: nat, token: nat, env: Env)
    requires IdsSound(start) && ChangesStamped(start, db) && ExecuteRecord(db, b, i, token, env).Done?
    requires var r := db.batches[b].records[i];
             && !Final(r.state) && Touches(start, r)
             && r.plan.targetVersion == Some(start.objects[r.plan.target.value].version)
    ensures var r := db.batches[b].records[i];
            var next := ExecuteRecord(db, b, i, token, env).db;
            r.plan.target.value in next.objects
            && next.objects[r.plan.target.value].version > start.objects[r.plan.target.value].version
  {
  }

  lemma SpoiledTurn(start: Db, db: Db, b: nat, i: nat, token: nat, env: Env)
    requires Holds(db, b, token) && i < |db.batches[b].records|
    requires var r := db.batches[b].records[i];
             && !Final(r.state) && WorksOnObject(r) && r.plan.target.Some? && r.plan.target.value in start.objects
             && r.plan.targetVersion == Some(start.objects[r.plan.target.value].version)
             && (r.plan.target.value in db.objects ==>
                   db.objects[r.plan.target.value].version > start.objects[r.plan.target.value].version)
    ensures !ExecuteRecord(db, b, i, token, env).Done?
  {
  }

  /** Of two records of which the first changes what the second was planned to work on, one ends unfinished. */
  lemma SpoiledFails(db: Db, b: nat, order: seq<nat>, token: nat, env: Env, x: nat, y: nat)
    requires OnTrack(db, b, order, token, env) && x < y < |order|
    requires Spoils(db, db.batches[b].records[order[x]], db.batches[b].records[order[y]])
    ensures var done := WorkAll(db, b, order, token, env);
            && b < |done.batches| && order[x] < |done.batches[b].records| && order[y] < |done.batches[b].records|
            && (!Final(done.batches[b].records[order[x]].state) || !Final(done.batches[b].records[order[y]].state))
  {
    var i := order[x];
    assert UpToDate(db, b, i, env) && UpToDate(db, b, order[y], env);
    Reached(db, b, order, token, env, x);
    Reached(db, b, order, token, env, y);
    WorkFrame(db, b, order, token, env);
    var reached := WorkAll(db, b, order[..x], token, env);
    WorkVersions(db, b, order[..x], token, env);
    if ExecuteRecord(reached, b, i, token, env).Done? {
      SpoilingTurn(db, reached, b, i, token, env);
      SpoiledLater(db, b, order, token, env, x, y);
      SpoiledTurn(db, WorkAll(db, b, order[..y], token, env), b, order[y], token, env);
      FailsInTurn(db, b, order, token, env, y);
    } else {
      FailsInTurn(db, b, order, token, env, x);
    }
  }

  /** The change is still there when the second record has its turn. */
  lemma SpoiledLater(db: Db, b: nat, order: seq<nat>, token: nat, env: Env, x: nat, y: nat)
    requires Holds(db, b, token) && IdsSound(db) && OrderFits(db.batches[b].records, order) && x < y < |order|
    requires var next := TurnOf(WorkAll(db, b, order[..x], token, env), b, order[x], token, env);
             var t := db.batches[b].records[order[x]].plan.target;
             t.Some? && t.value in db.objects && t.value in next.objects
             && next.objects[t.value].version > db.objects[t.value].version
    ensures var reached, t := WorkAll(db, b, order[..y], token, env), db.batches[b].records[order[x]].plan.target.value;
            t in reached.objects ==> reached.objects[t].version > db.objects[t].version
  {
    var first := order[..y];
    assert first[..x] == order[..x] && first[x] == order[x];
    Reached(db, b, first, token, env, x);
    var before := WorkAll(db, b, order[..x], token, env);
    WorkVersions(db, b, order[..x], token, env);
    TurnFrame(before, b, order[x], token, env);
    TurnVersions(before, b, order[x], token, env);
    WorkVersions(TurnOf(before, b, order[x], token, env), b, first[x + 1..], token, env);
  }

  lemma WorkOrderFits(records: seq<Record>)
    ensures OrderFits(records, WorkOrder(records))
  {
    OrderRanked(seq(|records|, i requires 0 <= i < |records| => Key(KindRank(records[i].kind), 0, 0)));
  }
}
