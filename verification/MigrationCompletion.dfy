/** Exactly which imports finish every record when nobody interferes. */
module MigrationCompletion {
  import opened Wrappers
  import opened Migration
  import opened MigrationSteps
  import opened MigrationProofs
  import opened MigrationRuns
  import opened MigrationLinks
  import opened MigrationOutcome

  // ---- what the saves of an import need, read off the plans and the tables at its start ----

  /** Where a house will stand. */
  function PlaceOf(batch: Batch, r: Record): Place {
    var building := BuildingOf(batch, r);
    if building.Some? then Standing(building.value) else FromSource(r.buildingSource)
  }

  /** The unique key of what a record's turn saves. */
  function SavedKey(batch: Batch, r: Record, o: Object): UniqueKey {
    if o.kind == House then RoomKey(PlaceOf(batch, r), o.values.name) else KeyOf(Tidied(o))
  }

  /** A record still to come updates the object, which gets the planned key in place of its own. */
  predicate Moves(r: Record, k: nat) {
    !Final(r.state) && Business(r.kind) && r.plan.action == Update && r.plan.target == Some(k)
  }

  /** A record still to come makes the contact a landlord. */
  predicate Promotes(r: Record, l: nat) {
    !Final(r.state) && r.kind == Landlord && WorksOnObject(r) && r.plan.target == Some(l)
  }

  /** A record still to come creates or updates an object under this key. */
  predicate Occupies(db: Db, batch: Batch, r: Record, key: UniqueKey) {
    && !Final(r.state) && r.plan.action in {Create, Update}
    && var o := SaveOf(db, batch, r);
    o.Some? && SavedKey(batch, r, o.value) == key
  }

  predicate Known(batch: Batch, order: seq<nat>, x: nat) {
    x < |order| && forall y :: 0 <= y < |order| ==> order[y] < |batch.records|
  }

  /** The contact is a landlord of the organization, or becomes one before this turn. */
  predicate LandlordComes(db: Db, batch: Batch, order: seq<nat>, x: nat, l: nat)
    requires Known(batch, order, x)
  {
    && l in db.objects && db.objects[l].kind == Landlord && db.objects[l].org == batch.org
    && (db.objects[l].landlordRole || exists y :: 0 <= y < x && Promotes(batch.records[order[y]], l))
  }

  /** A house's building is there, or is itself imported; its landlord is one by then. */
  predicate LinksCome(db: Db, batch: Batch, order: seq<nat>, x: nat, o: Object)
    requires Known(batch, order, x)
  {
    o.kind == House ==>
      && (o.building.Some? ==> IsBuilding(db.objects, o.building.value))
      && (o.landlord.Some? ==> LandlordComes(db, batch, order, x, o.landlord.value))
  }

  function OwnObject(r: Record): Option<nat> {
    if r.plan.action == Create then None else r.plan.target
  }

  /** Any other object with the key gets another one before this turn, and no earlier record takes the key. */
  predicate KeyComesFree(db: Db, batch: Batch, order: seq<nat>, x: nat, key: UniqueKey)
    requires Known(batch, order, x)
  {
    && (forall k :: k in db.objects && OwnObject(batch.records[order[x]]) != Some(k) && KeyOf(db.objects[k]) == key
                    ==> exists y :: 0 <= y < x && Moves(batch.records[order[y]], k))
    && forall y :: 0 <= y < x ==> !Occupies(db, batch, batch.records[order[y]], key)
  }

  /** A finished landlord record's object is still there and a landlord by then, or the responsibility exists. */
  predicate DutyComes(db: Db, batch: Batch, order: seq<nat>, x: nat)
    requires Known(batch, order, x)
  {
    var r := batch.records[order[x]];
    var found := FindFrom(batch.records, Landlord, r.landlordSource, 0);
    r.plan.action == Responsibility && r.plan.target.Some? && found.Some? && Final(batch.records[found.value].state)
    && batch.records[found.value].target.Some? ==>
      var landlord := batch.records[found.value].target.value;
      (batch.org, r.plan.target.value, landlord) in db.duties || LandlordComes(db, batch, order, x, landlord)
  }

  /** What the turn of a record saves will be accepted. */
  predicate SavePasses(db: Db, batch: Batch, order: seq<nat>, x: nat)
    requires Known(batch, order, x)
  {
    var r := batch.records[order[x]];
    var o := SaveOf(db, batch, r);
    !Final(r.state) ==>
      && (o.Some? ==>
            && FieldsPass(o.value) && LinksCome(db, batch, order, x, o.value)
            && KeyComesFree(db, batch, order, x, SavedKey(batch, r, o.value)))
      && DutyComes(db, batch, order, x)
  }

  predicate SavesPass(db: Db, batch: Batch, order: seq<nat>)
    requires OrderFits(batch.records, order)
  {
    forall x :: 0 <= x < |order| ==> SavePasses(db, batch, order, x)
  }

  // ---- the turn that is next ----

  lemma HeadSave(db: Db, b: nat, order: seq<nat>, token: nat, env: Env)
    requires OnTrack(db, b, order, token, env) && order != []
    requires var r := db.batches[b].records[order[0]]; Business(r.kind) && !Final(r.state)
    ensures var batch, r := db.batches[b], db.batches[b].records[order[0]];
            TurnAccepted(db, batch, r) <==> SavePasses(db, batch, order, 0)
  {
    var batch, r := db.batches[b], db.batches[b].records[order[0]];
    assert UpToDate(db, b, order[0], env);
    if r.kind == House && r.plan.action in {Create, Update} && r.plan.building.None? {
      DependencyThere(db, b, order, token, env, Building, r.buildingSource);
    }
    var o := SaveOf(db, batch, r);
    if o.Some? {
      HeadLinks(db, batch, order, o.value);
      HeadKey(db, batch, order, SavedId(db, r), SavedKey(batch, r, o.value));
      assert SavedKey(batch, r, o.value) == KeyOf(Tidied(o.value));
    }
  }

  lemma HeadLinks(db: Db, batch: Batch, order: seq<nat>, o: Object)
    requires Known(batch, order, 0) && o.org == batch.org && (o.kind == House ==> o.building.Some?)
    ensures LinksPass(db.objects, o) <==> LinksCome(db, batch, order, 0, o)
  {
  }

  lemma HeadKey(db: Db, batch: Batch, order: seq<nat>, id: nat, key: UniqueKey)
    requires Known(batch, order, 0) && IdsSound(db)
    requires var own := OwnObject(batch.records[order[0]]); if own.Some? then own.value == id else id == db.nextId
    ensures KeyTaken(db.objects, id, key) <==> !KeyComesFree(db, batch, order, 0, key)
  {
    if !KeyComesFree(db, batch, order, 0, key) {
      var k :| k in db.objects && OwnObject(batch.records[order[0]]) != Some(k) && KeyOf(db.objects[k]) == key;
      assert k != id;
    }
  }

  lemma HeadDuty(db: Db, b: nat, order: seq<nat>, token: nat, env: Env)
    requires OnTrack(db, b, order, token, env) && order != []
    requires var r := db.batches[b].records[order[0]]; !Business(r.kind) && !Final(r.state)
    ensures var batch, r := db.batches[b], db.batches[b].records[order[0]];
            TurnAccepted(db, batch, r) <==> DutyPossible(batch.records, r) && SavePasses(db, batch, order, 0)
  {
    var batch, r := db.batches[b], db.batches[b].records[order[0]];
    assert UpToDate(db, b, order[0], env);
    if r.plan.action == Responsibility {
      var found := FindFrom(batch.records, Landlord, r.landlordSource, 0);
      assert Named(batch.records[found.value]);
      if !batch.records[found.value].deleted {
        DependencyThere(db, b, order, token, env, Landlord, r.landlordSource);
      }
    }
  }

  /** The next turn succeeds exactly when its own condition holds. */
  lemma HeadSucceeds(db: Db, b: nat, order: seq<nat>, token: nat, env: Env)
    requires OnTrack(db, b, order, token, env) && order != []
    ensures var batch, r := db.batches[b], db.batches[b].records[order[0]];
            ExecuteRecord(db, b, order[0], token, env).Done? <==>
              DutyPossible(batch.records, r) && SavePasses(db, batch, order, 0)
  {
    var r := db.batches[b].records[order[0]];
    TurnSucceeds(db, b, order, token, env);
    if !Final(r.state) {
      assert UpToDate(db, b, order[0], env);
      if Business(r.kind) { HeadSave(db, b, order, token, env); } else { HeadDuty(db, b, order, token, env); }
    }
  }

  // ---- what a turn changes for the records after it ----

  /** The objects after a record's turn. */
  function ObjectsAfter(db: Db, batch: Batch, r: Record): map<nat, Object> {
    var o := SaveOf(db, batch, r);
    if Final(r.state) || o.None? then db.objects
    else if r.plan.action == Create then db.objects[db.nextId := Tidied(o.value)]
    else if r.plan.target.None? then db.objects
    else db.objects[r.plan.target.value := if r.plan.action == Update then Tidied(o.value) else o.value]
  }

  /** What the record became. */
  predicate Reaches(db: Db, r: Record, after: Record) {
    && (Final(r.state) ==> after == r)
    && (Business(r.kind) && !Final(r.state) && r.plan.action in {Create, Update, Reuse, Skip} ==>
          after.target == if r.plan.action == Create then Some(db.nextId) else r.plan.target)
  }

  predicate DutiesAfterTurn(db: Db, next: Db) {
    && (forall duty :: duty in db.duties ==> duty in next.duties)
    && (forall duty :: duty in next.duties && duty !in db.duties ==> IsLandlord(db.objects, duty.0, duty.2))
  }

  /** Everything about a successful turn that the conditions of later records depend on. */
  predicate Stepped(db: Db, next: Db, b: nat, i: nat) {
    && b < |db.batches| && i < |db.batches[b].records| && OneTurn(db, next, b, i) && DutiesAfterTurn(db, next)
    && next.objects == ObjectsAfter(db, db.batches[b], db.batches[b].records[i])
    && Reaches(db, db.batches[b].records[i], next.batches[b].records[i])
  }

  lemma BusinessSteps(db: Db, b: nat, i: nat, token: nat, env: Env)
    requires ExecuteRecord(db, b, i, token, env).Done? && UpToDate(db, b, i, env)
    requires var r := db.batches[b].records[i];
             Business(r.kind) && !Final(r.state) && r.plan.action in {Create, Update, Reuse, Skip}
    ensures var next := ExecuteRecord(db, b, i, token, env).db;
            && b < |next.batches| && i < |next.batches[b].records|
            && next.objects == ObjectsAfter(db, db.batches[b], db.batches[b].records[i])
            && Reaches(db, db.batches[b].records[i], next.batches[b].records[i]) && next.duties == db.duties
  {
    CreateShape(db, b, i);
    var r := db.batches[b].records[i];
    ExistingShape(db, b, i, r.plan.action, r.plan.target, r.plan.targetVersion);
    ExecutionShape(db, b, i, token, env);
  }

  lemma OtherSteps(db: Db, b: nat, i: nat, token: nat, env: Env)
    requires ExecuteRecord(db, b, i, token, env).Done? && UpToDate(db, b, i, env)
    requires var r := db.batches[b].records[i];
             !Final(r.state) && !(Business(r.kind) && r.plan.action in {Create, Update, Reuse, Skip})
    ensures var next := ExecuteRecord(db, b, i, token, env).db;
            && b < |next.batches| && i < |next.batches[b].records| && next.objects == db.objects
            && SaveOf(db, db.batches[b], db.batches[b].records[i]).None? && DutiesAfterTurn(db, next)
  {
    ExecutionShape(db, b, i, token, env);
  }

  lemma TurnSteps(db: Db, b: nat, order: seq<nat>, token: nat, env: Env)
    requires OnTrack(db, b, order, token, env) && order != [] && ExecuteRecord(db, b, order[0], token, env).Done?
    ensures Stepped(db, ExecuteRecord(db, b, order[0], token, env).db, b, order[0])
  {
    var r := db.batches[b].records[order[0]];
    TurnIsOne(db, b, order, token, env);
    ExecutionShape(db, b, order[0], token, env);
    if !Final(r.state) {
      assert UpToDate(db, b, order[0], env);
      if Business(r.kind) && r.plan.action in {Create, Update, Reuse, Skip} {
        BusinessSteps(db, b, order[0], token, env);
      } else {
        OtherSteps(db, b, order[0], token, env);
      }
    }
  }

  /** The loop is on track, its plans are compatible, and the next turn has led to these tables. */
  predicate Onward(db: Db, next: Db, b: nat, order: seq<nat>, token: nat, env: Env) {
    && OnTrack(db, b, order, token, env) && order != [] && Compatible(db, db.batches[b].records, order)
    && Stepped(db, next, b, order[0])
  }

  predicate Builds(r: Record) {
    !Final(r.state) && r.kind == Building && r.plan.action == Create
  }

  /** A house of the building that was just created stands in it from now on. */
  function Moved(db: Db, first: Record, place: Place): Place {
    if Builds(first) && place == FromSource(first.source) then Standing(db.nextId) else place
  }

  lemma PlaceAhead(db: Db, next: Db, b: nat, order: seq<nat>, token: nat, env: Env, x: nat)
    requires Onward(db, next, b, order, token, env) && 0 < x < |order|
    requires var r := db.batches[b].records[order[x]];
             !Final(r.state) && r.kind == House && r.plan.action in {Create, Update}
    ensures var batch, after, r := db.batches[b], next.batches[b], db.batches[b].records[order[x]];
            && PlaceOf(batch, r) != Standing(db.nextId)
            && PlaceOf(after, r) == Moved(db, batch.records[order[0]], PlaceOf(batch, r))
            && (BuildingOf(batch, r).Some? ==> BuildingOf(after, r) == BuildingOf(batch, r))
            && (BuildingOf(batch, r).None? && BuildingOf(after, r).Some? ==>
                  Builds(batch.records[order[0]]) && BuildingOf(after, r) == Some(db.nextId))
  {
    var batch, after, r := db.batches[b], next.batches[b], db.batches[b].records[order[x]];
    assert UpToDate(db, b, order[x], env);
    if r.plan.building.None? {
      var i, j := order[0], FindFrom(batch.records, Building, r.buildingSource, 0).value;
      FindSame(batch.records, after.records, Building, r.buildingSource, 0);
      assert Named(batch.records[j]);
      if j == i {
        assert Reaches(db, batch.records[i], after.records[i]);
      } else {
        assert after.records[j] == batch.records[j];
        assert !(batch.records[i].kind == Building && batch.records[i].source == r.buildingSource) by {
          var low, high := if i < j then i else j, if i < j then j else i;
          assert !(batch.records[low].kind == batch.records[high].kind
                   && batch.records[low].source == batch.records[high].source);
        }
      }
    }
  }

  /** What a turn saves stays the same while other records have theirs, but for a building that is there by now. */
  lemma SaveAhead(db: Db, next: Db, b: nat, order: seq<nat>, token: nat, env: Env, x: nat)
    requires Onward(db, next, b, order, token, env) && 0 < x < |order|
    requires !Final(db.batches[b].records[order[x]].state)
    ensures var batch, after, r := db.batches[b], next.batches[b], db.batches[b].records[order[x]];
            var (o, later) := (SaveOf(db, batch, r), SaveOf(next, after, r));
            && (o.Some? <==> later.Some?)
            && (o.Some? ==>
                  && later.value == o.value.(building := later.value.building) && o.value.kind == r.kind
                  && o.value.org == batch.org && (r.kind == House ==> r.plan.action in {Create, Update})
                  && (r.kind == House ==>
                        o.value.building == BuildingOf(batch, r) && later.value.building == BuildingOf(after, r))
                  && (r.kind != House ==> later.value == o.value))
  {
    var batch, r := db.batches[b], db.batches[b].records[order[x]];
    assert UpToDate(db, b, order[x], env);
    if WorksOnObject(r) { TargetAhead(db, next, b, order, token, env, x); }
  }

  lemma TargetAhead(db: Db, next: Db, b: nat, order: seq<nat>, token: nat, env: Env, x: nat)
    requires Onward(db, next, b, order, token, env) && 0 < x < |order|
    requires var r := db.batches[b].records[order[x]]; !Final(r.state) && WorksOnObject(r)
    ensures var t := db.batches[b].records[order[x]].plan.target;
            && t.Some? && t.value in db.objects && t.value in next.objects && t.value != db.nextId
            && next.objects[t.value] == db.objects[t.value]
            && !Moves(db.batches[b].records[order[0]], t.value)
  {
    var records := db.batches[b].records;
    assert UpToDate(db, b, order[x], env) && (Final(records[order[0]].state) || UpToDate(db, b, order[0], env));
    assert !Spoils(db, records[order[0]], records[order[x]]);
  }

  lemma RoleAfter(db: Db, next: Db, b: nat, order: seq<nat>, token: nat, env: Env, l: nat)
    requires Onward(db, next, b, order, token, env) && l < db.nextId
    ensures l in db.objects <==> l in next.objects
    ensures l in db.objects ==>
              && next.objects[l].kind == db.objects[l].kind && next.objects[l].org == db.objects[l].org
              && (db.objects[l].kind == Landlord ==>
                    (next.objects[l].landlordRole <==>
                       db.objects[l].landlordRole || Promotes(db.batches[b].records[order[0]], l)))
  {
    assert Final(db.batches[b].records[order[0]].state) || UpToDate(db, b, order[0], env);
  }

  /** Records are promoting as before, when the first has had its turn. */
  lemma PromotesAhead(batch: Batch, after: Batch, order: seq<nat>, x: nat, l: nat)
    requires 0 < x < |order| && Known(batch, order, x) && Known(after, order[1..], x - 1)
    requires forall y :: 0 < y < |order| ==> after.records[order[y]] == batch.records[order[y]]
    ensures (exists y :: 0 <= y < x && Promotes(batch.records[order[y]], l))
            <==> (Promotes(batch.records[order[0]], l)
                  || exists y :: 0 <= y < x - 1 && Promotes(after.records[order[1..][y]], l))
  {
    var rest := order[1..];
    assert forall y :: 0 <= y < |rest| ==> rest[y] == order[y + 1];
    if y :| 0 <= y < x && Promotes(batch.records[order[y]], l) && y > 0 {
      assert Promotes(after.records[rest[y - 1]], l);
    }
    if y :| 0 <= y < x - 1 && Promotes(after.records[rest[y]], l) {
      assert Promotes(batch.records[order[y + 1]], l);
    }
  }

  lemma LandlordAhead(db: Db, next: Db, b: nat, order: seq<nat>, token: nat, env: Env, x: nat, l: nat)
    requires Onward(db, next, b, order, token, env) && 0 < x < |order| && l < db.nextId
    ensures Known(db.batches[b], order, x) && Known(next.batches[b], order[1..], x - 1)
    ensures LandlordComes(db, db.batches[b], order, x, l)
            <==> LandlordComes(next, next.batches[b], order[1..], x - 1, l)
  {
    RoleAfter(db, next, b, order, token, env, l);
    PromotesAhead(db.batches[b], next.batches[b], order, x, l);
  }

  /** No object that is there stands in a place still to come. */
  predicate PlaceThere(db: Db, key: UniqueKey) {
    key.RoomKey? ==> key.place.Nowhere? || (key.place.Standing? && key.place.building < db.nextId)
  }

  function MovedKey(db: Db, first: Record, key: UniqueKey): UniqueKey {
    if key.RoomKey? then RoomKey(Moved(db, first, key.place), key.room) else key
  }

  /** Whom a key belongs to does not change when houses move from the source of their building to the building. */
  lemma MovedApart(db: Db, first: Record, a: UniqueKey, key: UniqueKey)
    requires PlaceThere(db, a) || (a.RoomKey? && a.place != Standing(db.nextId))
    requires key.RoomKey? ==> key.place != Standing(db.nextId)
    ensures MovedKey(db, first, a) == MovedKey(db, first, key) <==> a == key
    ensures PlaceThere(db, a) ==> MovedKey(db, first, a) == a
  {
  }

  lemma KeyAhead(db: Db, next: Db, b: nat, order: seq<nat>, token: nat, env: Env, x: nat)
    requires Onward(db, next, b, order, token, env) && 0 < x < |order|
    requires !Final(db.batches[b].records[order[x]].state)
    ensures var batch, after, r := db.batches[b], next.batches[b], db.batches[b].records[order[x]];
            var (o, later) := (SaveOf(db, batch, r), SaveOf(next, after, r));
            && (o.Some? <==> later.Some?)
            && (o.Some? ==>
                  var key := SavedKey(batch, r, o.value);
                  && SavedKey(after, r, later.value) == MovedKey(db, batch.records[order[0]], key)
                  && (key.RoomKey? ==> key.place != Standing(db.nextId)))
  {
    SaveAhead(db, next, b, order, token, env, x);
    var r := db.batches[b].records[order[x]];
    if r.kind == House && SaveOf(db, db.batches[b], r).Some? { PlaceAhead(db, next, b, order, token, env, x); }
  }

  lemma OccupiesAhead(db: Db, next: Db, b: nat, order: seq<nat>, token: nat, env: Env, y: nat, key: UniqueKey)
    requires Onward(db, next, b, order, token, env) && 0 < y < |order|
    requires key.RoomKey? ==> key.place != Standing(db.nextId)
    ensures var batch, after, r := db.batches[b], next.batches[b], db.batches[b].records[order[y]];
            Occupies(db, batch, r, key) <==> Occupies(next, after, r, MovedKey(db, batch.records[order[0]], key))
  {
    var batch, r := db.batches[b], db.batches[b].records[order[y]];
    if !Final(r.state) {
      KeyAhead(db, next, b, order, token, env, y);
      var o := SaveOf(db, batch, r);
      if o.Some? { MovedApart(db, batch.records[order[0]], SavedKey(batch, r, o.value), key); }
    }
  }

  predicate Wrote(db: Db, r: Record, k: nat) {
    Moves(r, k) || (!Final(r.state) && Business(r.kind) && r.plan.action == Create && k == db.nextId)
  }

  /** The object the turn wrote has its planned key; the others keep theirs. */
  lemma KeysWritten(db: Db, next: Db, b: nat, order: seq<nat>, token: nat, env: Env, k: nat)
    requires Onward(db, next, b, order, token, env) && k in next.objects
    ensures var first := db.batches[b].records[order[0]];
            var key := KeyOf(next.objects[k]);
            if Wrote(db, first, k)
            then Occupies(db, db.batches[b], first, key)
            else k in db.objects && key == KeyOf(db.objects[k]) && PlaceThere(db, key)
  {
    var batch, first := db.batches[b], db.batches[b].records[order[0]];
    if !Final(first.state) {
      assert UpToDate(db, b, order[0], env);
      if first.kind == House && first.plan.action in {Create, Update} && first.plan.building.None? {
        DependencyThere(db, b, order, token, env, Building, first.buildingSource);
      }
    }
  }

  lemma LinksAhead(db: Db, next: Db, b: nat, order: seq<nat>, token: nat, env: Env, x: nat)
    requires Onward(db, next, b, order, token, env) && 0 < x < |order|
    requires var r := db.batches[b].records[order[x]]; !Final(r.state) && SaveOf(db, db.batches[b], r).Some?
    ensures var batch, after, r := db.batches[b], next.batches[b], db.batches[b].records[order[x]];
            var (o, later) := (SaveOf(db, batch, r), SaveOf(next, after, r));
            && later.Some? && Known(batch, order, x) && Known(after, order[1..], x - 1)
            && (LinksCome(db, batch, order, x, o.value) <==> LinksCome(next, after, order[1..], x - 1, later.value))
  {
    var batch, r := db.batches[b], db.batches[b].records[order[x]];
    SaveAhead(db, next, b, order, token, env, x);
    if r.kind == House {
      var o := SaveOf(db, batch, r).value;
      BuildingAhead(db, next, b, order, token, env, x);
      LandlordBack(db, b, order, token, env, x);
      if o.landlord.Some? { LandlordAhead(db, next, b, order, token, env, x, o.landlord.value); }
    }
  }

  /** The landlord of a planned house was there when it was planned. */
  lemma LandlordBack(db: Db, b: nat, order: seq<nat>, token: nat, env: Env, x: nat)
    requires OnTrack(db, b, order, token, env) && x < |order|
    requires var r := db.batches[b].records[order[x]];
             !Final(r.state) && r.kind == House && r.plan.action in {Create, Update}
    ensures var o := SaveOf(db, db.batches[b], db.batches[b].records[order[x]]);
            o.Some? && o.value.landlord.Some? ==> o.value.landlord.value < db.nextId
  {
    assert UpToDate(db, b, order[x], env);
  }

  lemma BuildingAhead(db: Db, next: Db, b: nat, order: seq<nat>, token: nat, env: Env, x: nat)
    requires Onward(db, next, b, order, token, env) && 0 < x < |order|
    requires var r := db.batches[b].records[order[x]];
             !Final(r.state) && r.kind == House && r.plan.action in {Create, Update}
    ensures var r := db.batches[b].records[order[x]];
            var (place, later) := (BuildingOf(db.batches[b], r), BuildingOf(next.batches[b], r));
            (place.Some? ==> IsBuilding(db.objects, place.value)) <==>
              (later.Some? ==> IsBuilding(next.objects, later.value))
  {
    var batch, r := db.batches[b], db.batches[b].records[order[x]];
    PlaceAhead(db, next, b, order, token, env, x);
    if BuildingOf(batch, r).Some? { BuildingsAfter(db, next, b, order, token, env, BuildingOf(batch, r).value); }
  }

  lemma BuildingsAfter(db: Db, next: Db, b: nat, order: seq<nat>, token: nat, env: Env, id: nat)
    requires Onward(db, next, b, order, token, env) && id != db.nextId
    ensures IsBuilding(db.objects, id) <==> IsBuilding(next.objects, id)
  {
    assert Final(db.batches[b].records[order[0]].state) || UpToDate(db, b, order[0], env);
  }

  lemma MovesAhead(batch: Batch, after: Batch, order: seq<nat>, x: nat, k: nat)
    requires 0 < x < |order| && Known(batch, order, x) && Known(after, order[1..], x - 1)
    requires forall y :: 0 < y < |order| ==> after.records[order[y]] == batch.records[order[y]]
    ensures (exists y :: 0 <= y < x && Moves(batch.records[order[y]], k))
            <==> (Moves(batch.records[order[0]], k)
                  || exists y :: 0 <= y < x - 1 && Moves(after.records[order[1..][y]], k))
  {
    var rest := order[1..];
    assert forall y :: 0 <= y < |rest| ==> rest[y] == order[y + 1];
    if y :| 0 <= y < x && Moves(batch.records[order[y]], k) && y > 0 {
      assert Moves(after.records[rest[y - 1]], k);
    }
    if y :| 0 <= y < x - 1 && Moves(after.records[rest[y]], k) {
      assert Moves(batch.records[order[y + 1]], k);
    }
  }

  /** One object stands in the way after the turn exactly as one did before, or it is the one just written. */
  lemma HolderAhead(db: Db, next: Db, b: nat, order: seq<nat>, token: nat, env: Env, x: nat, key: UniqueKey, k: nat)
    requires Onward(db, next, b, order, token, env) && 0 < x < |order| && k in next.objects
    requires key.RoomKey? ==> key.place != Standing(db.nextId)
    ensures var first := db.batches[b].records[order[0]];
            var later := KeyOf(next.objects[k]) == MovedKey(db, first, key);
            if Wrote(db, first, k) then later <==> Occupies(db, db.batches[b], first, key)
            else k in db.objects && (later <==> KeyOf(db.objects[k]) == key)
  {
    var first := db.batches[b].records[order[0]];
    KeysWritten(db, next, b, order, token, env, k);
    assert Final(first.state) || UpToDate(db, b, order[0], env);
    if Wrote(db, first, k) {
      WrittenUnmoved(db, db.batches[b], first, KeyOf(next.objects[k]));
      if Occupies(db, db.batches[b], first, key) { WrittenUnmoved(db, db.batches[b], first, key); }
    } else {
      MovedApart(db, first, KeyOf(db.objects[k]), key);
    }
  }

  lemma WrittenUnmoved(db: Db, batch: Batch, first: Record, key: UniqueKey)
    requires Occupies(db, batch, first, key)
    requires WorksOnObject(first) && first.plan.target.Some? && first.plan.target.value in db.objects ==>
               db.objects[first.plan.target.value].kind == first.kind
    ensures MovedKey(db, first, key) == key && (first.kind == Building ==> !key.RoomKey?)
  {
  }

  lemma FreeAfter(db: Db, next: Db, b: nat, order: seq<nat>, token: nat, env: Env, x: nat, key: UniqueKey)
    requires Onward(db, next, b, order, token, env) && 0 < x < |order|
    requires key.RoomKey? ==> key.place != Standing(db.nextId)
    requires Known(db.batches[b], order, x) && Known(next.batches[b], order[1..], x - 1)
    requires KeyComesFree(db, db.batches[b], order, x, key)
    ensures KeyComesFree(next, next.batches[b], order[1..], x - 1, MovedKey(db, db.batches[b].records[order[0]], key))
  {
    var batch, after, rest := db.batches[b], next.batches[b], order[1..];
    var first, moved := batch.records[order[0]], MovedKey(db, batch.records[order[0]], key);
    assert rest[x - 1] == order[x];
    forall k | k in next.objects && OwnObject(after.records[rest[x - 1]]) != Some(k) && KeyOf(next.objects[k]) == moved
      ensures exists y :: 0 <= y < x - 1 && Moves(after.records[rest[y]], k)
    {
      HolderAhead(db, next, b, order, token, env, x, key, k);
      MovesAhead(batch, after, order, x, k);
    }
    forall y | 0 <= y < x - 1 ensures !Occupies(next, after, after.records[rest[y]], moved) {
      assert rest[y] == order[y + 1];
      OccupiesAhead(db, next, b, order, token, env, y + 1, key);
    }
  }

  lemma FreeBefore(db: Db, next: Db, b: nat, order: seq<nat>, token: nat, env: Env, x: nat, key: UniqueKey)
    requires Onward(db, next, b, order, token, env) && 0 < x < |order|
    requires var r := db.batches[b].records[order[x]]; !Final(r.state) && SaveOf(db, db.batches[b], r).Some?
    requires key.RoomKey? ==> key.place != Standing(db.nextId)
    requires Known(db.batches[b], order, x) && Known(next.batches[b], order[1..], x - 1)
    requires KeyComesFree(next, next.batches[b], order[1..], x - 1, MovedKey(db, db.batches[b].records[order[0]], key))
    ensures KeyComesFree(db, db.batches[b], order, x, key)
  {
    var batch, after, rest := db.batches[b], next.batches[b], order[1..];
    var first, moved := batch.records[order[0]], MovedKey(db, batch.records[order[0]], key);
    assert rest[x - 1] == order[x];
    forall k | k in db.objects && OwnObject(batch.records[order[x]]) != Some(k) && KeyOf(db.objects[k]) == key
      ensures exists y :: 0 <= y < x && Moves(batch.records[order[y]], k)
    {
      MovesAhead(batch, after, order, x, k);
      if !Moves(first, k) { HolderAhead(db, next, b, order, token, env, x, key, k); }
    }
    forall y | 0 <= y < x ensures !Occupies(db, batch, batch.records[order[y]], key) {
      if y > 0 {
        assert rest[y - 1] == order[y];
        OccupiesAhead(db, next, b, order, token, env, y, key);
      } else if Occupies(db, batch, first, key) {
        FirstOccupies(db, next, b, order, token, env, x, key);
      }
    }
  }

  /** A key that the first record has just taken is not free. */
  lemma FirstOccupies(db: Db, next: Db, b: nat, order: seq<nat>, token: nat, env: Env, x: nat, key: UniqueKey)
    requires Onward(db, next, b, order, token, env) && 0 < x < |order|
    requires var r := db.batches[b].records[order[x]]; !Final(r.state) && SaveOf(db, db.batches[b], r).Some?
    requires Occupies(db, db.batches[b], db.batches[b].records[order[0]], key)
    requires key.RoomKey? ==> key.place != Standing(db.nextId)
    requires Known(next.batches[b], order[1..], x - 1)
    ensures !KeyComesFree(next, next.batches[b], order[1..], x - 1, MovedKey(db, db.batches[b].records[order[0]], key))
  {
    var batch, after, rest := db.batches[b], next.batches[b], order[1..];
    var first := batch.records[order[0]];
    var w := if first.plan.action == Create then db.nextId else first.plan.target.value;
    assert w in next.objects && Wrote(db, first, w);
    HolderAhead(db, next, b, order, token, env, x, key, w);
    assert rest[x - 1] == order[x];
    NobodyMoves(db, next, b, order, token, env, x, w);
    forall y | 0 <= y < x - 1 ensures !Moves(after.records[rest[y]], w) {
      assert rest[y] == order[y + 1];
      NobodyMoves(db, next, b, order, token, env, y + 1, w);
    }
  }

  /** No record after the first works on the object that the first wrote. */
  lemma NobodyMoves(db: Db, next: Db, b: nat, order: seq<nat>, token: nat, env: Env, y: nat, w: nat)
    requires Onward(db, next, b, order, token, env) && 0 < y < |order|
    requires Wrote(db, db.batches[b].records[order[0]], w)
    ensures var r := next.batches[b].records[order[y]];
            !Moves(r, w) && (!Final(r.state) && WorksOnObject(r) ==> OwnObject(r) != Some(w))
  {
    var r := db.batches[b].records[order[y]];
    if !Final(r.state) && WorksOnObject(r) { TargetAhead(db, next, b, order, token, env, y); }
  }

  lemma FreeAhead(db: Db, next: Db, b: nat, order: seq<nat>, token: nat, env: Env, x: nat)
    requires Onward(db, next, b, order, token, env) && 0 < x < |order|
    requires var r := db.batches[b].records[order[x]]; !Final(r.state) && SaveOf(db, db.batches[b], r).Some?
    ensures var batch, after, r := db.batches[b], next.batches[b], db.batches[b].records[order[x]];
            var (o, later) := (SaveOf(db, batch, r), SaveOf(next, after, r));
            && later.Some? && Known(batch, order, x) && Known(after, order[1..], x - 1)
            && (KeyComesFree(db, batch, order, x, SavedKey(batch, r, o.value)) <==>
                  KeyComesFree(next, after, order[1..], x - 1, SavedKey(after, r, later.value)))
  {
    var batch, after, r := db.batches[b], next.batches[b], db.batches[b].records[order[x]];
    KeyAhead(db, next, b, order, token, env, x);
    var key := SavedKey(batch, r, SaveOf(db, batch, r).value);
    if KeyComesFree(db, batch, order, x, key) {
      FreeAfter(db, next, b, order, token, env, x, key);
    } else if KeyComesFree(next, after, order[1..], x - 1, MovedKey(db, batch.records[order[0]], key)) {
      FreeBefore(db, next, b, order, token, env, x, key);
    }
  }

  lemma DutyAhead(db: Db, next: Db, b: nat, order: seq<nat>, token: nat, env: Env, x: nat)
    requires Onward(db, next, b, order, token, env) && 0 < x < |order|
    requires !Final(db.batches[b].records[order[x]].state)
    ensures Known(db.batches[b], order, x) && Known(next.batches[b], order[1..], x - 1)
    ensures DutyComes(db, db.batches[b], order, x) <==> DutyComes(next, next.batches[b], order[1..], x - 1)
  {
    var batch, after, r, i := db.batches[b], next.batches[b], db.batches[b].records[order[x]], order[0];
    var found := FindFrom(batch.records, Landlord, r.landlordSource, 0);
    FindSame(batch.records, after.records, Landlord, r.landlordSource, 0);
    if r.plan.action == Responsibility && r.plan.target.Some? && found.Some? {
      var j := found.value;
      if Final(batch.records[j].state) && batch.records[j].target.Some? {
        assert after.records[j] == batch.records[j];
        LandlordAhead(db, next, b, order, token, env, x, batch.records[j].target.value);
      } else if j == i && !Final(batch.records[i].state) {
        LandlordMade(db, next, b, order, token, env, x);
      }
    }
  }

  /** A landlord record's turn leaves a landlord. */
  lemma LandlordMade(db: Db, next: Db, b: nat, order: seq<nat>, token: nat, env: Env, x: nat)
    requires Onward(db, next, b, order, token, env) && 0 < x < |order|
    requires var first := db.batches[b].records[order[0]]; first.kind == Landlord && !Final(first.state)
    ensures Known(next.batches[b], order[1..], x - 1)
    ensures var made := next.batches[b].records[order[0]].target;
            made.Some? ==> LandlordComes(next, next.batches[b], order[1..], x - 1, made.value)
  {
    assert UpToDate(db, b, order[0], env);
    assert Named(next.batches[b].records[order[0]]);
  }

  /** The conditions of the records after the first are the same before and after its turn. */
  lemma SavePassesAhead(db: Db, next: Db, b: nat, order: seq<nat>, token: nat, env: Env, x: nat)
    requires Onward(db, next, b, order, token, env) && 0 < x < |order|
    ensures Known(db.batches[b], order, x) && Known(next.batches[b], order[1..], x - 1)
    ensures SavePasses(db, db.batches[b], order, x) <==> SavePasses(next, next.batches[b], order[1..], x - 1)
  {
    var batch, r := db.batches[b], db.batches[b].records[order[x]];
    assert next.batches[b].records[order[x]] == r && order[1..][x - 1] == order[x];
    if !Final(r.state) {
      SaveAhead(db, next, b, order, token, env, x);
      DutyAhead(db, next, b, order, token, env, x);
      if SaveOf(db, batch, r).Some? {
        LinksAhead(db, next, b, order, token, env, x);
        FreeAhead(db, next, b, order, token, env, x);
      }
    }
  }

  // ---- the whole loop ----

  /** Nothing stands in the way of the records listed: their responsibilities and their saves. */
  predicate Clear(db: Db, batch: Batch, order: seq<nat>)
    requires OrderFits(batch.records, order)
  {
    DutiesPossible(batch.records, order) && SavesPass(db, batch, order)
  }

  lemma ClearAhead(db: Db, next: Db, b: nat, order: seq<nat>, token: nat, env: Env)
    requires Onward(db, next, b, order, token, env) && OrderFits(next.batches[b].records, order[1..])
    requires DutyPossible(db.batches[b].records, db.batches[b].records[order[0]])
    requires SavePasses(db, db.batches[b], order, 0)
    ensures Clear(db, db.batches[b], order) <==> Clear(next, next.batches[b], order[1..])
  {
    var batch, after, rest := db.batches[b], next.batches[b], order[1..];
    forall x | 0 < x < |order|
      ensures SavePasses(db, batch, order, x) <==> SavePasses(next, after, rest, x - 1)
      ensures DutyPossible(batch.records, batch.records[order[x]]) <==>
                DutyPossible(after.records, after.records[rest[x - 1]])
    {
      SavePassesAhead(db, next, b, order, token, env, x);
      FindSame(batch.records, after.records, Landlord, batch.records[order[x]].landlordSource, 0);
    }
    if Clear(next, after, rest) {
      forall x | 0 <= x < |order|
        ensures DutyPossible(batch.records, batch.records[order[x]]) && SavePasses(db, batch, order, x)
      {
        if x > 0 {
          assert DutyPossible(after.records, after.records[rest[x - 1]]) && SavePasses(next, after, rest, x - 1);
        }
      }
    }
    if Clear(db, batch, order) {
      forall x | 0 <= x < |rest|
        ensures DutyPossible(after.records, after.records[rest[x]]) && SavePasses(next, after, rest, x)
      {
        assert DutyPossible(batch.records, batch.records[order[x + 1]]) && SavePasses(db, batch, order, x + 1);
      }
    }
  }

  predicate AllFinal(records: seq<Record>, order: seq<nat>) {
    forall x :: 0 <= x < |order| ==> order[x] < |records| && Final(records[order[x]].state)
  }

  predicate AllAsPlanned(before: seq<Record>, after: seq<Record>, order: seq<nat>)
    requires |before| == |after|
  {
    forall x :: 0 <= x < |order| && order[x] < |before| && !Final(before[order[x]].state) ==>
                  AsPlanned(before[order[x]], after[order[x]].state)
  }

  lemma RestFinal(before: seq<Record>, next: seq<Record>, done: seq<Record>, order: seq<nat>)
    requires order != [] && |before| == |next| == |done| && order[0] < |before| && order[0] !in order[1..]
    requires done[order[0]] == next[order[0]] && Final(next[order[0]].state)
    requires !Final(before[order[0]].state) ==> AsPlanned(before[order[0]], next[order[0]].state)
    requires forall j :: 0 <= j < |before| && j != order[0] ==> next[j] == before[j]
    ensures AllFinal(done, order) <==> AllFinal(done, order[1..])
    ensures AllAsPlanned(next, done, order[1..]) ==> AllAsPlanned(before, done, order)
  {
    var rest := order[1..];
    assert forall x :: 0 <= x < |rest| ==> rest[x] == order[x + 1] && rest[x] in rest;
    if AllFinal(done, order) {
      forall x | 0 <= x < |rest| ensures rest[x] < |done| && Final(done[rest[x]].state) {
        assert order[x + 1] < |done| && Final(done[order[x + 1]].state);
      }
    }
    assert forall x :: 0 < x < |order| ==> order[x] == rest[x - 1] && order[x] != order[0];
  }

  /** The records listed all become final exactly when nothing stands in their way, and then as planned. */
  lemma {:induction false} ListedFinishExactly(db: Db, b: nat, order: seq<nat>, token: nat, env: Env)
    requires OnTrack(db, b, order, token, env) && Compatible(db, db.batches[b].records, order)
    ensures var records, done := db.batches[b].records, WorkAll(db, b, order, token, env);
            && b < |done.batches| && |done.batches[b].records| == |records|
            && (AllFinal(done.batches[b].records, order) <==> Clear(db, db.batches[b], order))
            && (AllFinal(done.batches[b].records, order) ==> AllAsPlanned(records, done.batches[b].records, order))
    decreases |order|
  {
    WorkFrame(db, b, order, token, env);
    if order != [] {
      var i, rest := order[0], order[1..];
      assert i !in rest;
      HeadSucceeds(db, b, order, token, env);
      ClearHead(db, db.batches[b], order);
      if ExecuteRecord(db, b, i, token, env).Done? {
        FinishAfterHead(db, b, order, token, env);
        ListedFinishExactly(TurnOf(db, b, i, token, env), b, rest, token, env);
        HeadAndRest(db, b, order, token, env);
      } else {
        FailedTurnStays(db, b, i, rest, token, env);
      }
    }
  }

  lemma ClearHead(db: Db, batch: Batch, order: seq<nat>)
    requires OrderFits(batch.records, order) && order != []
    ensures Clear(db, batch, order) ==>
              DutyPossible(batch.records, batch.records[order[0]]) && SavePasses(db, batch, order, 0)
  {
  }

  lemma FinishAfterHead(db: Db, b: nat, order: seq<nat>, token: nat, env: Env)
    requires OnTrack(db, b, order, token, env) && Compatible(db, db.batches[b].records, order) && order != []
    requires ExecuteRecord(db, b, order[0], token, env).Done?
    ensures var next := TurnOf(db, b, order[0], token, env);
            && OnTrack(next, b, order[1..], token, env) && Compatible(next, next.batches[b].records, order[1..])
            && (Clear(db, db.batches[b], order) <==> Clear(next, next.batches[b], order[1..]))
  {
    var next := TurnOf(db, b, order[0], token, env);
    TurnIsOne(db, b, order, token, env);
    TurnKeepsTrack(db, b, order, token, env);
    TurnKeepsCompatible(db, b, order, token, env);
    TurnSteps(db, b, order, token, env);
    HeadSucceeds(db, b, order, token, env);
    ClearAhead(db, next, b, order, token, env);
  }

  lemma HeadAndRest(db: Db, b: nat, order: seq<nat>, token: nat, env: Env)
    requires OnTrack(db, b, order, token, env) && order != [] && ExecuteRecord(db, b, order[0], token, env).Done?
    ensures var next, done := TurnOf(db, b, order[0], token, env), WorkAll(db, b, order, token, env);
            && b < |next.batches| && b < |done.batches|
            && |done.batches[b].records| == |next.batches[b].records| == |db.batches[b].records|
            && (AllFinal(done.batches[b].records, order) <==> AllFinal(done.batches[b].records, order[1..]))
            && (AllAsPlanned(next.batches[b].records, done.batches[b].records, order[1..]) ==>
                  AllAsPlanned(db.batches[b].records, done.batches[b].records, order))
  {
    var next, done := TurnOf(db, b, order[0], token, env), WorkAll(db, b, order, token, env);
    assert order[0] !in order[1..];
    TurnIsOne(db, b, order, token, env);
    TurnSucceeds(db, b, order, token, env);
    TurnFrame(db, b, order[0], token, env);
    WorkFrame(next, b, order[1..], token, env);
    RestFinal(db.batches[b].records, next.batches[b].records, done.batches[b].records, order);
  }

  /**
   An import that is up to date and left alone finishes every record exactly when
   no record changes an object that a later one was planned to work on, every
   responsibility is for a landlord that is not deleted at the source, and every
   save will be accepted; and then every record ends in the state its plan names.
   */
  lemma UndisturbedImportCompletesExactly(db: Db, b: nat, token: nat, env: Env)
    requires b < |db.batches| && OnTrack(db, b, WorkOrder(db.batches[b].records), token, env)
    ensures var batch, records, order := db.batches[b], db.batches[b].records, WorkOrder(db.batches[b].records);
            var done := WorkAll(db, b, order, token, env);
            && b < |done.batches| && |done.batches[b].records| == |records|
            && (!Open(done.batches[b].records) <==>
                  Compatible(db, records, order) && DutiesPossible(records, order) && SavesPass(db, batch, order))
            && (!Open(done.batches[b].records) ==>
                  forall i :: 0 <= i < |records| && !Final(records[i].state) ==>
                      AsPlanned(records[i], done.batches[b].records[i].state))
  {
    WorkedThrough(db, b, WorkOrder(db.batches[b].records), token, env);
  }

  /** The same for any order that lists every record. */
  lemma WorkedThrough(db: Db, b: nat, order: seq<nat>, token: nat, env: Env)
    requires OnTrack(db, b, order, token, env) && forall i: nat :: i in order <==> i < |db.batches[b].records|
    ensures var batch, records, done := db.batches[b], db.batches[b].records, WorkAll(db, b, order, token, env);
            && b < |done.batches| && |done.batches[b].records| == |records|
            && (!Open(done.batches[b].records) <==>
                  Compatible(db, records, order) && DutiesPossible(records, order) && SavesPass(db, batch, order))
            && (!Open(done.batches[b].records) ==>
                  forall i :: 0 <= i < |records| && !Final(records[i].state) ==>
                      AsPlanned(records[i], done.batches[b].records[i].state))
  {
    var records := db.batches[b].records;
    if Compatible(db, records, order) {
      ListedFinishExactly(db, b, order, token, env);
      EveryRecordListed(records, WorkAll(db, b, order, token, env).batches[b].records, order);
    } else {
      IncompatibleStaysOpen(db, b, order, token, env);
    }
  }

  lemma IncompatibleStaysOpen(db: Db, b: nat, order: seq<nat>, token: nat, env: Env)
    requires OnTrack(db, b, order, token, env) && !Compatible(db, db.batches[b].records, order)
    ensures var done := WorkAll(db, b, order, token, env);
            b < |done.batches| && |done.batches[b].records| == |db.batches[b].records| && Open(done.batches[b].records)
  {
    var records := db.batches[b].records;
    WorkFrame(db, b, order, token, env);
    var x, y :| 0 <= x < y < |order| && Spoils(db, records[order[x]], records[order[y]]);
    SpoiledFails(db, b, order, token, env, x, y);
  }

  lemma EveryRecordListed(before: seq<Record>, after: seq<Record>, order: seq<nat>)
    requires |before| == |after| && forall i: nat :: i in order <==> i < |before|
    ensures !Open(after) <==> AllFinal(after, order)
    ensures AllAsPlanned(before, after, order) ==>
              forall i :: 0 <= i < |before| && !Final(before[i].state) ==> AsPlanned(before[i], after[i].state)
  {
    assert forall x :: 0 <= x < |order| ==> order[x] in order;
    if AllFinal(after, order) {
      forall i: nat | i < |after| ensures Final(after[i].state) {
        assert i in order;
        var x :| 0 <= x < |order| && order[x] == i;
      }
    }
    if AllAsPlanned(before, after, order) {
      forall i: nat | i < |before| && !Final(before[i].state) ensures AsPlanned(before[i], after[i].state) {
        assert i in order;
        var x :| 0 <= x < |order| && order[x] == i;
      }
    }
  }

  // ---- a confirmed import is up to date ----

  /** The planned building is there, or is a record of the package that is planned to be created. */
  predicate HouseLinked(db: Db, batch: Batch, d: Decisions, env: Env, r: Record, plan: Plan) {
    if plan.building.Some? then Available(db, Building, batch.org, plan.building.value)
    else
      var found := FindFrom(batch.records, Building, r.buildingSource, 0);
      && found.Some? && !batch.records[found.value].deleted
      && FindingFor(db, batch, d, found.value, env).plan.action == Create
  }

  lemma FindingHouse(db: Db, batch: Batch, d: Decisions, env: Env, i: nat)
    requires IdsSound(db) && i < |batch.records| && !FindingFor(db, batch, d, i, env).issue
    ensures var r, plan := batch.records[i], FindingFor(db, batch, d, i, env).plan;
            r.kind == House && plan.action in {Create, Update} ==>
              HouseLinked(db, batch, d, env, r, plan) && LandlordNamed(db, r.(plan := plan))
  {
  }

  lemma FindingUpToDate(db: Db, batch: Batch, d: Decisions, env: Env, i: nat)
    requires IdsSound(db) && i < |batch.records| && !FindingFor(db, batch, d, i, env).issue
    ensures var r, plan := batch.records[i], FindingFor(db, batch, d, i, env).plan;
            if Business(r.kind) && plan.action in {Create, Update, Reuse, Skip} then
              && !r.deleted && plan.mappingVersion == Lookup(db.mappings, IdentityOf(batch, r))
              && (plan.action != Create ==>
                    && plan.target.Some? && Available(db, r.kind, batch.org, plan.target.value)
                    && plan.targetVersion == Some(db.objects[plan.target.value].version))
            else if Business(r.kind) then r.deleted && plan.action == Archive
            else (r.kind == Staff && plan.action == Reuse) || plan.action == Responsibility ==>
              && plan.target.Some? && plan.target.value in env.members
              && (plan.action == Responsibility ==>
                    r.kind == Relation && FindFrom(batch.records, Landlord, r.landlordSource, 0).Some?)
  {
  }

  lemma ConfirmedUpToDate(db: Db, next: Db, b: nat, env: Env, i: nat)
    requires IdsSound(db) && b < |db.batches| && b < |next.batches| && i < |db.batches[b].records|
    requires var checked := Previewed(db, db.batches[b], db.batches[b].decisions, env);
             && !checked.preview.value.issues && next.batches[b].records == checked.records
             && next.batches[b].org == checked.org && next.batches[b].source == checked.source
             && next.mappings == db.mappings && next.objects == db.objects && next.nextId == db.nextId
    ensures i < |next.batches[b].records| && UpToDate(next, b, i, env)
  {
    var batch, d, n := db.batches[b], db.batches[b].decisions, |db.batches[b].records|;
    PlannedRecordsAt(db, batch, d, env, n);
    NoIssue(db, batch, d, env, n, i);
    FindingUpToDate(db, batch, d, env, i);
    var r := batch.records[i];
    var after := next.batches[b].records;
    assert forall j :: 0 <= j < n ==> SameSource(batch.records[j], after[j]);
    FindSame(batch.records, after, Building, r.buildingSource, 0);
    FindSame(batch.records, after, Landlord, r.landlordSource, 0);
    ConfirmedHouse(db, next, b, env, i);
  }

  lemma ConfirmedHouse(db: Db, next: Db, b: nat, env: Env, i: nat)
    requires IdsSound(db) && b < |db.batches| && b < |next.batches| && i < |db.batches[b].records|
    requires var checked := Previewed(db, db.batches[b], db.batches[b].decisions, env);
             && !checked.preview.value.issues && next.batches[b].records == checked.records
             && next.batches[b].org == checked.org && next.objects == db.objects && next.nextId == db.nextId
    ensures i < |next.batches[b].records|
    ensures var r := next.batches[b].records[i];
            r.kind == House && r.plan.action in {Create, Update} ==>
              BuildingNamed(next, next.batches[b], r) && LandlordNamed(next, r)
  {
    var batch, d, n := db.batches[b], db.batches[b].decisions, |db.batches[b].records|;
    PlannedRecordsAt(db, batch, d, env, n);
    NoIssue(db, batch, d, env, n, i);
    FindingHouse(db, batch, d, env, i);
    var after := next.batches[b].records;
    var found := FindFrom(batch.records, Building, batch.records[i].buildingSource, 0);
    FindSame(batch.records, after, Building, batch.records[i].buildingSource, 0);
    if found.Some? { assert after[found.value].plan == FindingFor(db, batch, d, found.value, env).plan; }
  }

  /** The tables when a batch has just been confirmed and claimed. */
  function Claimed(sys: System, b: nat, version: Version, env: Env): Db {
    After(After(sys, Confirm(b, version, env)), TakeBatch(b)).db
  }

  /** The confirm starts an import of a batch whose sources are distinct. */
  predicate StartsImport(sys: System, b: nat, version: Version, env: Env) {
    var confirmed := After(sys, Confirm(b, version, env)).db;
    && b < |sys.db.batches| && sys.db.batches[b].status != Importing && SourcesUnique(sys.db.batches[b].records)
    && b < |confirmed.batches| && confirmed.batches[b].status == Importing
  }

  /** Right after confirming, the plans are up to date. */
  lemma ConfirmedOnTrack(sys: System, b: nat, version: Version, env: Env)
    requires Sound(sys) && Linked(sys.db) && StartsImport(sys, b, version, env)
    ensures var db := Claimed(sys, b, version, env);
            b < |db.batches| && OnTrack(db, b, WorkOrder(db.batches[b].records), sys.db.nextToken, env)
  {
    var confirmed := After(sys, Confirm(b, version, env));
    StepIds(sys, Confirm(b, version, env));
    StepLinked(sys, Confirm(b, version, env));
    ConfirmingCopiesPreview(sys, b, version, env);
    ClaimedIsClaim(sys, b, version, env);
    ClaimedOnTrack(sys, confirmed, b, env);
  }

  lemma ClaimedIsClaim(sys: System, b: nat, version: Version, env: Env)
    requires Claimable(After(sys, Confirm(b, version, env)).db, b)
    ensures Claimed(sys, b, version, env) == Claim(After(sys, Confirm(b, version, env)), b).db
    ensures b < |Claimed(sys, b, version, env).batches|
  {
  }

  lemma ConfirmingCopiesPreview(sys: System, b: nat, version: Version, env: Env)
    requires StartsImport(sys, b, version, env)
    ensures var confirmed, checked
            := After(sys, Confirm(b, version, env)).db,
               Previewed(sys.db, sys.db.batches[b], sys.db.batches[b].decisions, env);
            && Claimable(confirmed, b) && confirmed.nextToken == sys.db.nextToken
            && !checked.preview.value.issues && confirmed.batches[b].records == checked.records
            && confirmed.batches[b].org == checked.org && confirmed.batches[b].source == checked.source
            && confirmed.mappings == sys.db.mappings && confirmed.objects == sys.db.objects
            && confirmed.nextId == sys.db.nextId && |confirmed.batches| == |sys.db.batches|
  {
  }

  lemma UniqueKept(before: seq<Record>, after: seq<Record>)
    requires |after| == |before| && SourcesUnique(before)
    requires forall j :: 0 <= j < |before| ==> RecordForward(before[j], after[j])
    ensures SourcesUnique(after)
  {
    forall i, j | 0 <= i < j < |after| ensures !(after[i].kind == after[j].kind && after[i].source == after[j].source) {
      assert !(before[i].kind == before[j].kind && before[i].source == before[j].source);
    }
  }

  lemma ClaimedOnTrack(sys: System, confirmed: System, b: nat, env: Env)
    requires IdsSound(sys.db) && IdsSound(confirmed.db) && Linked(confirmed.db) && b < |sys.db.batches|
    requires b < |confirmed.db.batches|
    requires SourcesUnique(sys.db.batches[b].records) && Claimable(confirmed.db, b)
    requires var checked := Previewed(sys.db, sys.db.batches[b], sys.db.batches[b].decisions, env);
             && !checked.preview.value.issues && confirmed.db.batches[b].records == checked.records
             && confirmed.db.batches[b].org == checked.org && confirmed.db.batches[b].source == checked.source
             && confirmed.db.mappings == sys.db.mappings && confirmed.db.objects == sys.db.objects
             && confirmed.db.nextId == sys.db.nextId
    ensures var db := Claim(confirmed, b).db;
            OnTrack(db, b, WorkOrder(db.batches[b].records), confirmed.db.nextToken, env)
  {
    var db, before := Claim(confirmed, b).db, sys.db.batches[b].records;
    var records := db.batches[b].records;
    WorkOrderFits(records);
    StepIds(confirmed, TakeBatch(b));
    PreviewForward(sys.db, sys.db.batches[b], sys.db.batches[b].decisions, env);
    UniqueKept(before, records);
    assert BatchLinked(confirmed.db, confirmed.db.batches[b]);
    forall j | 0 <= j < |records| ensures Named(records[j]) {
      assert RecordLinked(confirmed.db, confirmed.db.batches[b], confirmed.db.batches[b].records[j]);
    }
    forall i: nat | i < |records| ensures UpToDate(db, b, i, env) { ConfirmedUpToDate(sys.db, db, b, env, i); }
  }

  /**
   From any reachable state: a batch that is confirmed, claimed and worked through
   by one worker while nobody interferes and no transaction breaks finishes every
   record exactly when its plans do not get in each other's way, its
   responsibilities are for landlords that are not deleted at the source, and every
   save will be accepted. The last is read off the confirmed plans and the tables:
   the fields each save checks pass, links lead to what is or will be there, and
   unique keys are free or will be freed by then.
   */
  lemma ConfirmedImportOutcome(now: int, steps: seq<Step>, b: nat, version: Version, env: Env)
    requires StartsImport(Run(Start(now), steps), b, version, env)
    ensures var sys := Run(Start(now), steps);
            var db := Claimed(sys, b, version, env);
            && b < |db.batches| && OrderFits(db.batches[b].records, WorkOrder(db.batches[b].records))
            && var records, order := db.batches[b].records, WorkOrder(db.batches[b].records);
            var done := WorkAll(db, b, order, sys.db.nextToken, env);
            && b < |done.batches| && |done.batches[b].records| == |records|
            && (!Open(done.batches[b].records) <==>
                  Compatible(db, records, order) && DutiesPossible(records, order)
                  && SavesPass(db, db.batches[b], order))
            && (!Open(done.batches[b].records) ==>
                  forall i :: 0 <= i < |records| && !Final(records[i].state) ==>
                      AsPlanned(records[i], done.batches[b].records[i].state))
  {
    var sys := Run(Start(now), steps);
    RunLinked(now, steps);
    ConfirmedOnTrack(sys, b, version, env);
    UndisturbedImportCompletesExactly(Claimed(sys, b, version, env), b, sys.db.nextToken, env);
  }
}
