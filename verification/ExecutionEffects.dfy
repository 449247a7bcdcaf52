/**
 What executing one record does to the tables, field by field: when it goes through
 and everything it writes. Nothing here is said through the functions that compute it.
 */
module ExecutionEffects {
  import opened Wrappers
  import opened Migration

  // ---- saving ----

  /** Two objects that the uniqueness rules do not let stand side by side. */
  predicate Clash(o: Object, p: Object) {
    && o.kind == p.kind
    && match o.kind
       case Landlord => o.org == p.org && o.values.name == p.values.name && o.values.detail == p.values.detail
       case Building =>
         && o.values.name == p.values.name && o.rest.estate == p.rest.estate
         && (o.rest.estate.None? ==> o.org == p.org && o.values.detail == p.values.detail)
       case House => o.building == p.building && o.values.name == p.values.name
       case _ => true
  }

  /** Superfluous space is taken from names, phone numbers and addresses, but not from room numbers. */
  predicate StoredAs(given: Values, held: Values, kind: EntityKind) {
    && held.listed == given.listed
    && (if kind.House? then held.name == given.name && held.detail == given.detail
        else && held.name == Text(given.name.core, given.name.form, 0)
             && held.detail == Text(given.detail.core, given.detail.form, 0))
  }

  predicate Nothing(t: Text) {
    t.core == 0 && t.form == 0
  }

  /** The object is valid in itself. */
  predicate ValidAlone(o: Object) {
    && o.rest.fit
    && match o.kind
       case Landlord =>
         !(Nothing(o.values.name) && o.values.name.space == 0) && !Nothing(o.values.detail) && o.rest.roles
       case Building => !Nothing(o.values.name) && !Nothing(o.values.detail)
       case House => !(Nothing(o.values.name) && o.values.name.space == 0) && (o.rest.active || !o.values.listed)
       case _ => true
  }

  /** A house stands in a building, and its landlord, if any, is one of the organization. */
  predicate ValidLinks(objects: map<nat, Object>, o: Object) {
    o.kind.House? ==>
      && o.building.Some? && o.building.value in objects && objects[o.building.value].kind.Building?
      && match o.landlord
         case None => true
         case Some(l) => l in objects && objects[l].kind.Landlord? && objects[l].org == o.org && objects[l].landlordRole
  }

  /** What is stored for o goes through as object id: stored is valid, and no other object clashes with it. */
  predicate Saves(objects: map<nat, Object>, id: nat, o: Object, stored: Object) {
    && ValidAlone(o) && ValidLinks(objects, o) && StoredAs(o.values, stored.values, o.kind)
    && stored == o.(values := stored.values) && forall k :: k in objects && k != id ==> !Clash(objects[k], stored)
  }

  lemma SaveExact(objects: map<nat, Object>, id: nat, o: Object)
    requires o.kind.Landlord? || o.kind.Building? || o.kind.House?
    ensures Accepted(objects, id, o) <==> Saves(objects, id, o, Tidied(o))
    ensures forall stored :: Saves(objects, id, o, stored) ==> stored == Tidied(o)
  {
    assert FieldsPass(o) <==> ValidAlone(o);
    assert LinksPass(objects, o) <==> ValidLinks(objects, o);
    var stored := Tidied(o);
    forall k | k in objects && k != id && ValidLinks(objects, o)
      ensures KeyOf(objects[k]) == KeyOf(stored) <==> Clash(objects[k], stored)
    {
    }
  }

  // ---- what a record refers to ----

  predicate FirstOf(records: seq<Record>, kind: EntityKind, source: int, j: nat) {
    && j < |records| && records[j].kind == kind && records[j].source == source
    && forall k :: 0 <= k < j ==> !(records[k].kind == kind && records[k].source == source)
  }

  /** The object that a source became, by the first record of it, if that is finished. */
  ghost function Became(records: seq<Record>, kind: EntityKind, source: int): Option<nat> {
    if j: nat :| FirstOf(records, kind, source, j) && records[j].state !in {RecordState.Pending, Failed}
    then records[j].target
    else None
  }

  lemma {:induction false} FindExact(records: seq<Record>, kind: EntityKind, source: int, from: nat)
    requires from <= |records|
    requires forall k :: 0 <= k < from ==> !(records[k].kind == kind && records[k].source == source)
    ensures var found := FindFrom(records, kind, source, from);
            && (found.Some? ==> FirstOf(records, kind, source, found.value))
            && (found.None? ==> forall j: nat :: !FirstOf(records, kind, source, j))
    decreases |records| - from
  {
    if from < |records| && !(records[from].kind == kind && records[from].source == source) {
      FindExact(records, kind, source, from + 1);
    }
  }

  lemma BecameExact(batch: Batch, kind: EntityKind, source: int)
    ensures Dependency(batch, kind, source) == Became(batch.records, kind, source)
  {
    FindExact(batch.records, kind, source, 0);
  }

  /** The planned building, else what the building of the source became. */
  ghost function PlaceOf(batch: Batch, r: Record): Option<nat> {
    if r.plan.building.Some? then r.plan.building else Became(batch.records, Building, r.buildingSource)
  }

  // ---- business records ----

  predicate IsBusiness(r: Record) {
    && (r.kind.Landlord? || r.kind.Building? || r.kind.House?)
    && (r.plan.action.Create? || r.plan.action.Update? || r.plan.action.Reuse? || r.plan.action.Skip?)
  }

  function SourceId(batch: Batch, r: Record): Identity {
    Identity(batch.org, batch.source, r.kind, r.source)
  }

  /** What the source is mapped to is what it was mapped to when the plan was made. */
  predicate MappedAsPlanned(db: Db, batch: Batch, r: Record) {
    match r.plan.mappingVersion
    case None => SourceId(batch, r) !in db.mappings
    case Some(m) => SourceId(batch, r) in db.mappings && db.mappings[SourceId(batch, r)] == m
  }

  /** The record is finished with this object, which its source is mapped to from now on. */
  predicate Reached(db: Db, next: Db, b: nat, i: nat, target: nat, state: RecordState)
    requires b < |db.batches| && i < |db.batches[b].records|
  {
    var (batch, r) := (db.batches[b], db.batches[b].records[i]);
    && next.mappings == db.mappings[SourceId(batch, r) := Mapping(target, r.hash)]
    && OnlyRecord(db, next, b, i, r.(state := state, target := Some(target)))
  }

  /** One record of one batch became settled. */
  predicate OnlyRecord(db: Db, next: Db, b: nat, i: nat, settled: Record)
    requires b < |db.batches| && i < |db.batches[b].records|
  {
    && |next.batches| == |db.batches|
    && (forall k :: 0 <= k < |db.batches| && k != b ==> next.batches[k] == db.batches[k])
    && next.batches[b] == db.batches[b].(records := next.batches[b].records)
    && |next.batches[b].records| == |db.batches[b].records| && next.batches[b].records[i] == settled
    && (forall k :: 0 <= k < |db.batches[b].records| && k != i ==>
          next.batches[b].records[k] == db.batches[b].records[k])
    && next.now == db.now && next.nextToken == db.nextToken
  }

  /** Object id became stored; all others, and the responsibilities, are as they were. */
  predicate OnlyObject(db: Db, next: Db, id: nat, stored: Object) {
    && id in next.objects && next.objects[id] == stored && next.objects.Keys == db.objects.Keys + {id}
    && (forall k :: k in db.objects && k != id ==> next.objects[k] == db.objects[k]) && next.duties == db.duties
  }

  /** The values and the landlord that a plan asks for, over what is there. */
  predicate AsAsked(o: Object, r: Record, held: Values, landlord: Option<nat>) {
    && o.values == (match r.plan.fields case None => held case Some(f) => f.values)
    && (r.kind.House? ==> o.landlord == match r.plan.landlord case KeepLink => landlord case SetLink(l) => l)
  }

  /** The object as a plan to create asks for it. */
  predicate New(o: Object, batch: Batch, r: Record, place: Option<nat>) {
    && o.kind == r.kind && o.org == batch.org && o.version == 0 && o.landlordRole == r.kind.Landlord?
    && o.building == (if r.kind.House? then place else None) && (!r.kind.House? ==> o.landlord.None?)
    && AsAsked(o, r, Values(Text(0, 0, 0), Text(0, 0, 0), false), None)
    && o.rest == Rest(None, true, true, true) && o.content == Overlaid(Given(0), r.plan.fields)
  }

  /** The held object with the plan laid over it, one version on. */
  predicate Changed(o: Object, r: Record, place: Option<nat>, held: Object) {
    && o.kind == held.kind && o.org == held.org && o.version == held.version + 1
    && o.landlordRole == (held.landlordRole || r.kind.Landlord?)
    && o.building == (if r.kind.House? then place else held.building)
    && (!r.kind.House? ==> o.landlord == held.landlord)
    && AsAsked(o, r, held.values, held.landlord)
    && o.rest == Rest(held.rest.estate, held.rest.active, held.rest.fit, held.rest.roles || r.kind.Landlord?)
    && o.content == Overlaid(held.content, r.plan.fields)
  }

  /** The plan to create went through: a new object under the next id, logged for the specification. */
  ghost predicate Creates(db: Db, next: Db, b: nat, i: nat)
    requires b < |db.batches| && i < |db.batches[b].records|
  {
    var (batch, r, id) := (db.batches[b], db.batches[b].records[i], db.nextId);
    && next.nextId == id + 1 && Reached(db, next, b, i, id, Created)
    && next.created == db.created + [Creation(SourceId(batch, r), id, b, i,
                                              if (r.kind, r.source) in batch.decisions.mappings
                                              then Some(batch.decisions.mappings[(r.kind, r.source)])
                                              else None)]
    && exists o, stored ::
         && New(o, batch, r, PlaceOf(batch, r)) && Saves(db.objects, id, o, stored)
         && (r.kind.House? ==> o.building.Some?) && OnlyObject(db, next, id, stored)
  }

  predicate Unlogged(db: Db, next: Db) {
    next.nextId == db.nextId && next.created == db.created
  }

  /** The object is one of the kind and organization, and no one saved it since the plan was made. */
  predicate StillThere(db: Db, batch: Batch, r: Record, target: nat) {
    && target in db.objects && db.objects[target].kind == r.kind && db.objects[target].org == batch.org
    && r.plan.targetVersion == Some(db.objects[target].version)
  }

  ghost predicate Updates(db: Db, next: Db, b: nat, i: nat, target: nat)
    requires b < |db.batches| && i < |db.batches[b].records| && target in db.objects
  {
    var (batch, r) := (db.batches[b], db.batches[b].records[i]);
    exists o, stored ::
      && Changed(o, r, PlaceOf(batch, r), db.objects[target]) && (r.kind.House? ==> o.building.Some?)
      && Saves(db.objects, target, o, stored) && OnlyObject(db, next, target, stored) && Unlogged(db, next)
      && Reached(db, next, b, i, target, Updated)
  }

  /** A contact that is not a landlord becomes one, if it can be saved; any other object stays as it is. */
  predicate Adopts(db: Db, next: Db, b: nat, i: nat, target: nat, state: RecordState)
    requires b < |db.batches| && i < |db.batches[b].records| && target in db.objects
  {
    var (held, r) := (db.objects[target], db.batches[b].records[i]);
    && Unlogged(db, next) && Reached(db, next, b, i, target, state)
    && if r.kind.Landlord? && !held.landlordRole
       then && target in next.objects && OnlyObject(db, next, target, next.objects[target])
            && next.objects[target] == held.(landlordRole := true, version := held.version + 1)
            && ValidAlone(held) && (forall k :: k in db.objects && k != target ==> !ClashStored(db.objects[k], held))
       else next.objects == db.objects && next.duties == db.duties
  }

  /** The other object has the name and phone number that saving this contact would look for. */
  predicate ClashStored(other: Object, contact: Object) {
    && other.kind.Landlord? && other.org == contact.org
    && other.values.name == Text(contact.values.name.core, contact.values.name.form, 0)
    && other.values.detail == Text(contact.values.detail.core, contact.values.detail.form, 0)
  }

  lemma RecordsAre(db: Db, next: Db, b: nat, i: nat, settled: Record)
    requires b < |db.batches| && i < |db.batches[b].records|
    ensures OnlyRecord(db, next, b, i, settled) <==>
              && next.batches == SetRecord(db, b, i, settled).batches
              && next.now == db.now && next.nextToken == db.nextToken
  {
    if OnlyRecord(db, next, b, i, settled) {
      assert next.batches[b].records == db.batches[b].records[i := settled];
      assert next.batches == SetRecord(db, b, i, settled).batches;
    }
  }

  lemma ObjectsAre(db: Db, next: Db, id: nat, stored: Object)
    ensures OnlyObject(db, next, id, stored) <==> next.objects == db.objects[id := stored] && next.duties == db.duties
  {
    if OnlyObject(db, next, id, stored) { assert next.objects == db.objects[id := stored]; }
  }

  lemma MadeExact(batch: Batch, r: Record, o: Object)
    requires IsBusiness(r)
    ensures New(o, batch, r, PlaceOf(batch, r)) <==> o == Made(batch, r)
  {
    BecameExact(batch, Building, r.buildingSource);
  }

  /** A plan to create is carried out, or refused with nothing written. */
  lemma CreateExact(db: Db, b: nat, i: nat, next: Db)
    requires b < |db.batches| && i < |db.batches[b].records| && IsBusiness(db.batches[b].records[i])
    ensures ExecuteCreate(db, b, i) == Done(next) <==> Creates(db, next, b, i)
  {
    if ExecuteCreate(db, b, i) == Done(next) { CreateWrites(db, b, i); }
    if Creates(db, next, b, i) { CreatesOnly(db, next, b, i); }
  }

  lemma CreateWrites(db: Db, b: nat, i: nat)
    requires b < |db.batches| && i < |db.batches[b].records| && IsBusiness(db.batches[b].records[i])
    requires ExecuteCreate(db, b, i).Done?
    ensures Creates(db, ExecuteCreate(db, b, i).db, b, i)
  {
    var (batch, r, next) := (db.batches[b], db.batches[b].records[i], ExecuteCreate(db, b, i).db);
    var made := Made(batch, r);
    MadeExact(batch, r, made);
    SaveExact(db.objects, db.nextId, made);
    ObjectsAre(db, next, db.nextId, Tidied(made));
    RecordsAre(db, next, b, i, r.(state := Created, target := Some(db.nextId)));
    assert New(made, batch, r, PlaceOf(batch, r)) && Saves(db.objects, db.nextId, made, Tidied(made));
    assert OnlyObject(db, next, db.nextId, Tidied(made));
    assert Reached(db, next, b, i, db.nextId, Created);
  }

  lemma CreatesOnly(db: Db, next: Db, b: nat, i: nat)
    requires b < |db.batches| && i < |db.batches[b].records| && IsBusiness(db.batches[b].records[i])
    requires Creates(db, next, b, i)
    ensures ExecuteCreate(db, b, i) == Done(next)
  {
    var (batch, r) := (db.batches[b], db.batches[b].records[i]);
    var o, stored :| New(o, batch, r, PlaceOf(batch, r)) && Saves(db.objects, db.nextId, o, stored)
                     && OnlyObject(db, next, db.nextId, stored) && (r.kind.House? ==> o.building.Some?);
    MadeExact(batch, r, o);
    SaveExact(db.objects, db.nextId, o);
    ObjectsAre(db, next, db.nextId, stored);
    RecordsAre(db, next, b, i, r.(state := Created, target := Some(db.nextId)));
  }

  lemma ChangedExact(batch: Batch, r: Record, held: Object, o: Object)
    requires IsBusiness(r) && held.kind == r.kind
    ensures Changed(o, r, PlaceOf(batch, r), held) <==> o == Overwritten(batch, r, held)
  {
    BecameExact(batch, Building, r.buildingSource);
  }

  /** A plan to update is carried out on its object, or refused with nothing written. */
  lemma UpdateExact(db: Db, b: nat, i: nat, target: nat, next: Db)
    requires b < |db.batches| && i < |db.batches[b].records| && IsBusiness(db.batches[b].records[i])
    requires StillThere(db, db.batches[b], db.batches[b].records[i], target)
    ensures var ran := ExecuteExisting(db, b, i, Update, Some(target), db.batches[b].records[i].plan.targetVersion);
            ran == Done(next) <==> Updates(db, next, b, i, target)
  {
    if ExecuteExisting(db, b, i, Update, Some(target), db.batches[b].records[i].plan.targetVersion) == Done(next) {
      UpdateWrites(db, b, i, target);
    }
    if Updates(db, next, b, i, target) { UpdatesOnly(db, next, b, i, target); }
  }

  lemma UpdateWrites(db: Db, b: nat, i: nat, target: nat)
    requires b < |db.batches| && i < |db.batches[b].records| && IsBusiness(db.batches[b].records[i])
    requires StillThere(db, db.batches[b], db.batches[b].records[i], target)
    requires ExecuteExisting(db, b, i, Update, Some(target), db.batches[b].records[i].plan.targetVersion).Done?
    ensures Updates(db, ExecuteExisting(db, b, i, Update, Some(target), db.batches[b].records[i].plan.targetVersion).db,
                    b, i, target)
  {
    var (batch, r) := (db.batches[b], db.batches[b].records[i]);
    var next := ExecuteExisting(db, b, i, Update, Some(target), r.plan.targetVersion).db;
    var o := Overwritten(batch, r, db.objects[target]);
    ChangedExact(batch, r, db.objects[target], o);
    SaveExact(db.objects, target, o);
    ObjectsAre(db, next, target, Tidied(o));
    RecordsAre(db, next, b, i, r.(state := Updated, target := Some(target)));
    assert Changed(o, r, PlaceOf(batch, r), db.objects[target]) && Saves(db.objects, target, o, Tidied(o));
  }

  lemma UpdatesOnly(db: Db, next: Db, b: nat, i: nat, target: nat)
    requires b < |db.batches| && i < |db.batches[b].records| && IsBusiness(db.batches[b].records[i])
    requires StillThere(db, db.batches[b], db.batches[b].records[i], target) && Updates(db, next, b, i, target)
    ensures ExecuteExisting(db, b, i, Update, Some(target), db.batches[b].records[i].plan.targetVersion) == Done(next)
  {
    var (batch, r) := (db.batches[b], db.batches[b].records[i]);
    var o, stored :| Changed(o, r, PlaceOf(batch, r), db.objects[target]) && Saves(db.objects, target, o, stored)
                     && OnlyObject(db, next, target, stored) && (r.kind.House? ==> o.building.Some?);
    ChangedExact(batch, r, db.objects[target], o);
    SaveExact(db.objects, target, o);
    ObjectsAre(db, next, target, stored);
    RecordsAre(db, next, b, i, r.(state := Updated, target := Some(target)));
  }

  lemma RoleExact(objects: map<nat, Object>, id: nat, held: Object)
    requires held.kind.Landlord? && !held.landlordRole
    ensures Accepted(objects, id, WithRole(held)) <==>
              ValidAlone(held) && forall k :: k in objects && k != id ==> !ClashStored(objects[k], held)
  {
    var o := WithRole(held);
    SaveExact(objects, id, o);
    assert ValidAlone(o) <==> ValidAlone(held);
    forall k | k in objects && k != id ensures Clash(objects[k], Tidied(o)) <==> ClashStored(objects[k], held) {
    }
  }

  /** A plan to reuse or skip, or a stale one, leaves its object but for the role, or writes nothing. */
  lemma AdoptExact(db: Db, b: nat, i: nat, action: Action, target: nat, next: Db)
    requires b < |db.batches| && i < |db.batches[b].records| && IsBusiness(db.batches[b].records[i])
    requires action.Reuse? || action.Skip?
    requires target in db.objects && db.objects[target].kind == db.batches[b].records[i].kind
    requires db.objects[target].org == db.batches[b].org
    ensures ExecuteExisting(db, b, i, action, Some(target), Some(db.objects[target].version)) == Done(next) <==>
              Adopts(db, next, b, i, target, if action.Reuse? then Reused else Skipped)
  {
    var (r, held) := (db.batches[b].records[i], db.objects[target]);
    var state := if action.Reuse? then Reused else Skipped;
    RecordsAre(db, next, b, i, r.(state := state, target := Some(target)));
    if r.kind.Landlord? && !held.landlordRole {
      RoleExact(db.objects, target, held);
      ObjectsAre(db, next, target, WithRole(held));
    } else {
      assert db.objects[target := held] == db.objects;
    }
  }

  // ---- the other records ----

  predicate SameObjects(db: Db, next: Db) {
    next.objects == db.objects && next.created == db.created
  }

  /** The planned account is a member, and the staff record is bound to it. */
  predicate Binds(db: Db, next: Db, b: nat, i: nat, env: Env)
    requires b < |db.batches| && i < |db.batches[b].records|
  {
    match db.batches[b].records[i].plan.target
    case None => false
    case Some(user) =>
      && user in env.members && Reached(db, next, b, i, user, Reused)
      && SameObjects(db, next) && next.duties == db.duties && next.nextId == db.nextId
  }

  predicate IsLandlordOf(db: Db, id: nat, org: int) {
    id in db.objects && db.objects[id].kind.Landlord? && db.objects[id].org == org && db.objects[id].landlordRole
  }

  /** The planned account, a member, is responsible for what the landlord became, from now on or already. */
  ghost predicate Assigns(db: Db, next: Db, b: nat, i: nat, env: Env)
    requires b < |db.batches| && i < |db.batches[b].records|
  {
    var (batch, r) := (db.batches[b], db.batches[b].records[i]);
    match (r.plan.target, Became(batch.records, Landlord, r.landlordSource))
    case (Some(user), Some(landlord)) =>
      var duty := (batch.org, user, landlord);
      && user in env.members && SameObjects(db, next) && next.mappings == db.mappings
      && if duty in db.duties
         then && OnlyRecord(db, next, b, i, r.(state := Reused, target := Some(db.duties[duty])))
              && next.duties == db.duties && next.nextId == db.nextId
         else && IsLandlordOf(db, landlord, batch.org)
              && OnlyRecord(db, next, b, i, r.(state := Created, target := Some(db.nextId)))
              && next.duties == db.duties[duty := db.nextId] && next.nextId == db.nextId + 1
    case _ => false
  }

  predicate Archives(db: Db, next: Db, b: nat, i: nat)
    requires b < |db.batches| && i < |db.batches[b].records|
  {
    && OnlyRecord(db, next, b, i, db.batches[b].records[i].(state := Archived))
    && SameObjects(db, next) && next.mappings == db.mappings && next.duties == db.duties && next.nextId == db.nextId
  }

  lemma OtherExact(db: Db, b: nat, i: nat, env: Env, next: Db)
    requires b < |db.batches| && i < |db.batches[b].records|
    ensures var r := db.batches[b].records[i];
            ExecuteOther(db, b, i, env) == Done(next) <==>
              if r.kind.Staff? && r.plan.action.Reuse? then Binds(db, next, b, i, env)
              else if r.plan.action.Responsibility? then Assigns(db, next, b, i, env)
              else Archives(db, next, b, i)
  {
    var r := db.batches[b].records[i];
    if r.kind.Staff? && r.plan.action.Reuse? {
      if r.plan.target.Some? {
        RecordsAre(db, next, b, i, r.(state := Reused, target := r.plan.target));
      }
    } else if r.plan.action.Responsibility? {
      AssignExact(db, b, i, env, next);
    } else {
      RecordsAre(db, next, b, i, r.(state := Archived));
    }
  }

  lemma AssignExact(db: Db, b: nat, i: nat, env: Env, next: Db)
    requires b < |db.batches| && i < |db.batches[b].records| && db.batches[b].records[i].plan.action.Responsibility?
    ensures ExecuteOther(db, b, i, env) == Done(next) <==> Assigns(db, next, b, i, env)
  {
    var (batch, r) := (db.batches[b], db.batches[b].records[i]);
    BecameExact(batch, Landlord, r.landlordSource);
    RecordsAre(db, next, b, i, r.(state := Created, target := Some(db.nextId)));
    var landlord := Became(batch.records, Landlord, r.landlordSource);
    if r.plan.target.Some? && landlord.Some? && (batch.org, r.plan.target.value, landlord.value) in db.duties {
      var held := db.duties[(batch.org, r.plan.target.value, landlord.value)];
      RecordsAre(db, next, b, i, r.(state := Reused, target := Some(held)));
    }
  }

  // ---- one record ----

  predicate Usable(db: Db, batch: Batch, r: Record, target: nat) {
    target in db.objects && db.objects[target].kind == r.kind && db.objects[target].org == batch.org
  }

  /**
   While its source is mapped as planned, a record does what its plan says. A plan to
   create whose source got mapped since, with the same content, skips onto that
   object instead; any other plan of such a source does nothing.
   */
  ghost predicate BusinessDone(db: Db, next: Db, b: nat, i: nat)
    requires b < |db.batches| && i < |db.batches[b].records|
  {
    var (batch, r) := (db.batches[b], db.batches[b].records[i]);
    if !MappedAsPlanned(db, batch, r) then
      && r.plan.action.Create? && SourceId(batch, r) in db.mappings
      && db.mappings[SourceId(batch, r)].sourceHash == r.hash
      && Usable(db, batch, r, db.mappings[SourceId(batch, r)].target)
      && Adopts(db, next, b, i, db.mappings[SourceId(batch, r)].target, Skipped)
    else if r.plan.action.Create? then Creates(db, next, b, i)
    else match r.plan.target
      case None => false
      case Some(target) =>
        && StillThere(db, batch, r, target)
        && match r.plan.action
           case Update => Updates(db, next, b, i, target)
           case Reuse => Adopts(db, next, b, i, target, Reused)
           case _ => Adopts(db, next, b, i, target, Skipped)
  }

  lemma BusinessExact(db: Db, b: nat, i: nat, next: Db)
    requires b < |db.batches| && i < |db.batches[b].records| && IsBusiness(db.batches[b].records[i])
    ensures ExecuteBusiness(db, b, i) == Done(next) <==> BusinessDone(db, next, b, i)
  {
    var (batch, r) := (db.batches[b], db.batches[b].records[i]);
    if !MappedAsPlanned(db, batch, r) {
      var id := SourceId(batch, r);
      if id in db.mappings && Usable(db, batch, r, db.mappings[id].target) {
        AdoptExact(db, b, i, Skip, db.mappings[id].target, next);
      }
    } else if r.plan.action.Create? {
      CreateExact(db, b, i, next);
    } else if r.plan.target.Some? && StillThere(db, batch, r, r.plan.target.value) {
      if r.plan.action.Update? {
        UpdateExact(db, b, i, r.plan.target.value, next);
      } else {
        AdoptExact(db, b, i, r.plan.action, r.plan.target.value, next);
      }
    }
  }

  /**
   A record is executed under the batch's token only. A finished one is left alone; any
   other does all of what its kind and plan say, or nothing.
   */
  lemma ExecutionExact(db: Db, b: nat, i: nat, token: nat, env: Env, next: Db)
    requires b < |db.batches| && i < |db.batches[b].records|
    ensures var (r, ran) := (db.batches[b].records[i], ExecuteRecord(db, b, i, token, env));
            && (ran == LeaseLost <==> db.batches[b].token != Some(token))
            && (ran == Done(next) <==>
                  && db.batches[b].token == Some(token)
                  && if r.state !in {RecordState.Pending, Failed} then next == db
                     else if IsBusiness(r) then BusinessDone(db, next, b, i)
                     else if r.kind.Staff? && r.plan.action.Reuse? then Binds(db, next, b, i, env)
                     else if r.plan.action.Responsibility? then Assigns(db, next, b, i, env)
                     else Archives(db, next, b, i))
  {
    var r := db.batches[b].records[i];
    if IsBusiness(r) { BusinessExact(db, b, i, next); } else { OtherExact(db, b, i, env, next); }
  }
}
