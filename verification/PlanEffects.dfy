/**
 What a preview plans for each record and which records it takes issue with, said
 through the tables and the operator's choices themselves.
 */
module PlanEffects {
  import opened Wrappers
  import opened Migration
  import opened MigrationSteps
  import opened MigrationProofs
  import opened ExecutionEffects

  // ---- what a record is planned on ----

  /** The id the operator chose for the source, else the one it is mapped to; 0 is none, or a new object. */
  function Wanted(db: Db, batch: Batch, d: Decisions, r: Record): int {
    if (r.kind, r.source) in d.mappings then d.mappings[(r.kind, r.source)]
    else if SourceId(batch, r) in db.mappings then db.mappings[SourceId(batch, r)].target
    else 0
  }

  /** The wanted object, while it is one of the kind and organization. */
  predicate Targets(db: Db, batch: Batch, d: Decisions, r: Record, target: nat) {
    target > 0 && Wanted(db, batch, d, r) == target && Usable(db, batch, r, target)
  }

  predicate Untargeted(db: Db, batch: Batch, d: Decisions, r: Record) {
    forall k :: k in db.objects ==> !Targets(db, batch, d, r, k)
  }

  /** The plan names the record's object, if it has one. */
  predicate TargetOf(db: Db, batch: Batch, d: Decisions, r: Record, target: Option<nat>) {
    match target
    case None => Untargeted(db, batch, d, r)
    case Some(t) => Targets(db, batch, d, r, t)
  }

  lemma TargetExact(db: Db, batch: Batch, d: Decisions, r: Record, target: Option<nat>)
    ensures PlannedTarget(db, batch, d, r) == target <==> TargetOf(db, batch, d, r, target)
  {
    assert Wanted(db, batch, d, r) == WantedTarget(db, batch, d, r);
    var found := PlannedTarget(db, batch, d, r);
    if found.Some? { assert Targets(db, batch, d, r, found.value); }
  }

  // ---- values and references ----

  predicate Supplied(d: Decisions, r: Record, extra: Extra) {
    if (r.kind, r.source) in d.extras then extra == d.extras[(r.kind, r.source)]
    else extra == Extra(None, 0, Unsaid, None, None, None, false)
  }

  /** Each value is the operator's where one was given, else that of the source. */
  predicate Merged(values: Values, r: Record, extra: Extra) {
    && (match extra.name case Some(t) => values.name == t case None => values.name == r.values.name)
    && (match extra.detail case Some(t) => values.detail == t case None => values.detail == r.values.detail)
    && (match extra.listed case Some(on) => values.listed == on case None => values.listed == r.values.listed)
  }

  /** The first record of the source, if it was not deleted there. */
  predicate Source(records: seq<Record>, kind: EntityKind, source: int, j: nat) {
    source != 0 && FirstOf(records, kind, source, j) && !records[j].deleted
  }

  ghost predicate NoSource(records: seq<Record>, kind: EntityKind, source: int) {
    forall j: nat :: !Source(records, kind, source, j)
  }

  /** A house goes to the building the operator chose, else to the one its source building is planned on. */
  ghost predicate Placed(db: Db, batch: Batch, d: Decisions, r: Record, extra: Extra, building: Option<nat>,
                         issue: bool) {
    if extra.building != 0 then
      && building == Some(extra.building)
      && issue == !(extra.building in db.objects && db.objects[extra.building].kind.Building?
                    && db.objects[extra.building].org == batch.org)
    else
      && (NoSource(batch.records, Building, r.buildingSource) ==> building == None && issue)
      && forall j: nat :: Source(batch.records, Building, r.buildingSource, j) ==>
           !issue && TargetOf(db, batch, d, batch.records[j], building)
  }

  /**
   Its landlord is the operator's choice, else the one its source landlord is planned
   on, else whoever it has; a choice of nobody clears it.
   */
  ghost predicate Linked(db: Db, batch: Batch, d: Decisions, r: Record, extra: Extra, link: LandlordLink, issue: bool) {
    match extra.landlord
    case NoLandlord => link == SetLink(None) && !issue
    case ChosenLandlord(id) =>
      if id != 0 then link == SetLink(Some(id)) && issue == !IsLandlordOf(db, id, batch.org)
      else if r.landlordSource != 0 then LinkedBySource(db, batch, d, r, link, issue)
      else link == SetLink(Some(0)) && !issue
    case Unsaid =>
      if r.landlordSource != 0 then LinkedBySource(db, batch, d, r, link, issue) else link == KeepLink && !issue
  }

  ghost predicate LinkedBySource(db: Db, batch: Batch, d: Decisions, r: Record, link: LandlordLink, issue: bool) {
    && (NoSource(batch.records, Landlord, r.landlordSource) ==> link == KeepLink && issue)
    && forall j: nat :: Source(batch.records, Landlord, r.landlordSource, j) ==>
         !issue && link.SetLink? && TargetOf(db, batch, d, batch.records[j], link.landlord)
  }

  lemma SourceExact(records: seq<Record>, kind: EntityKind, source: int, found: Option<nat>)
    requires found == FindFrom(records, kind, source, 0)
    ensures forall j: nat :: Source(records, kind, source, j) ==> found == Some(j)
    ensures source != 0 && found.Some? && !records[found.value].deleted ==> Source(records, kind, source, found.value)
  {
    FindExact(records, kind, source, 0);
  }

  lemma PlaceExact(db: Db, batch: Batch, d: Decisions, r: Record, extra: Extra, building: Option<nat>, issue: bool)
    requires Supplied(d, r, extra)
    ensures PlannedBuilding(db, batch, d, r) == (building, issue) <==> Placed(db, batch, d, r, extra, building, issue)
  {
    assert extra == ExtraFor(d, r);
    var found := FindFrom(batch.records, Building, r.buildingSource, 0);
    SourceExact(batch.records, Building, r.buildingSource, found);
    if found.Some? { TargetExact(db, batch, d, batch.records[found.value], building); }
  }

  lemma LinkExact(db: Db, batch: Batch, d: Decisions, r: Record, extra: Extra, link: LandlordLink, issue: bool)
    requires Supplied(d, r, extra)
    ensures PlannedLandlord(db, batch, d, r) == (link, issue) <==> Linked(db, batch, d, r, extra, link, issue)
  {
    assert extra == ExtraFor(d, r);
    var found := FindFrom(batch.records, Landlord, r.landlordSource, 0);
    SourceExact(batch.records, Landlord, r.landlordSource, found);
    if found.Some? && link.SetLink? { TargetExact(db, batch, d, batch.records[found.value], link.landlord); }
  }

  // ---- business records ----

  /** The plan for an object that was imported with this content before, and about which nothing was said. */
  predicate Unchanged(db: Db, batch: Batch, r: Record, extra: Extra) {
    && SourceId(batch, r) in db.mappings && db.mappings[SourceId(batch, r)].sourceHash == r.hash
    && extra == Extra(None, 0, Unsaid, None, None, None, false)
  }

  predicate Incomplete(kind: EntityKind, values: Values) {
    values.name == Text(0, 0, 0) || (kind.Landlord? && values.detail == Text(0, 0, 0))
  }

  /** The object's version and the source's mapping are kept with the plan. */
  predicate Dated(db: Db, batch: Batch, r: Record, plan: Plan) {
    && plan.targetVersion == (match plan.target
                              case Some(t) => if t in db.objects then Some(db.objects[t].version) else None
                              case None => None)
    && plan.mappingVersion == if SourceId(batch, r) in db.mappings then Some(db.mappings[SourceId(batch, r)]) else None
  }

  /** The content changed since it was imported, and the operator neither said what to do nor chose the object. */
  predicate Undecided(db: Db, batch: Batch, d: Decisions, r: Record, extra: Extra) {
    && SourceId(batch, r) in db.mappings && db.mappings[SourceId(batch, r)].sourceHash != r.hash
    && extra.action.None? && (r.kind, r.source) !in d.mappings
  }

  /**
   The plan and the issue of a business record: a wanted object is skipped if nothing
   changed, updated if the operator said so, and kept otherwise; else a new one is created.
   */
  ghost predicate BusinessPlan(db: Db, batch: Batch, d: Decisions, r: Record, extra: Extra, invalid: bool,
                               duplicate: bool, plan: Plan, issue: bool) {
    && TargetOf(db, batch, d, r, plan.target) && Dated(db, batch, r, plan)
    && if plan.target.Some? && Unchanged(db, batch, r, extra)
       then plan.action.Skip? && plan.building == None && plan.landlord == KeepLink && plan.fields == None && !issue
       else exists adrift, unknown :: Written(db, batch, d, r, extra, invalid, duplicate, plan, issue, adrift, unknown)
  }

  ghost predicate Written(db: Db, batch: Batch, d: Decisions, r: Record, extra: Extra, invalid: bool, duplicate: bool,
                          plan: Plan, issue: bool, adrift: bool, unknown: bool) {
    && plan.fields.Some? && plan.fields.value.hash == r.hash && plan.fields.value.extra == extra
    && Merged(plan.fields.value.values, r, extra)
    && (if r.kind.House?
        then && Placed(db, batch, d, r, extra, plan.building, adrift)
             && Linked(db, batch, d, r, extra, plan.landlord, unknown)
        else plan.building == None && plan.landlord == KeepLink && !adrift && !unknown)
    && var wrong := invalid || Incomplete(r.kind, plan.fields.value.values);
    if plan.target.Some?
    then && plan.action == (if extra.action == Some(TakeUpdate) then Update else Reuse)
         && issue == (Undecided(db, batch, d, r, extra) || extra.action == Some(Unclear) || adrift || unknown
                      || (plan.action.Update? && wrong))
    else && plan.action.Create?
         && issue == (Wanted(db, batch, d, r) != 0 || adrift || unknown || wrong || duplicate)
  }

  predicate PlansBusiness(r: Record) {
    !r.deleted && (r.kind.Landlord? || r.kind.Building? || r.kind.House?)
  }

  lemma BusinessPlanned(db: Db, batch: Batch, d: Decisions, r: Record, extra: Extra, invalid: bool, duplicate: bool)
    requires Supplied(d, r, extra) && PlansBusiness(r)
    ensures var finding := BusinessFinding(db, batch, d, r, invalid, duplicate);
            BusinessPlan(db, batch, d, r, extra, invalid, duplicate, finding.plan, finding.issue)
  {
    var finding := BusinessFinding(db, batch, d, r, invalid, duplicate);
    var (plan, issue) := (finding.plan, finding.issue);
    assert extra == ExtraFor(d, r) && Wanted(db, batch, d, r) == WantedTarget(db, batch, d, r);
    TargetExact(db, batch, d, r, plan.target);
    if !(plan.target.Some? && Unchanged(db, batch, r, extra)) {
      var adrift, unknown := WrittenPlanned(db, batch, d, r, extra, invalid, duplicate);
      assert Written(db, batch, d, r, extra, invalid, duplicate, plan, issue, adrift, unknown);
    }
  }

  lemma WrittenPlanned(db: Db, batch: Batch, d: Decisions, r: Record, extra: Extra, invalid: bool, duplicate: bool)
    returns (adrift: bool, unknown: bool)
    requires Supplied(d, r, extra) && PlansBusiness(r)
    requires BusinessFinding(db, batch, d, r, invalid, duplicate).plan.target.None? || !Unchanged(db, batch, r, extra)
    ensures Written(db, batch, d, r, extra, invalid, duplicate,
                    BusinessFinding(db, batch, d, r, invalid, duplicate).plan,
                    BusinessFinding(db, batch, d, r, invalid, duplicate).issue, adrift, unknown)
  {
    assert extra == ExtraFor(d, r) && Wanted(db, batch, d, r) == WantedTarget(db, batch, d, r);
    adrift, unknown := false, false;
    if r.kind == House {
      var (building, link) := (PlannedBuilding(db, batch, d, r), PlannedLandlord(db, batch, d, r));
      PlaceExact(db, batch, d, r, extra, building.0, building.1);
      LinkExact(db, batch, d, r, extra, link.0, link.1);
      adrift, unknown := building.1, link.1;
    }
  }

  // ---- duplicates ----

  /** An object of the organization, with the building it is planned for, looks like what the record would create. */
  predicate LooksAlike(o: Object, batch: Batch, r: Record, values: Values, building: Option<nat>) {
    && o.kind == r.kind && o.org == batch.org && o.values.name == values.name
    && match r.kind
       case Landlord => o.values.detail.core == values.detail.core
       case Building => o.values.detail == values.detail && o.rest.estate == None
       case _ => building.Some? && o.building == building
  }

  /** Two records that would write the same: phone numbers compare by their digits, houses by where they will stand. */
  predicate WriteAlike(r: Record, v: Values, place: Option<nat>, s: Record, w: Values, other: Option<nat>) {
    && r.kind == s.kind && v.name == w.name
    && match r.kind
       case Landlord => v.detail.core == w.detail.core
       case Building => v.detail == w.detail
       case _ => place == other && (place.None? ==> r.buildingSource == s.buildingSource)
  }

  /** The record writes what its plan says. */
  predicate Writes(r: Record, plan: Plan) {
    PlansBusiness(r) && (plan.action.Create? || plan.action.Update?) && plan.fields.Some?
  }

  predicate AlikeBefore(batch: Batch, plans: seq<Plan>, i: nat, j: nat)
    requires i < |batch.records| == |plans| && plans[i].fields.Some? && j < i
  {
    && Writes(batch.records[j], plans[j])
    && WriteAlike(batch.records[i], plans[i].fields.value.values, plans[i].building,
                  batch.records[j], plans[j].fields.value.values, plans[j].building)
  }

  /** What record i would create is there already, or an earlier record of the package writes it. */
  predicate Doubled(db: Db, batch: Batch, plans: seq<Plan>, i: nat)
    requires i < |batch.records| == |plans| && plans[i].fields.Some?
  {
    || (exists k :: k in db.objects
                    && LooksAlike(db.objects[k], batch, batch.records[i], plans[i].fields.value.values,
                                  plans[i].building))
    || exists j :: 0 <= j < i && AlikeBefore(batch, plans, i, j)
  }

  /** These are the plans of the business records; no plan depends on its issues. */
  predicate PlansAre(db: Db, batch: Batch, d: Decisions, plans: seq<Plan>) {
    && |plans| == |batch.records|
    && forall j :: 0 <= j < |plans| && PlansBusiness(batch.records[j]) ==>
         plans[j] == BusinessFinding(db, batch, d, batch.records[j], false, false).plan
  }

  lemma {:induction false} KeysExact(db: Db, batch: Batch, d: Decisions, n: nat, key: PackageKey)
    requires n <= |batch.records|
    ensures key in WrittenKeys(db, batch, d, n) <==>
              exists j :: 0 <= j < n && WrittenKey(db, batch, d, batch.records[j]) == Some(key)
  {
    if n > 0 { KeysExact(db, batch, d, n - 1, key); }
  }

  lemma WrittenExact(db: Db, batch: Batch, d: Decisions, plans: seq<Plan>, j: nat)
    requires PlansAre(db, batch, d, plans) && j < |plans|
    ensures WrittenKey(db, batch, d, batch.records[j])
         == if Writes(batch.records[j], plans[j])
            then Some(PackageKeyOf(batch.records[j], plans[j].fields.value.values, plans[j].building))
            else None
  {
  }

  lemma SameKey(r: Record, v: Values, place: Option<nat>, s: Record, w: Values, other: Option<nat>)
    requires PlansBusiness(r) && PlansBusiness(s)
    ensures PackageKeyOf(r, v, place) == PackageKeyOf(s, w, other) <==> WriteAlike(r, v, place, s, w, other)
  {
  }

  lemma AlikeExact(db: Db, batch: Batch, d: Decisions, plans: seq<Plan>, i: nat, j: nat)
    requires PlansAre(db, batch, d, plans) && j < i < |plans| && Writes(batch.records[i], plans[i])
    ensures var key := WrittenKey(db, batch, d, batch.records[i]);
            key.Some? && (WrittenKey(db, batch, d, batch.records[j]) == key <==> AlikeBefore(batch, plans, i, j))
  {
    WrittenExact(db, batch, d, plans, i);
    WrittenExact(db, batch, d, plans, j);
    if Writes(batch.records[j], plans[j]) {
      SameKey(batch.records[i], plans[i].fields.value.values, plans[i].building,
              batch.records[j], plans[j].fields.value.values, plans[j].building);
    }
  }

  lemma DoubledExact(db: Db, batch: Batch, d: Decisions, plans: seq<Plan>, i: nat)
    requires PlansAre(db, batch, d, plans) && i < |plans| && Writes(batch.records[i], plans[i])
    ensures Duplicate(db, batch, d, i) <==> Doubled(db, batch, plans, i)
  {
    var key := WrittenKey(db, batch, d, batch.records[i]);
    assert key.Some?;
    KeysExact(db, batch, d, i, key.value);
    forall j | 0 <= j < i
      ensures WrittenKey(db, batch, d, batch.records[j]) == key <==> AlikeBefore(batch, plans, i, j)
    {
      AlikeExact(db, batch, d, plans, i, j);
    }
  }

  // ---- staff and relations ----

  const ARCHIVED := Plan(Archive, None, None, None, None, KeepLink, None)

  /** The account chosen for a staff record, else the one its source is bound to; 0 is none. */
  function AccountOf(db: Db, batch: Batch, d: Decisions, r: Record): nat {
    if r.source in d.members then d.members[r.source]
    else if SourceId(batch, r) in db.mappings then db.mappings[SourceId(batch, r)].target
    else 0
  }

  /** Staff are bound to members only, and a binding that was carried out cannot be moved. */
  predicate StaffPlan(db: Db, batch: Batch, d: Decisions, r: Record, env: Env, plan: Plan, issue: bool) {
    var user := AccountOf(db, batch, d, r);
    var moved := r.state.Reused? && r.target != Some(user);
    if user != 0 && user in env.members
    then plan == Plan(Reuse, Some(user), None, None, None, KeepLink, None) && issue == moved
    else plan == ARCHIVED && issue == (moved || user != 0)
  }

  /** The relation is between a staff record bound to this member and a landlord record of the package. */
  predicate Relates(db: Db, batch: Batch, d: Decisions, r: Record, env: Env, staff: nat, landlord: nat) {
    && FirstOf(batch.records, Staff, r.staffSource, staff) && !batch.records[staff].deleted
    && FirstOf(batch.records, Landlord, r.landlordSource, landlord)
    && AccountOf(db, batch, d, batch.records[staff]) != 0
    && AccountOf(db, batch, d, batch.records[staff]) in env.members
  }

  /** Such a relation becomes a responsibility; any other is archived. */
  ghost predicate RelationPlan(db: Db, batch: Batch, d: Decisions, r: Record, env: Env, plan: Plan) {
    && (forall s: nat, l: nat :: Relates(db, batch, d, r, env, s, l) ==>
          plan == Plan(Responsibility, Some(AccountOf(db, batch, d, batch.records[s])), None, None, None, KeepLink,
                       None))
    && ((forall s: nat, l: nat :: !Relates(db, batch, d, r, env, s, l)) ==> plan == ARCHIVED)
  }

  lemma RelationPlanned(db: Db, batch: Batch, d: Decisions, r: Record, env: Env)
    ensures RelationPlan(db, batch, d, r, env, RelationFinding(db, batch, d, r, env).plan)
    ensures !RelationFinding(db, batch, d, r, env).issue
  {
    FindExact(batch.records, Staff, r.staffSource, 0);
    FindExact(batch.records, Landlord, r.landlordSource, 0);
    var s := FindFrom(batch.records, Staff, r.staffSource, 0);
    var l := FindFrom(batch.records, Landlord, r.landlordSource, 0);
    if s.Some? {
      assert AccountOf(db, batch, d, batch.records[s.value]) == StaffUser(db, batch, d, batch.records[s.value]);
      if l.Some? && RelationFinding(db, batch, d, r, env).plan.action.Responsibility? {
        assert Relates(db, batch, d, r, env, s.value, l.value);
      }
    }
  }

  // ---- any record ----

  ghost predicate PlanFits(db: Db, batch: Batch, d: Decisions, env: Env, plans: seq<Plan>, i: nat, issue: bool)
    requires i < |batch.records| == |plans|
  {
    var (r, plan) := (batch.records[i], plans[i]);
    if r.deleted || r.kind.Team? || r.kind.Other? then plan == ARCHIVED && !issue
    else if r.kind.Staff? then StaffPlan(db, batch, d, r, env, plan, issue)
    else if r.kind.Relation? then RelationPlan(db, batch, d, r, env, plan) && !issue
    else exists extra, duplicate ::
           && Supplied(d, r, extra) && BusinessPlan(db, batch, d, r, extra, i in env.invalid, duplicate, plan, issue)
           && (plan.action.Create? && plan.fields.Some? ==> duplicate == Doubled(db, batch, plans, i))
  }

  lemma FindingExact(db: Db, batch: Batch, d: Decisions, env: Env, plans: seq<Plan>, i: nat)
    requires PlansAre(db, batch, d, plans) && i < |plans| && plans[i] == FindingFor(db, batch, d, i, env).plan
    ensures PlanFits(db, batch, d, env, plans, i, FindingFor(db, batch, d, i, env).issue)
  {
    var r := batch.records[i];
    if PlansBusiness(r) {
      var (extra, duplicate) := (ExtraFor(d, r), Duplicate(db, batch, d, i));
      BusinessPlanned(db, batch, d, r, extra, i in env.invalid, duplicate);
      if Writes(r, plans[i]) { DoubledExact(db, batch, d, plans, i); }
      assert Supplied(d, r, extra);
    } else if r.kind.Relation? {
      RelationPlanned(db, batch, d, r, env);
    }
  }

  /** A staff record of the source is bound by its plan. */
  predicate BoundHere(records: seq<Record>, plans: seq<Plan>, source: int, j: nat)
    requires |plans| == |records|
  {
    && j < |records| && records[j].kind.Staff? && records[j].source == source
    && plans[j].action.Reuse? && plans[j].target.Some?
  }

  predicate BoundFirst(records: seq<Record>, plans: seq<Plan>, source: int, j: nat)
    requires |plans| == |records|
  {
    BoundHere(records, plans, source, j) && forall k: nat :: k < j ==> !BoundHere(records, plans, source, k)
  }

  /** Choices made stay; each other source that some of the first n records bind becomes one, by the first of them. */
  ghost predicate Bound(records: seq<Record>, plans: seq<Plan>, n: nat, before: map<int, nat>, after: map<int, nat>)
    requires |plans| == |records|
  {
    && (forall s :: s in before ==> s in after && after[s] == before[s])
    && (forall s :: s in after && s !in before ==> exists j: nat :: j < n && BoundFirst(records, plans, s, j))
    && forall s, j: nat :: s !in before && j < n && BoundFirst(records, plans, s, j) ==>
         s in after && Some(after[s]) == plans[j].target
  }

  /** The n-th record binds its source unless it is bound. */
  predicate BindsNext(records: seq<Record>, plans: seq<Plan>, bound: map<int, nat>, n: nat, next: map<int, nat>)
    requires n < |records| == |plans|
  {
    next == if BoundHere(records, plans, records[n].source, n) && records[n].source !in bound
            then bound[records[n].source := plans[n].target.value] else bound
  }

  lemma FirstBound(records: seq<Record>, plans: seq<Plan>, source: int, j: nat) returns (first: nat)
    requires |plans| == |records| && BoundHere(records, plans, source, j)
    ensures first <= j && BoundFirst(records, plans, source, first)
  {
    first := 0;
    while !BoundHere(records, plans, source, first)
      invariant first <= j && forall k: nat :: k < first ==> !BoundHere(records, plans, source, k)
      decreases j - first
    {
      first := first + 1;
    }
  }

  lemma BindOne(records: seq<Record>, plans: seq<Plan>, before: map<int, nat>, bound: map<int, nat>, n: nat,
                next: map<int, nat>)
    requires n < |records| == |plans| && Bound(records, plans, n, before, bound)
    requires BindsNext(records, plans, bound, n, next)
    ensures Bound(records, plans, n + 1, before, next)
  {
    var source := records[n].source;
    if BoundHere(records, plans, source, n) && source !in bound {
      var first := FirstBound(records, plans, source, n);
      assert first == n;
    }
  }

  lemma {:induction false} BoundByAll(records: seq<Record>, plans: seq<Plan>, bounds: seq<map<int, nat>>, n: nat)
    requires |plans| == |records| && n <= |records| && |bounds| == |records| + 1
    requires forall k :: 0 <= k < |records| ==> BindsNext(records, plans, bounds[k], k, bounds[k + 1])
    ensures Bound(records, plans, n, bounds[0], bounds[n])
  {
    if n > 0 {
      BoundByAll(records, plans, bounds, n - 1);
      BindOne(records, plans, bounds[0], bounds[n - 1], n - 1, bounds[n]);
    }
  }

  lemma BoundExact(db: Db, batch: Batch, d: Decisions, env: Env, plans: seq<Plan>)
    requires |plans| == |batch.records|
    requires forall j :: 0 <= j < |plans| ==> plans[j] == FindingFor(db, batch, d, j, env).plan
    ensures Bound(batch.records, plans, |plans|, d.members, BoundMembers(db, batch, d, env, |plans|))
  {
    var n := |plans|;
    var bounds := seq(n + 1, k requires 0 <= k <= n => BoundMembers(db, batch, d, env, k));
    forall k | 0 <= k < n ensures BindsNext(batch.records, plans, bounds[k], k, bounds[k + 1]) {
      BindingStep(db, batch, d, env, plans, k);
    }
    BoundByAll(batch.records, plans, bounds, n);
  }

  lemma BindingStep(db: Db, batch: Batch, d: Decisions, env: Env, plans: seq<Plan>, n: nat)
    requires n < |batch.records| == |plans| && plans[n] == FindingFor(db, batch, d, n, env).plan
    ensures BindsNext(batch.records, plans, BoundMembers(db, batch, d, env, n), n,
                      BoundMembers(db, batch, d, env, n + 1))
  {
  }

  /** A bound or related record that had been archived is open again. */
  predicate Replans(before: Record, after: Record) {
    var reopened := && before.state.Archived? && (after.plan.action.Reuse? || after.plan.action.Responsibility?)
                    && (before.kind.Staff? || before.kind.Relation?);
    after == before.(plan := after.plan, state := if reopened then RecordState.Pending else before.state)
  }

  /**
   A preview gives every record its plan, makes bindings choices, and states them all
   as its version; it blocks the batch exactly when a record has an issue or the
   package is incomplete, and changes nothing else of it.
   */
  lemma PreviewExact(db: Db, batch: Batch, d: Decisions, env: Env) returns (issues: seq<bool>)
    ensures var after := Previewed(db, batch, d, env);
            && |issues| == |batch.records| == |after.records|
            && (forall i :: 0 <= i < |issues| ==>
                  && Replans(batch.records[i], after.records[i])
                  && PlanFits(db, batch, d, env, Plans(after.records), i, issues[i]))
            && Bound(batch.records, Plans(after.records), |batch.records|, d.members, after.decisions.members)
            && after.decisions == Decisions(d.mappings, d.extras, after.decisions.members)
            && after.preview == Some(Preview(Version(Plans(after.records), Hashes(batch.records), after.decisions,
                                                     env.members),
                                             true in issues || !batch.complete))
            && after.status == (if true in issues || !batch.complete then Blocked else Awaiting)
            && after == batch.(records := after.records, decisions := after.decisions, preview := after.preview,
                               status := after.status)
  {
    var n := |batch.records|;
    var records := PlannedRecords(db, batch, d, env, n);
    var plans := Plans(records);
    PlansFound(db, batch, d, env);
    issues := seq(n, i requires 0 <= i < n => FindingFor(db, batch, d, i, env).issue);
    forall i | 0 <= i < n
      ensures Replans(batch.records[i], records[i]) && PlanFits(db, batch, d, env, plans, i, issues[i])
    {
      FindingExact(db, batch, d, env, plans, i);
    }
    BoundExact(db, batch, d, env, plans);
    IssueExact(db, batch, d, env, n, issues);
  }

  lemma PlansFound(db: Db, batch: Batch, d: Decisions, env: Env)
    ensures var records := PlannedRecords(db, batch, d, env, |batch.records|);
            && |records| == |batch.records| && Hashes(records) == Hashes(batch.records)
            && PlansAre(db, batch, d, Plans(records))
            && forall i :: 0 <= i < |records| ==>
                 && Replans(batch.records[i], records[i])
                 && Plans(records)[i] == FindingFor(db, batch, d, i, env).plan
  {
    PlannedRecordsAt(db, batch, d, env, |batch.records|);
  }

  lemma {:induction false} IssueExact(db: Db, batch: Batch, d: Decisions, env: Env, n: nat, issues: seq<bool>)
    requires n <= |batch.records| == |issues|
    requires forall i :: 0 <= i < |issues| ==> issues[i] == FindingFor(db, batch, d, i, env).issue
    ensures AnyIssue(db, batch, d, env, n) <==> true in issues[..n]
    ensures issues[..|issues|] == issues
  {
    if n > 0 {
      IssueExact(db, batch, d, env, n - 1, issues);
      assert issues[..n] == issues[..n - 1] + [issues[n - 1]];
    }
  }
}
