/** The tables of a data migration, and what planning and executing one record do. */
module Migration {
  import opened Wrappers

  datatype EntityKind = Team | Staff | Landlord | Building | House | Relation | Other

  /** The kinds that become objects of the organization. */
  predicate Business(kind: EntityKind) {
    kind == Landlord || kind == Building || kind == House
  }

  datatype RecordState = Pending | Created | Updated | Reused | Skipped | Archived | Failed

  predicate Final(state: RecordState) {
    state != Pending && state != Failed
  }

  datatype Action = Create | Update | Reuse | Skip | Archive | Responsibility

  /** Which object a source record stands for, and the content it was imported with. */
  datatype Mapping = Mapping(target: nat, sourceHash: int)

  /**
   A text, by what a loose comparison keeps of it (of a phone number, its digits),
   how that is written, and the superfluous space, which a save removes.
   */
  datatype Text = Text(core: int, form: int, space: int)

  const NO_TEXT := Text(0, 0, 0)

  function Tidy(t: Text): Text { t.(space := 0) }

  /** What the code compares or checks: name or room number, phone number or address, whether a house is listed. */
  datatype Values = Values(name: Text, detail: Text, listed: bool)

  /**
   The field values a plan writes: the ones above, and the others named by what
   they are computed from, the source content and the operator's additions.
   */
  datatype Fields = Fields(hash: int, extra: Extra, values: Values)

  /** The landlord a plan gives a house, if it says anything about it. */
  datatype LandlordLink = KeepLink | SetLink(landlord: Option<nat>)

  datatype Plan = Plan(
    action: Action, target: Option<nat>, targetVersion: Option<nat>, mappingVersion: Option<Mapping>,
    building: Option<nat>, landlord: LandlordLink, fields: Option<Fields>)

  const ARCHIVE_PLAN := Plan(Archive, None, None, None, None, KeepLink, None)

  /** References are source identifiers; 0 is none. */
  datatype Record = Record(
    kind: EntityKind, source: int, hash: int, deleted: bool, buildingSource: int, staffSource: int, landlordSource: int,
    values: Values, state: RecordState, target: Option<nat>, plan: Plan)

  /** A batch after its package was read. */
  datatype Status = Blocked | Awaiting | Importing | Completed | PartialFailed

  datatype MigrationAction = Keep | TakeUpdate | Unclear
  datatype LandlordChoice = Unsaid | NoLandlord | ChosenLandlord(id: nat)

  /** The operator's additions for one record. */
  datatype Extra = Extra(action: Option<MigrationAction>, building: nat, landlord: LandlordChoice,
                         name: Option<Text>, detail: Option<Text>, listed: Option<bool>, otherFields: bool)

  const NO_EXTRA := Extra(None, 0, Unsaid, None, None, None, false)

  /** The operator's choices, by kind and source. A mapping to 0 asks for a new object. */
  datatype Decisions = Decisions(mappings: map<(EntityKind, int), int>, extras: map<(EntityKind, int), Extra>,
                                 members: map<int, nat>)

  /** Everything the content hash of a preview covers. */
  datatype Version = Version(plans: seq<Plan>, hashes: seq<int>, decisions: Decisions, members: set<nat>)
  datatype Preview = Preview(version: Version, issues: bool)

  datatype Summary = Summary(created: nat, updated: nat, reused: nat, skipped: nat, archived: nat, failed: nat,
                             pending: nat, total: nat)

  datatype Batch = Batch(
    org: int, source: int, complete: bool, status: Status, token: Option<nat>, heartbeat: int,
    preview: Option<Preview>, decisions: Decisions, records: seq<Record>, summary: Option<Summary>)

  /** Field values by how they came about: given by someone, or planned values laid over earlier ones. */
  datatype Content = Given(token: int) | Overlaid(under: Content, fields: Option<Fields>)

  const BLANK_CONTENT := Given(0)

  /**
   What no plan writes: the estate of a building, whether a house is active, and
   whether the remaining fields, and the roles of a contact, are such that a save accepts them.
   */
  datatype Rest = Rest(estate: Option<nat>, active: bool, fit: bool, roles: bool)

  const NEW_REST := Rest(None, true, true, true)

  /** The version stands for the time of the last save, which the fingerprint of an object covers. */
  datatype Object = Object(kind: EntityKind, org: int, version: nat, landlordRole: bool, building: Option<nat>,
                           landlord: Option<nat>, values: Values, rest: Rest, content: Content)

  datatype Identity = Identity(org: int, source: int, kind: EntityKind, record: int)

  /** A log entry for the specification: an object was created for a record, under this mapping choice. */
  datatype Creation = Creation(identity: Identity, made: nat, batch: nat, record: nat, choice: Option<int>)

  datatype Db = Db(
    now: int, batches: seq<Batch>, mappings: map<Identity, Mapping>, objects: map<nat, Object>,
    duties: map<(int, nat, nat), nat>, nextId: nat, nextToken: nat, created: seq<Creation>)

  /** The organization's active members, and the records with invalid fields other than those modelled. */
  datatype Env = Env(members: set<nat>, invalid: set<nat>)

  function IdentityOf(batch: Batch, r: Record): Identity {
    Identity(batch.org, batch.source, r.kind, r.source)
  }

  function Lookup<K, V>(m: map<K, V>, key: K): Option<V> {
    if key in m then Some(m[key]) else None
  }

  predicate Available(db: Db, kind: EntityKind, org: int, id: int) {
    id >= 0 && id as nat in db.objects && db.objects[id as nat].kind == kind && db.objects[id as nat].org == org
  }

  /** The first record of a batch with a kind and source. */
  function FindFrom(records: seq<Record>, kind: EntityKind, source: int, from: nat): (found: Option<nat>)
    requires from <= |records|
    ensures found.Some? ==>
              found.value < |records| && records[found.value].kind == kind && records[found.value].source == source
    decreases |records| - from
  {
    if from == |records| then None
    else if records[from].kind == kind && records[from].source == source then Some(from)
    else FindFrom(records, kind, source, from + 1)
  }

  // ---- planning ----

  function ChoiceFor(d: Decisions, r: Record): Option<int> { Lookup(d.mappings, (r.kind, r.source)) }

  function ExtraFor(d: Decisions, r: Record): Extra {
    if (r.kind, r.source) in d.extras then d.extras[(r.kind, r.source)] else NO_EXTRA
  }

  /** The object asked for: the operator's choice, else the one the source is mapped to. */
  function WantedTarget(db: Db, batch: Batch, d: Decisions, r: Record): int {
    if ChoiceFor(d, r).Some? then ChoiceFor(d, r).value
    else if IdentityOf(batch, r) in db.mappings then db.mappings[IdentityOf(batch, r)].target
    else 0
  }

  function PlannedTarget(db: Db, batch: Batch, d: Decisions, r: Record): Option<nat> {
    var wanted := WantedTarget(db, batch, d, r);
    if wanted > 0 && Available(db, r.kind, batch.org, wanted) then Some(wanted) else None
  }

  // ---- saving ----

  /** What is unique among objects: the database's constraints and the checks of a save agree on it. */
  datatype UniqueKey =
    | ContactKey(org: int, name: Text, phone: Text)
    | EstateKey(estate: nat, name: Text)
    | BuildingKey(org: int, name: Text, address: Text)
    | RoomKey(place: Place, room: Text)
    | NoKey

  /** Where a house stands: in an object, or in what a source building becomes. */
  datatype Place = Standing(building: nat) | FromSource(source: int) | Nowhere

  function PlaceIn(building: Option<nat>): Place {
    if building.Some? then Standing(building.value) else Nowhere
  }

  function KeyOf(o: Object): UniqueKey {
    match o.kind
    case Landlord => ContactKey(o.org, o.values.name, o.values.detail)
    case Building =>
      if o.rest.estate.Some? then EstateKey(o.rest.estate.value, o.values.name)
      else BuildingKey(o.org, o.values.name, o.values.detail)
    case House => RoomKey(PlaceIn(o.building), o.values.name)
    case _ => NoKey
  }

  /** What a save stores: names, phone numbers and addresses without superfluous space. */
  function Tidied(o: Object): Object {
    if o.kind == House then o
    else o.(values := o.values.(name := Tidy(o.values.name), detail := Tidy(o.values.detail)))
  }

  /** The fields of an object, each for itself. */
  predicate FieldsPass(o: Object) {
    && o.rest.fit
    && match o.kind
       case Landlord => o.values.name != NO_TEXT && Tidy(o.values.detail) != NO_TEXT && o.rest.roles
       case Building => Tidy(o.values.name) != NO_TEXT && Tidy(o.values.detail) != NO_TEXT
       case House => o.values.name != NO_TEXT && (o.values.listed ==> o.rest.active)
       case _ => true
  }

  predicate IsBuilding(objects: map<nat, Object>, id: nat) {
    id in objects && objects[id].kind == Building
  }

  predicate IsLandlord(objects: map<nat, Object>, org: int, id: nat) {
    id in objects && objects[id].kind == Landlord && objects[id].org == org && objects[id].landlordRole
  }

  predicate LinksPass(objects: map<nat, Object>, o: Object) {
    o.kind == House ==>
      && o.building.Some? && IsBuilding(objects, o.building.value)
      && (o.landlord.Some? ==> IsLandlord(objects, o.org, o.landlord.value))
  }

  predicate KeyTaken(objects: map<nat, Object>, id: nat, key: UniqueKey) {
    exists k :: k in objects && k != id && KeyOf(objects[k]) == key
  }

  /** A save goes through when the object is valid in itself and nobody else has its key. */
  predicate Accepted(objects: map<nat, Object>, id: nat, o: Object) {
    FieldsPass(o) && LinksPass(objects, o) && !KeyTaken(objects, id, KeyOf(Tidied(o)))
  }

  // ---- planning one record ----

  datatype Finding = Finding(plan: Plan, issue: bool)

  /** The operator's values go before those of the source. */
  function PlannedValues(r: Record, extra: Extra): Values {
    Values(if extra.name.Some? then extra.name.value else r.values.name,
           if extra.detail.Some? then extra.detail.value else r.values.detail,
           if extra.listed.Some? then extra.listed.value else r.values.listed)
  }

  /** A required text is missing. Planning looks at each field as it is given, and takes an empty address. */
  predicate FieldMissing(kind: EntityKind, values: Values) {
    values.name == NO_TEXT || (kind == Landlord && values.detail == NO_TEXT)
  }

  /** The building a house will stand in when it is known at planning, and whether the reference is unusable. */
  function PlannedBuilding(db: Db, batch: Batch, d: Decisions, r: Record): (Option<nat>, bool) {
    var extra := ExtraFor(d, r);
    if extra.building != 0 then (Some(extra.building), !Available(db, Building, batch.org, extra.building))
    else
      var found := FindFrom(batch.records, Building, r.buildingSource, 0);
      if r.buildingSource != 0 && found.Some? && !batch.records[found.value].deleted
      then (PlannedTarget(db, batch, d, batch.records[found.value]), false)
      else (None, true)
  }

  /** The landlord a house will get, and whether the reference is unusable. */
  function PlannedLandlord(db: Db, batch: Batch, d: Decisions, r: Record): (LandlordLink, bool) {
    var choice := ExtraFor(d, r).landlord;
    if choice.NoLandlord? then (SetLink(None), false)
    else if choice.ChosenLandlord? && choice.id != 0 then
      (SetLink(Some(choice.id)), !IsLandlord(db.objects, batch.org, choice.id))
    else if r.landlordSource != 0 then
      var found := FindFrom(batch.records, Landlord, r.landlordSource, 0);
      if found.Some? && !batch.records[found.value].deleted
      then (SetLink(PlannedTarget(db, batch, d, batch.records[found.value])), false)
      else (KeepLink, true)
    else (if choice.Unsaid? then KeepLink else SetLink(Some(0)), false)
  }

  /** What planning compares: of phone numbers only the digits, and texts as they are given. */
  datatype PackageKey =
    | SameContact(name: Text, digits: int)
    | SameAddress(name: Text, address: Text)
    | SameRoom(place: Place, room: Text)

  function PackageKeyOf(r: Record, values: Values, building: Option<nat>): PackageKey {
    match r.kind
    case Landlord => SameContact(values.name, values.detail.core)
    case Building => SameAddress(values.name, values.detail)
    case _ => SameRoom(if building.Some? then Standing(building.value) else FromSource(r.buildingSource), values.name)
  }

  /** An object of the organization that looks the same as what would be created. */
  predicate LooksLike(o: Object, r: Record, org: int, values: Values, building: Option<nat>) {
    && o.kind == r.kind && o.org == org && o.values.name == values.name
    && match r.kind
       case Landlord => o.values.detail.core == values.detail.core
       case Building => o.rest.estate.None? && o.values.detail == values.detail
       case _ => building.Some? && o.building == building
  }

  predicate DuplicateTarget(db: Db, batch: Batch, d: Decisions, r: Record) {
    var plan := BusinessFinding(db, batch, d, r, false, false).plan;
    exists k :: k in db.objects
                && LooksLike(db.objects[k], r, batch.org, PlannedValues(r, ExtraFor(d, r)), plan.building)
  }

  /** The key a record occupies among those planned after it, if it writes. */
  function WrittenKey(db: Db, batch: Batch, d: Decisions, r: Record): Option<PackageKey> {
    var plan := BusinessFinding(db, batch, d, r, false, false).plan;
    if Business(r.kind) && !r.deleted && plan.action in {Create, Update}
    then Some(PackageKeyOf(r, PlannedValues(r, ExtraFor(d, r)), plan.building))
    else None
  }

  /** The keys the first n records write. Keys of different kinds are different, so the order of kinds is no matter. */
  function WrittenKeys(db: Db, batch: Batch, d: Decisions, n: nat): set<PackageKey>
    requires n <= |batch.records|
  {
    if n == 0 then {}
    else
      var before, key := WrittenKeys(db, batch, d, n - 1), WrittenKey(db, batch, d, batch.records[n - 1]);
      if key.Some? then before + {key.value} else before
  }

  /** A creation looks like an object that is there, or like what an earlier record writes. */
  predicate Duplicate(db: Db, batch: Batch, d: Decisions, i: nat)
    requires i < |batch.records|
  {
    var r := batch.records[i];
    var key := WrittenKey(db, batch, d, r);
    DuplicateTarget(db, batch, d, r) || (key.Some? && key.value in WrittenKeys(db, batch, d, i))
  }

  /** The plan of a business record; duplicates stand in the way of a creation only. */
  function BusinessFinding(db: Db, batch: Batch, d: Decisions, r: Record, invalid: bool, duplicate: bool): Finding {
    var id := IdentityOf(batch, r);
    var previous := Lookup(db.mappings, id);
    var wanted := WantedTarget(db, batch, d, r);
    var target := PlannedTarget(db, batch, d, r);
    var extra := ExtraFor(d, r);
    var missing := wanted != 0 && target.None?;
    var version := if target.Some? then Some(db.objects[target.value].version) else None;
    if previous.Some? && target.Some? && previous.value.sourceHash == r.hash && extra == NO_EXTRA then
      Finding(Plan(Skip, target, version, previous, None, KeepLink, None), missing)
    else
      var values := PlannedValues(r, extra);
      var fields := Some(Fields(r.hash, extra, values));
      var wrong := invalid || FieldMissing(r.kind, values);
      var (building, adrift) := if r.kind == House then PlannedBuilding(db, batch, d, r) else (None, false);
      var (landlord, unknown) := if r.kind == House then PlannedLandlord(db, batch, d, r) else (KeepLink, false);
      var unlinked := adrift || unknown;
      if target.Some? then
        var changed :=
          previous.Some? && previous.value.sourceHash != r.hash && extra.action.None? && ChoiceFor(d, r).None?;
        var action := if extra.action == Some(TakeUpdate) then Update else Reuse;
        Finding(Plan(action, target, version, previous, building, landlord, fields),
                changed || extra.action == Some(Unclear) || unlinked || (action == Update && wrong))
      else
        Finding(Plan(Create, None, None, previous, building, landlord, fields),
                missing || unlinked || wrong || duplicate)
  }

  /** The account a staff record is bound to: the operator's choice, else its mapping; 0 is none. */
  function StaffUser(db: Db, batch: Batch, d: Decisions, r: Record): nat {
    if r.source in d.members then d.members[r.source]
    else if IdentityOf(batch, r) in db.mappings then db.mappings[IdentityOf(batch, r)].target
    else 0
  }

  function StaffFinding(db: Db, batch: Batch, d: Decisions, r: Record, env: Env): Finding {
    var user := StaffUser(db, batch, d, r);
    var rebound := r.state == Reused && r.target != Some(user);
    if user != 0 && user in env.members then Finding(ARCHIVE_PLAN.(action := Reuse, target := Some(user)), rebound)
    else Finding(ARCHIVE_PLAN, rebound || user != 0)
  }

  function RelationFinding(db: Db, batch: Batch, d: Decisions, r: Record, env: Env): Finding {
    var staff := FindFrom(batch.records, Staff, r.staffSource, 0);
    var user :=
      if staff.Some? && !batch.records[staff.value].deleted
      then StaffUser(db, batch, d, batch.records[staff.value])
      else 0;
    if user != 0 && user in env.members && FindFrom(batch.records, Landlord, r.landlordSource, 0).Some?
    then Finding(ARCHIVE_PLAN.(action := Responsibility, target := Some(user)), false)
    else Finding(ARCHIVE_PLAN, false)
  }

  function FindingFor(db: Db, batch: Batch, d: Decisions, i: nat, env: Env): Finding
    requires i < |batch.records|
  {
    FindingGiven(db, batch, d, i, env, Duplicate(db, batch, d, i))
  }

  function FindingGiven(db: Db, batch: Batch, d: Decisions, i: nat, env: Env, duplicate: bool): Finding
    requires i < |batch.records|
  {
    var r := batch.records[i];
    if r.deleted then Finding(ARCHIVE_PLAN, false)
    else match r.kind
      case Staff => StaffFinding(db, batch, d, r, env)
      case Relation => RelationFinding(db, batch, d, r, env)
      case Team => Finding(ARCHIVE_PLAN, false)
      case Other => Finding(ARCHIVE_PLAN, false)
      case _ => BusinessFinding(db, batch, d, r, i in env.invalid, duplicate)
  }

  /** A planned record; a bound or related record that had been archived is opened again. */
  function Replanned(r: Record, plan: Plan): Record {
    r.(plan := plan,
       state := if r.state == Archived
                   && (plan.action == Reuse || plan.action == Responsibility)
                   && (r.kind == Staff || r.kind == Relation)
                then Pending else r.state)
  }

  function PlannedRecords(db: Db, batch: Batch, d: Decisions, env: Env, n: nat): seq<Record>
    requires n <= |batch.records|
  {
    if n == 0 then []
    else PlannedRecords(db, batch, d, env, n - 1)
           + [Replanned(batch.records[n - 1], FindingFor(db, batch, d, n - 1, env).plan)]
  }

  predicate AnyIssue(db: Db, batch: Batch, d: Decisions, env: Env, n: nat)
    requires n <= |batch.records|
  {
    n > 0 && (AnyIssue(db, batch, d, env, n - 1) || FindingFor(db, batch, d, n - 1, env).issue)
  }

  /** Bound staff become explicit choices, first come first kept. */
  function BoundMembers(db: Db, batch: Batch, d: Decisions, env: Env, n: nat): map<int, nat>
    requires n <= |batch.records|
  {
    if n == 0 then d.members
    else
      var before, r := BoundMembers(db, batch, d, env, n - 1), batch.records[n - 1];
      var plan := FindingFor(db, batch, d, n - 1, env).plan;
      if r.kind == Staff && plan.action == Reuse && plan.target.Some? && r.source !in before
      then before[r.source := plan.target.value] else before
  }

  function Plans(records: seq<Record>): seq<Plan> {
    seq(|records|, i requires 0 <= i < |records| => records[i].plan)
  }

  function Hashes(records: seq<Record>): seq<int> {
    seq(|records|, i requires 0 <= i < |records| => records[i].hash)
  }

  /** Replans every record; refused while the batch imports. */
  function Previewed(db: Db, batch: Batch, d: Decisions, env: Env): Batch {
    var n := |batch.records|;
    var records := PlannedRecords(db, batch, d, env, n);
    var decisions := d.(members := BoundMembers(db, batch, d, env, n));
    var issues := AnyIssue(db, batch, d, env, n) || !batch.complete;
    batch.(records := records, decisions := decisions,
           preview := Some(Preview(Version(Plans(records), Hashes(records), decisions, env.members), issues)),
           status := if issues then Blocked else Awaiting)
  }

  // ---- executing one record ----

  predicate WorksOnObject(r: Record) {
    Business(r.kind) && r.plan.action in {Update, Reuse, Skip}
  }

  datatype Execution = Done(db: Db) | Raised | LeaseLost

  /** The imported object a record of the batch became. */
  function Dependency(batch: Batch, kind: EntityKind, source: int): Option<nat> {
    var found := FindFrom(batch.records, kind, source, 0);
    if found.Some? && Final(batch.records[found.value].state) then batch.records[found.value].target else None
  }

  function BuildingOf(batch: Batch, r: Record): Option<nat> {
    if r.plan.building.Some? then r.plan.building else Dependency(batch, Building, r.buildingSource)
  }

  function SetRecord(db: Db, b: nat, i: nat, r: Record): Db
    requires b < |db.batches| && i < |db.batches[b].records|
  {
    db.(batches := db.batches[b := db.batches[b].(records := db.batches[b].records[i := r])])
  }

  /** The record reached an object: remember it on the record and in the mapping. */
  function Settle(db: Db, b: nat, i: nat, target: nat, state: RecordState): Db
    requires b < |db.batches| && i < |db.batches[b].records|
  {
    var r := db.batches[b].records[i];
    SetRecord(db.(mappings := db.mappings[IdentityOf(db.batches[b], r) := Mapping(target, r.hash)]), b, i,
              r.(state := state, target := Some(target)))
  }

  function LandlordFor(r: Record, held: Option<nat>): Option<nat> {
    if r.kind == House && r.plan.landlord.SetLink? then r.plan.landlord.landlord else held
  }

  function ValuesFor(r: Record, held: Values): Values {
    if r.plan.fields.Some? then r.plan.fields.value.values else held
  }

  /** The object a creation saves. */
  function Made(batch: Batch, r: Record): Object {
    Object(r.kind, batch.org, 0, r.kind == Landlord,
           if r.kind == House then BuildingOf(batch, r) else None, LandlordFor(r, None),
           ValuesFor(r, Values(NO_TEXT, NO_TEXT, false)), NEW_REST, Overlaid(BLANK_CONTENT, r.plan.fields))
  }

  /** The object an update saves. */
  function Overwritten(batch: Batch, r: Record, held: Object): Object {
    held.(version := held.version + 1, landlordRole := held.landlordRole || r.kind == Landlord,
          building := if r.kind == House then BuildingOf(batch, r) else held.building,
          landlord := LandlordFor(r, held.landlord), values := ValuesFor(r, held.values),
          rest := if r.kind == Landlord then held.rest.(roles := true) else held.rest,
          content := Overlaid(held.content, r.plan.fields))
  }

  /** A contact that becomes a landlord; this save writes its roles only. */
  function WithRole(held: Object): Object {
    held.(landlordRole := true, version := held.version + 1)
  }

  function ExecuteCreate(db: Db, b: nat, i: nat): Execution
    requires b < |db.batches| && i < |db.batches[b].records|
  {
    var batch, r := db.batches[b], db.batches[b].records[i];
    if r.kind == House && BuildingOf(batch, r).None? then Raised
    else if !Accepted(db.objects, db.nextId, Made(batch, r)) then Raised
    else
      var next := db.(objects := db.objects[db.nextId := Tidied(Made(batch, r))], nextId := db.nextId + 1,
                      created := db.created + [Creation(IdentityOf(batch, r), db.nextId, b, i,
                                                        ChoiceFor(batch.decisions, r))]);
      Done(Settle(next, b, i, db.nextId, Created))
  }

  /** Works on the existing object, if it is still the version that was planned for and a save accepts it. */
  function ExecuteExisting(db: Db, b: nat, i: nat, action: Action, target: Option<nat>, version: Option<nat>): Execution
    requires b < |db.batches| && i < |db.batches[b].records|
  {
    var batch, r := db.batches[b], db.batches[b].records[i];
    if target.None? || !Available(db, r.kind, batch.org, target.value) then Raised
    else if version != Some(db.objects[target.value].version) then Raised
    else if action == Update then
      if r.kind == House && BuildingOf(batch, r).None? then Raised
      else
        var changed := Overwritten(batch, r, db.objects[target.value]);
        if !Accepted(db.objects, target.value, changed) then Raised
        else Done(Settle(db.(objects := db.objects[target.value := Tidied(changed)]), b, i, target.value, Updated))
    else
      var held := db.objects[target.value];
      var changed := if r.kind == Landlord && !held.landlordRole then WithRole(held) else held;
      if changed != held && !Accepted(db.objects, target.value, changed) then Raised
      else Done(Settle(db.(objects := db.objects[target.value := changed]), b, i, target.value,
                       if action == Reuse then Reused else Skipped))
  }

  function ExecuteBusiness(db: Db, b: nat, i: nat): Execution
    requires b < |db.batches| && i < |db.batches[b].records|
  {
    var batch, r := db.batches[b], db.batches[b].records[i];
    var previous := Lookup(db.mappings, IdentityOf(batch, r));
    if previous != r.plan.mappingVersion then
      if r.plan.action == Create && previous.Some? && previous.value.sourceHash == r.hash then
        if Available(db, r.kind, batch.org, previous.value.target)
        then ExecuteExisting(db, b, i, Skip, Some(previous.value.target),
                             Some(db.objects[previous.value.target].version))
        else Raised
      else Raised
    else if r.plan.action == Create then ExecuteCreate(db, b, i)
    else ExecuteExisting(db, b, i, r.plan.action, r.plan.target, r.plan.targetVersion)
  }

  function ExecuteOther(db: Db, b: nat, i: nat, env: Env): Execution
    requires b < |db.batches| && i < |db.batches[b].records|
  {
    var batch, r := db.batches[b], db.batches[b].records[i];
    if r.kind == Staff && r.plan.action == Reuse then
      if r.plan.target.Some? && r.plan.target.value in env.members
      then Done(Settle(db, b, i, r.plan.target.value, Reused))
      else Raised
    else if r.plan.action == Responsibility then
      var landlord := Dependency(batch, Landlord, r.landlordSource);
      if r.plan.target.Some? && r.plan.target.value in env.members && landlord.Some? then
        var duty := (batch.org, r.plan.target.value, landlord.value);
        if duty in db.duties then Done(SetRecord(db, b, i, r.(state := Reused, target := Some(db.duties[duty]))))
        else if !IsLandlord(db.objects, batch.org, landlord.value) then Raised
        else Done(SetRecord(db.(duties := db.duties[duty := db.nextId], nextId := db.nextId + 1), b, i,
                            r.(state := Created, target := Some(db.nextId))))
      else Raised
    else Done(SetRecord(db, b, i, r.(state := Archived)))
  }

  /** One transaction: fenced by the run token, and idempotent on final records. */
  function ExecuteRecord(db: Db, b: nat, i: nat, token: nat, env: Env): Execution {
    if b >= |db.batches| || i >= |db.batches[b].records| then Raised
    else if db.batches[b].token != Some(token) then LeaseLost
    else
      var r := db.batches[b].records[i];
      if Final(r.state) then Done(db)
      else if Business(r.kind) && r.plan.action in {Create, Update, Reuse, Skip} then ExecuteBusiness(db, b, i)
      else ExecuteOther(db, b, i, env)
  }
}
