/** Packages that are confirmed without an issue and whose import, left alone, still cannot complete. */
module MigrationDeadEnds {
  import opened Wrappers
  import opened Ordering
  import opened Migration
  import opened MigrationSteps
  import opened MigrationProofs
  import opened MigrationRuns
  import opened MigrationOutcome
  import opened MigrationCompletion

  const PLAIN_VALUES := Values(Text(1, 1, 0), Text(1, 1, 0), false)
  const NO_CHOICES := Decisions(map[], map[], map[])

  // ---- a responsibility that cannot be carried out ----

  function PlainRecord(kind: EntityKind, source: int, deleted: bool, staff: int, landlord: int): Record {
    Record(kind, source, 0, deleted, 0, staff, landlord, PLAIN_VALUES, Pending, None, ARCHIVE_PLAN)
  }

  /** A member, a landlord deleted at the source, and the member's responsibility for that landlord. */
  function StuckBatch(): Batch {
    Batch(1, 1, true, Blocked, None, 0, None, NO_CHOICES,
          [PlainRecord(Staff, 1, false, 0, 0), PlainRecord(Landlord, 2, true, 0, 0),
           PlainRecord(Relation, 3, false, 1, 2)], None)
  }

  const STUCK_CHOICES := Decisions(map[], map[], map[1 := 7])
  const STUCK_ENV := Env({7}, {})

  lemma StuckPlans(db: Db, batch: Batch)
    requires db.mappings == map[] && batch.complete && batch.org == 1 && batch.source == 1 && |batch.records| == 3
    requires forall i :: 0 <= i < 3 ==>
               SameSource(StuckBatch().records[i], batch.records[i]) && batch.records[i].state == Pending
    ensures var checked := Previewed(db, batch, STUCK_CHOICES, STUCK_ENV);
            && !checked.preview.value.issues && checked.decisions == STUCK_CHOICES && |checked.records| == 3
            && checked.records[0] == batch.records[0].(plan := ARCHIVE_PLAN.(action := Reuse, target := Some(7)))
            && checked.records[1] == batch.records[1].(plan := ARCHIVE_PLAN)
            && checked.records[2]
               == batch.records[2].(plan := ARCHIVE_PLAN.(action := Responsibility, target := Some(7)))
  {
    PlannedRecordsAt(db, batch, STUCK_CHOICES, STUCK_ENV, 3);
    var records := batch.records;
    assert FindFrom(records, Staff, 1, 0) == Some(0);
    assert FindFrom(records, Landlord, 2, 0) == Some(1) by { assert FindFrom(records, Landlord, 2, 1) == Some(1); }
    assert !FindingFor(db, batch, STUCK_CHOICES, 0, STUCK_ENV).issue;
    assert !FindingFor(db, batch, STUCK_CHOICES, 1, STUCK_ENV).issue;
    assert !FindingFor(db, batch, STUCK_CHOICES, 2, STUCK_ENV).issue;
    assert !AnyIssue(db, batch, STUCK_CHOICES, STUCK_ENV, 1);
    assert !AnyIssue(db, batch, STUCK_CHOICES, STUCK_ENV, 2);
    assert BoundMembers(db, batch, STUCK_CHOICES, STUCK_ENV, 1) == STUCK_CHOICES.members;
    assert BoundMembers(db, batch, STUCK_CHOICES, STUCK_ENV, 2) == STUCK_CHOICES.members;
  }

  function StuckSteps(): seq<Step> {
    [AddBatch(StuckBatch()), MakePreview(0, STUCK_CHOICES, STUCK_ENV)]
  }

  lemma StuckRun(sys: System)
    requires sys == Run(Start(0), StuckSteps())
    ensures var added := Start(0).db.(batches := [StuckBatch()]);
            |sys.db.batches| == 1
            && sys.db == added.(batches := [Previewed(added, StuckBatch(), STUCK_CHOICES, STUCK_ENV)])
  {
    assert StuckSteps()[..1] == [AddBatch(StuckBatch())] && [AddBatch(StuckBatch())][..0] == [];
    assert Run(Start(0), []) == Start(0);
    assert FreshBatch(StuckBatch());
    assert Run(Start(0), [AddBatch(StuckBatch())]).db == Start(0).db.(batches := [StuckBatch()]);
  }

  predicate StuckRecords(records: seq<Record>) {
    && |records| == 3 && records[0].kind == Staff
    && records[1].kind == Landlord && records[1].source == 2 && records[1].deleted
    && records[2].kind == Relation && records[2].landlordSource == 2 && records[2].plan.action == Responsibility
    && records[2].state == Pending
  }

  lemma StuckConfirmed(sys: System, version: Version)
    requires var added := Start(0).db.(batches := [StuckBatch()]);
             var checked := Previewed(added, StuckBatch(), STUCK_CHOICES, STUCK_ENV);
             sys.db == added.(batches := [checked]) && version == checked.preview.value.version
    ensures StartsImport(sys, 0, version, STUCK_ENV)
    ensures StuckRecords(Previewed(sys.db, sys.db.batches[0], sys.db.batches[0].decisions, STUCK_ENV).records)
  {
    StuckAgain(sys.db);
    StuckAwaits(sys.db);
    StartsWhenPreviewed(sys, version, STUCK_ENV);
  }

  /** The confirm plans the same as the preview. */
  lemma StuckAgain(db: Db)
    requires var added := Start(0).db.(batches := [StuckBatch()]);
             db == added.(batches := [Previewed(added, StuckBatch(), STUCK_CHOICES, STUCK_ENV)])
    ensures var checked := Previewed(db, db.batches[0], db.batches[0].decisions, STUCK_ENV);
            checked.preview == db.batches[0].preview && !checked.preview.value.issues && StuckRecords(checked.records)
  {
    var added := Start(0).db.(batches := [StuckBatch()]);
    StuckPlans(added, StuckBatch());
    assert db.batches[0].decisions == STUCK_CHOICES;
    StuckPlans(db, db.batches[0]);
    SameVersion(db.batches[0].records, Previewed(db, db.batches[0], STUCK_CHOICES, STUCK_ENV).records);
  }

  lemma StuckAwaits(db: Db)
    requires var added := Start(0).db.(batches := [StuckBatch()]);
             db == added.(batches := [Previewed(added, StuckBatch(), STUCK_CHOICES, STUCK_ENV)])
    ensures db.batches[0].status == Awaiting && SourcesUnique(db.batches[0].records)
  {
    StuckPlans(Start(0).db.(batches := [StuckBatch()]), StuckBatch());
  }

  lemma SameVersion(a: seq<Record>, b: seq<Record>)
    requires |a| == |b| && forall i :: 0 <= i < |a| ==> a[i].plan == b[i].plan && a[i].hash == b[i].hash
    ensures Plans(a) == Plans(b) && Hashes(a) == Hashes(b)
  {
  }

  lemma StuckDuty(records: seq<Record>, order: seq<nat>)
    requires StuckRecords(records) && OrderFits(records, order) && 2 in order
    ensures !DutiesPossible(records, order)
  {
    assert FindFrom(records, Landlord, 2, 1) == Some(1);
    assert FindFrom(records, Landlord, 2, 0) == Some(1);
    var x :| 0 <= x < |order| && order[x] == 2;
    assert !DutyPossible(records, records[order[x]]);
  }

  /** The package is confirmed without an issue, and left alone its import ends with an open record. */
  lemma ConfirmedButStuck()
    ensures var sys := Run(Start(0), StuckSteps());
            && |sys.db.batches| == 1 && sys.db.batches[0].preview.Some?
            && var version := sys.db.batches[0].preview.value.version;
            && StartsImport(sys, 0, version, STUCK_ENV)
            && var db := Claimed(sys, 0, version, STUCK_ENV);
            && 0 < |db.batches|
            && var done := WorkAll(db, 0, WorkOrder(db.batches[0].records), sys.db.nextToken, STUCK_ENV);
            && 0 < |done.batches| && Open(done.batches[0].records)
  {
    var sys := Run(Start(0), StuckSteps());
    StuckRun(sys);
    var version := sys.db.batches[0].preview.value.version;
    StuckConfirmed(sys, version);
    ConfirmingCopiesPreview(sys, 0, version, STUCK_ENV);
    ClaimedIsClaim(sys, 0, version, STUCK_ENV);
    ConfirmedImportOutcome(0, StuckSteps(), 0, version, STUCK_ENV);
    var records := Claimed(sys, 0, version, STUCK_ENV).batches[0].records;
    StuckDuty(records, WorkOrder(records));
  }

  lemma StartsWhenPreviewed(sys: System, version: Version, env: Env)
    requires |sys.db.batches| == 1 && sys.db.batches[0].status == Awaiting && SourcesUnique(sys.db.batches[0].records)
    requires var checked := Previewed(sys.db, sys.db.batches[0], sys.db.batches[0].decisions, env);
             !checked.preview.value.issues && checked.preview.value.version == version
    ensures StartsImport(sys, 0, version, env)
  {
    assert !OtherImport(sys.db, 0);
  }

  // ---- two records that get in each other's way ----

  /** A landlord of the organization. */
  const CLASH_OBJECT := Object(Landlord, 1, 0, true, None, None, PLAIN_VALUES, NEW_REST, BLANK_CONTENT)

  /** Two landlord records. */
  function ClashBatch(): Batch {
    Batch(1, 1, true, Blocked, None, 0, None, NO_CHOICES,
          [PlainRecord(Landlord, 1, false, 0, 0), PlainRecord(Landlord, 2, false, 0, 0)], None)
  }

  /** Both are mapped to the one landlord, and the first is to update it. */
  const CLASH_CHOICES := Decisions(map[(Landlord, 1) := 1, (Landlord, 2) := 1],
                                   map[(Landlord, 1) := NO_EXTRA.(action := Some(TakeUpdate))], map[])
  const CLASH_ENV := Env({}, {})

  function ClashSteps(): seq<Step> {
    [AddObject(CLASH_OBJECT), AddBatch(ClashBatch()), MakePreview(0, CLASH_CHOICES, CLASH_ENV)]
  }

  function ClashTables(): Db {
    Start(0).db.(objects := map[1 := CLASH_OBJECT], nextId := 2, batches := [ClashBatch()])
  }

  predicate ClashRecords(records: seq<Record>) {
    && |records| == 2
    && forall i :: 0 <= i < 2 ==>
         && records[i].kind == Landlord && records[i].state == Pending
         && records[i].plan.action == (if i == 0 then Update else Reuse) && records[i].plan.target == Some(1)
  }

  lemma ClashPlans(db: Db, batch: Batch)
    requires db.mappings == map[] && db.objects == map[1 := CLASH_OBJECT] && batch.complete && batch.org == 1
    requires batch.source == 1
    requires |batch.records| == 2
    requires forall i :: 0 <= i < 2 ==>
               SameSource(ClashBatch().records[i], batch.records[i]) && batch.records[i].state == Pending
    ensures var checked := Previewed(db, batch, CLASH_CHOICES, CLASH_ENV);
            && !checked.preview.value.issues && checked.decisions == CLASH_CHOICES && ClashRecords(checked.records)
            && forall i :: 0 <= i < 2 ==>
                 checked.records[i]
                 == batch.records[i].(plan := FindingFor(ClashTables(), ClashBatch(), CLASH_CHOICES, i, CLASH_ENV).plan)
  {
    PlannedRecordsAt(db, batch, CLASH_CHOICES, CLASH_ENV, 2);
    assert !FindingFor(db, batch, CLASH_CHOICES, 0, CLASH_ENV).issue
           && !FindingFor(db, batch, CLASH_CHOICES, 1, CLASH_ENV).issue;
    assert !AnyIssue(db, batch, CLASH_CHOICES, CLASH_ENV, 1);
    assert BoundMembers(db, batch, CLASH_CHOICES, CLASH_ENV, 1) == CLASH_CHOICES.members;
  }

  lemma ClashRun(sys: System)
    requires sys == Run(Start(0), ClashSteps())
    ensures |sys.db.batches| == 1
    ensures sys.db == ClashTables().(batches := [Previewed(ClashTables(), ClashBatch(), CLASH_CHOICES, CLASH_ENV)])
  {
    var first, second := [AddObject(CLASH_OBJECT)], [AddObject(CLASH_OBJECT), AddBatch(ClashBatch())];
    assert ClashSteps()[..2] == second && second[..1] == first && first[..0] == [];
    assert Run(Start(0), []) == Start(0);
    assert Run(Start(0), first).db == Start(0).db.(objects := map[1 := CLASH_OBJECT], nextId := 2);
    assert FreshBatch(ClashBatch());
    assert Run(Start(0), second).db == ClashTables();
  }

  lemma ClashConfirmed(sys: System, version: Version)
    requires sys.db == ClashTables().(batches := [Previewed(ClashTables(), ClashBatch(), CLASH_CHOICES, CLASH_ENV)])
    requires version == Previewed(ClashTables(), ClashBatch(), CLASH_CHOICES, CLASH_ENV).preview.value.version
    ensures StartsImport(sys, 0, version, CLASH_ENV)
    ensures ClashRecords(Previewed(sys.db, sys.db.batches[0], sys.db.batches[0].decisions, CLASH_ENV).records)
    ensures sys.db.objects == map[1 := CLASH_OBJECT]
  {
    ClashAgain(sys.db);
    StartsWhenPreviewed(sys, version, CLASH_ENV);
  }

  /** The confirm plans the same as the preview. */
  lemma ClashAgain(db: Db)
    requires db == ClashTables().(batches := [Previewed(ClashTables(), ClashBatch(), CLASH_CHOICES, CLASH_ENV)])
    ensures db.batches[0].status == Awaiting && SourcesUnique(db.batches[0].records)
    ensures var checked := Previewed(db, db.batches[0], db.batches[0].decisions, CLASH_ENV);
            && checked.preview == db.batches[0].preview && !checked.preview.value.issues
            && ClashRecords(checked.records)
            && checked.records[0].plan == FindingFor(ClashTables(), ClashBatch(), CLASH_CHOICES, 0, CLASH_ENV).plan
  {
    ClashPlans(ClashTables(), ClashBatch());
    assert db.batches[0].decisions == CLASH_CHOICES;
    ClashPlans(db, db.batches[0]);
    SameVersion(db.batches[0].records, Previewed(db, db.batches[0], CLASH_CHOICES, CLASH_ENV).records);
  }

  lemma ClashSpoils(db: Db, records: seq<Record>, order: seq<nat>)
    requires ClashRecords(records) && 1 in db.objects && OrderFits(records, order) && |order| == 2
    requires order[0] == 0 && order[1] == 1
    ensures Spoils(db, records[0], records[1]) && !Compatible(db, records, order)
  {
    assert Spoils(db, records[order[0]], records[order[1]]);
  }

  /** Records of the same kind are worked on in the order of the package. */
  lemma TwoInOrder(records: seq<Record>)
    requires |records| == 2 && records[0].kind == records[1].kind
    ensures var order := WorkOrder(records); |order| == 2 && order[0] == 0 && order[1] == 1
  {
    var keys := seq(|records|, i requires 0 <= i < |records| => Key(KindRank(records[i].kind), 0, 0));
    OrderRanked(keys);
    assert Ahead(keys, Order(keys)[0], Order(keys)[1]);
  }

  /** This package, too, is confirmed without an issue, and left alone its import ends with an open record. */
  lemma ConfirmedButClashing()
    ensures var sys := Run(Start(0), ClashSteps());
            && |sys.db.batches| == 1 && sys.db.batches[0].preview.Some?
            && var version := sys.db.batches[0].preview.value.version;
            && StartsImport(sys, 0, version, CLASH_ENV)
            && var db := Claimed(sys, 0, version, CLASH_ENV);
            && 0 < |db.batches| && |db.batches[0].records| == 2
            && Spoils(db, db.batches[0].records[0], db.batches[0].records[1])
            && var done := WorkAll(db, 0, WorkOrder(db.batches[0].records), sys.db.nextToken, CLASH_ENV);
            && 0 < |done.batches| && Open(done.batches[0].records)
  {
    var sys := Run(Start(0), ClashSteps());
    ClashRun(sys);
    var version := sys.db.batches[0].preview.value.version;
    ClashConfirmed(sys, version);
    ConfirmingCopiesPreview(sys, 0, version, CLASH_ENV);
    ClaimedIsClaim(sys, 0, version, CLASH_ENV);
    ConfirmedImportOutcome(0, ClashSteps(), 0, version, CLASH_ENV);
    var db := Claimed(sys, 0, version, CLASH_ENV);
    TwoInOrder(db.batches[0].records);
    ClashSpoils(db, db.batches[0].records, WorkOrder(db.batches[0].records));
  }

  // ---- an edit that is not noticed ----

  /** The landlord with other contents, which nobody saved: an update past the save wrote them. */
  function Annotated(note: int): Object { CLASH_OBJECT.(content := Given(note)) }

  function AnnotateSteps(version: Version, note: int): seq<Step> {
    ClashSteps() + [Confirm(0, version, CLASH_ENV), TakeBatch(0), EditObject(1, Annotated(note), false)]
  }

  lemma RunOn(steps: seq<Step>, step: Step)
    ensures Run(Start(0), steps + [step]) == After(Run(Start(0), steps), step)
  {
    assert (steps + [step])[..|steps|] == steps;
  }

  lemma AnnotatedRun(version: Version, note: int)
    ensures Run(Start(0), AnnotateSteps(version, note)).db
            == After(After(After(Run(Start(0), ClashSteps()), Confirm(0, version, CLASH_ENV)), TakeBatch(0)),
                     EditObject(1, Annotated(note), false)).db
  {
    var first := ClashSteps() + [Confirm(0, version, CLASH_ENV)];
    var second := first + [TakeBatch(0)];
    RunOn(ClashSteps(), Confirm(0, version, CLASH_ENV));
    RunOn(first, TakeBatch(0));
    RunOn(second, EditObject(1, Annotated(note), false));
    assert AnnotateSteps(version, note) == second + [EditObject(1, Annotated(note), false)];
  }

  /** The batch of the package above while it is imported, and its landlord changed past the save. */
  predicate AnnotatedTables(db: Db, note: int) {
    && db.objects == map[1 := Annotated(note)] && db.mappings == map[]
    && |db.batches| == 1 && db.batches[0].org == 1 && db.batches[0].token.Some? && ClashRecords(db.batches[0].records)
    && var plan := db.batches[0].records[0].plan;
    && plan.targetVersion == Some(0) && plan.mappingVersion.None?
    && plan.fields.Some? && plan.fields.value.values == PLAIN_VALUES
  }

  lemma AnnotatedWhileImporting(sys: System, version: Version, note: int)
    requires sys.db == ClashTables().(batches := [Previewed(ClashTables(), ClashBatch(), CLASH_CHOICES, CLASH_ENV)])
    requires version == Previewed(ClashTables(), ClashBatch(), CLASH_CHOICES, CLASH_ENV).preview.value.version
    ensures AnnotatedTables(After(After(After(sys, Confirm(0, version, CLASH_ENV)), TakeBatch(0)),
                                  EditObject(1, Annotated(note), false)).db, note)
  {
    ClaimedTables(sys, version);
    AnnotatedEdit(After(After(sys, Confirm(0, version, CLASH_ENV)), TakeBatch(0)), note);
  }

  /** The batch while it is imported. */
  predicate ImportedTables(db: Db) {
    && db.objects == map[1 := CLASH_OBJECT] && db.mappings == map[]
    && |db.batches| == 1 && db.batches[0].org == 1 && db.batches[0].token.Some? && ClashRecords(db.batches[0].records)
    && var plan := db.batches[0].records[0].plan;
    && plan.targetVersion == Some(0) && plan.mappingVersion.None?
    && plan.fields.Some? && plan.fields.value.values == PLAIN_VALUES
  }

  lemma AnnotatedEdit(sys: System, note: int)
    requires ImportedTables(sys.db)
    ensures AnnotatedTables(After(sys, EditObject(1, Annotated(note), false)).db, note)
  {
    assert After(sys, EditObject(1, Annotated(note), false)).db.objects == map[1 := Annotated(note)];
  }

  lemma ClaimedTables(sys: System, version: Version)
    requires sys.db == ClashTables().(batches := [Previewed(ClashTables(), ClashBatch(), CLASH_CHOICES, CLASH_ENV)])
    requires version == Previewed(ClashTables(), ClashBatch(), CLASH_CHOICES, CLASH_ENV).preview.value.version
    ensures ImportedTables(After(After(sys, Confirm(0, version, CLASH_ENV)), TakeBatch(0)).db)
  {
    ClashConfirmed(sys, version);
    ClashAgain(sys.db);
    ClashFirst();
    ConfirmingCopiesPreview(sys, 0, version, CLASH_ENV);
    ClaimKeeps(After(sys, Confirm(0, version, CLASH_ENV)));
  }

  lemma ClaimKeeps(sys: System)
    requires Claimable(sys.db, 0)
    ensures var next := After(sys, TakeBatch(0)).db;
            && next.objects == sys.db.objects && next.mappings == sys.db.mappings
            && |next.batches| == |sys.db.batches| && next.batches[0].token.Some?
            && next.batches[0].org == sys.db.batches[0].org && next.batches[0].records == sys.db.batches[0].records
  {
  }

  lemma ClashFirst()
    ensures var plan := FindingFor(ClashTables(), ClashBatch(), CLASH_CHOICES, 0, CLASH_ENV).plan;
            && plan.targetVersion == Some(0) && plan.mappingVersion.None?
            && plan.fields.Some? && plan.fields.value.values == PLAIN_VALUES
  {
    assert PlannedTarget(ClashTables(), ClashBatch(), CLASH_CHOICES, ClashBatch().records[0]) == Some(1);
  }

  lemma AnnotationOverwritten(db: Db, note: int)
    requires AnnotatedTables(db, note)
    ensures var ran := ExecuteRecord(db, 0, 0, db.batches[0].token.value, CLASH_ENV);
            && ran.Done? && 1 in ran.db.objects
            && ran.db.objects[1].content == Overlaid(Given(note), db.batches[0].records[0].plan.fields)
  {
    var r := db.batches[0].records[0];
    assert Available(db, Landlord, 1, 1);
    assert Accepted(db.objects, 1, Overwritten(db.batches[0], r, Annotated(note)));
  }

  /**
   While the package above is imported, its landlord is changed past the save.
   The first record is executed all the same, and lays its values over the change.
   */
  lemma UnsavedEditIsOverwritten(note: int)
    ensures var batches := Run(Start(0), ClashSteps()).db.batches;
            && |batches| == 1 && batches[0].preview.Some?
            && var edited := Run(Start(0), AnnotateSteps(batches[0].preview.value.version, note)).db;
            && AnnotatedTables(edited, note)
            && var ran := ExecuteRecord(edited, 0, 0, edited.batches[0].token.value, CLASH_ENV);
            && ran.Done? && 1 in ran.db.objects
            && ran.db.objects[1].content == Overlaid(Given(note), edited.batches[0].records[0].plan.fields)
  {
    var sys := Run(Start(0), ClashSteps());
    ClashRun(sys);
    var version := sys.db.batches[0].preview.value.version;
    AnnotatedRun(version, note);
    AnnotatedWhileImporting(sys, version, note);
    AnnotationOverwritten(Run(Start(0), AnnotateSteps(version, note)).db, note);
  }

  // ---- saves that are refused ----

  const SAVE_ENV := Env({}, {})

  /** A building with a name and without an address. */
  function AddresslessBatch(): Batch {
    Batch(1, 1, true, Blocked, None, 0, None, NO_CHOICES,
          [PlainRecord(Building, 1, false, 0, 0).(values := PLAIN_VALUES.(detail := NO_TEXT))], None)
  }

  function AddresslessSteps(): seq<Step> {
    [AddBatch(AddresslessBatch()), MakePreview(0, NO_CHOICES, SAVE_ENV)]
  }

  /** The planned record: created, with the empty address. */
  predicate AddresslessRecords(records: seq<Record>) {
    && |records| == 1 && records[0].kind == Building && records[0].state == Pending
    && records[0].plan.action == Create && records[0].plan.fields.Some?
    && records[0].plan.fields.value.values.detail == NO_TEXT
  }

  lemma AddresslessPlans(db: Db, batch: Batch)
    requires db.mappings == map[] && db.objects == map[] && batch.complete && batch.org == 1 && batch.source == 1
    requires |batch.records| == 1
    requires SameSource(AddresslessBatch().records[0], batch.records[0]) && batch.records[0].state == Pending
    ensures var checked := Previewed(db, batch, NO_CHOICES, SAVE_ENV);
            && !checked.preview.value.issues && checked.decisions == NO_CHOICES && AddresslessRecords(checked.records)
            && checked.records[0].plan == FindingFor(Start(0).db, AddresslessBatch(), NO_CHOICES, 0, SAVE_ENV).plan
            && checked.records[0] == batch.records[0].(plan := checked.records[0].plan)
  {
    PlannedRecordsAt(db, batch, NO_CHOICES, SAVE_ENV, 1);
    var r := batch.records[0];
    assert ExtraFor(NO_CHOICES, r) == NO_EXTRA && PlannedTarget(db, batch, NO_CHOICES, r).None?;
    assert !FindingFor(db, batch, NO_CHOICES, 0, SAVE_ENV).issue;
    assert !AnyIssue(db, batch, NO_CHOICES, SAVE_ENV, 1);
    assert AddresslessRecords(Previewed(db, batch, NO_CHOICES, SAVE_ENV).records);
    assert BoundMembers(db, batch, NO_CHOICES, SAVE_ENV, 1) == NO_CHOICES.members;
  }

  lemma AddresslessRun(sys: System)
    requires sys == Run(Start(0), AddresslessSteps())
    ensures var added := Start(0).db.(batches := [AddresslessBatch()]);
            && |sys.db.batches| == 1
            && sys.db == added.(batches := [Previewed(added, AddresslessBatch(), NO_CHOICES, SAVE_ENV)])
  {
    assert AddresslessSteps()[..1] == [AddBatch(AddresslessBatch())] && [AddBatch(AddresslessBatch())][..0] == [];
    assert Run(Start(0), []) == Start(0);
    assert FreshBatch(AddresslessBatch());
    assert Run(Start(0), [AddBatch(AddresslessBatch())]).db == Start(0).db.(batches := [AddresslessBatch()]);
  }

  lemma AddresslessConfirmed(sys: System, version: Version)
    requires var added := Start(0).db.(batches := [AddresslessBatch()]);
             var checked := Previewed(added, AddresslessBatch(), NO_CHOICES, SAVE_ENV);
             sys.db == added.(batches := [checked]) && version == checked.preview.value.version
    ensures StartsImport(sys, 0, version, SAVE_ENV)
    ensures AddresslessRecords(Previewed(sys.db, sys.db.batches[0], sys.db.batches[0].decisions, SAVE_ENV).records)
  {
    AddresslessPlans(Start(0).db.(batches := [AddresslessBatch()]), AddresslessBatch());
    AddresslessPlans(sys.db, sys.db.batches[0]);
    StartsWhenPreviewed(sys, version, SAVE_ENV);
  }

  /** The building is previewed and confirmed without an issue, and its save is refused. */
  lemma ConfirmedWithoutAddress()
    ensures var sys := Run(Start(0), AddresslessSteps());
            && |sys.db.batches| == 1 && sys.db.batches[0].preview.Some?
            && var version := sys.db.batches[0].preview.value.version;
            && StartsImport(sys, 0, version, SAVE_ENV)
            && var db := Claimed(sys, 0, version, SAVE_ENV);
            && 0 < |db.batches| && OrderFits(db.batches[0].records, WorkOrder(db.batches[0].records))
            && !SavesPass(db, db.batches[0], WorkOrder(db.batches[0].records))
            && var done := WorkAll(db, 0, WorkOrder(db.batches[0].records), sys.db.nextToken, SAVE_ENV);
            && 0 < |done.batches| && Open(done.batches[0].records)
  {
    var sys := Run(Start(0), AddresslessSteps());
    AddresslessRun(sys);
    var version := sys.db.batches[0].preview.value.version;
    AddresslessConfirmed(sys, version);
    ConfirmingCopiesPreview(sys, 0, version, SAVE_ENV);
    ClaimedIsClaim(sys, 0, version, SAVE_ENV);
    ConfirmedImportOutcome(0, AddresslessSteps(), 0, version, SAVE_ENV);
    var db := Claimed(sys, 0, version, SAVE_ENV);
    AddresslessRefused(db, WorkOrder(db.batches[0].records));
  }

  lemma AddresslessRefused(db: Db, order: seq<nat>)
    requires 0 < |db.batches| && AddresslessRecords(db.batches[0].records) && OrderFits(db.batches[0].records, order)
    requires 0 in order
    ensures !SavesPass(db, db.batches[0], order)
  {
    var x :| 0 <= x < |order| && order[x] == 0;
    assert !SavePasses(db, db.batches[0], order, x);
  }

  // ---- an update onto the key of another object ----

  const TAKEN_VALUES := Values(Text(2, 2, 0), Text(2, 2, 0), false)
  const OTHER_OBJECT := CLASH_OBJECT.(values := TAKEN_VALUES)

  /** A landlord record with the name and phone number of the second landlord. */
  function TakenBatch(): Batch {
    Batch(1, 1, true, Blocked, None, 0, None, NO_CHOICES,
          [PlainRecord(Landlord, 1, false, 0, 0).(values := TAKEN_VALUES)], None)
  }

  /** It is mapped to the first landlord, and is to update it. */
  const TAKEN_CHOICES := Decisions(map[(Landlord, 1) := 1], map[(Landlord, 1) := NO_EXTRA.(action := Some(TakeUpdate))],
                                   map[])

  function TakenSteps(): seq<Step> {
    [AddObject(CLASH_OBJECT), AddObject(OTHER_OBJECT), AddBatch(TakenBatch()), MakePreview(0, TAKEN_CHOICES, SAVE_ENV)]
  }

  function TakenTables(): Db {
    Start(0).db.(objects := map[1 := CLASH_OBJECT, 2 := OTHER_OBJECT], nextId := 3, batches := [TakenBatch()])
  }

  predicate TakenRecords(records: seq<Record>) {
    && |records| == 1 && records[0].kind == Landlord && records[0].state == Pending
    && records[0].plan.action == Update && records[0].plan.target == Some(1)
    && records[0].plan.fields.Some? && records[0].plan.fields.value.values == TAKEN_VALUES
  }

  lemma TakenPlans(db: Db, batch: Batch)
    requires db.mappings == map[] && db.objects == TakenTables().objects && batch.complete && batch.org == 1
    requires batch.source == 1 && |batch.records| == 1
    requires SameSource(TakenBatch().records[0], batch.records[0]) && batch.records[0].state == Pending
    ensures var checked := Previewed(db, batch, TAKEN_CHOICES, SAVE_ENV);
            && !checked.preview.value.issues && checked.decisions == TAKEN_CHOICES && TakenRecords(checked.records)
            && checked.records[0].plan == FindingFor(TakenTables(), TakenBatch(), TAKEN_CHOICES, 0, SAVE_ENV).plan
            && checked.records[0] == batch.records[0].(plan := checked.records[0].plan)
  {
    PlannedRecordsAt(db, batch, TAKEN_CHOICES, SAVE_ENV, 1);
    assert PlannedTarget(db, batch, TAKEN_CHOICES, batch.records[0]) == Some(1);
    assert !FindingFor(db, batch, TAKEN_CHOICES, 0, SAVE_ENV).issue;
    assert !AnyIssue(db, batch, TAKEN_CHOICES, SAVE_ENV, 1);
    assert TakenRecords(Previewed(db, batch, TAKEN_CHOICES, SAVE_ENV).records);
    assert BoundMembers(db, batch, TAKEN_CHOICES, SAVE_ENV, 1) == TAKEN_CHOICES.members;
  }

  lemma TakenRun(sys: System)
    requires sys == Run(Start(0), TakenSteps())
    ensures |sys.db.batches| == 1
    ensures sys.db == TakenTables().(batches := [Previewed(TakenTables(), TakenBatch(), TAKEN_CHOICES, SAVE_ENV)])
  {
    var first, second := [AddObject(CLASH_OBJECT)], [AddObject(CLASH_OBJECT), AddObject(OTHER_OBJECT)];
    var third := second + [AddBatch(TakenBatch())];
    TwoObjects(second);
    assert FreshBatch(TakenBatch());
    RunOn(second, AddBatch(TakenBatch()));
    assert Run(Start(0), third).db == TakenTables();
    RunOn(third, MakePreview(0, TAKEN_CHOICES, SAVE_ENV));
    assert TakenSteps() == third + [MakePreview(0, TAKEN_CHOICES, SAVE_ENV)];
  }

  lemma TwoObjects(steps: seq<Step>)
    requires steps == [AddObject(CLASH_OBJECT), AddObject(OTHER_OBJECT)]
    ensures Run(Start(0), steps).db == TakenTables().(batches := [])
  {
    RunOn([], AddObject(CLASH_OBJECT));
    assert [] + [AddObject(CLASH_OBJECT)] == [AddObject(CLASH_OBJECT)];
    RunOn([AddObject(CLASH_OBJECT)], AddObject(OTHER_OBJECT));
    assert [AddObject(CLASH_OBJECT)] + [AddObject(OTHER_OBJECT)] == steps;
  }

  lemma TakenConfirmed(sys: System, version: Version)
    requires sys.db == TakenTables().(batches := [Previewed(TakenTables(), TakenBatch(), TAKEN_CHOICES, SAVE_ENV)])
    requires version == Previewed(TakenTables(), TakenBatch(), TAKEN_CHOICES, SAVE_ENV).preview.value.version
    ensures StartsImport(sys, 0, version, SAVE_ENV)
    ensures TakenRecords(Previewed(sys.db, sys.db.batches[0], sys.db.batches[0].decisions, SAVE_ENV).records)
  {
    TakenPlans(TakenTables(), TakenBatch());
    TakenPlans(sys.db, sys.db.batches[0]);
    StartsWhenPreviewed(sys, version, SAVE_ENV);
  }

  /** The update is previewed and confirmed without an issue, and its save is refused. */
  lemma ConfirmedOntoTakenKey()
    ensures var sys := Run(Start(0), TakenSteps());
            && |sys.db.batches| == 1 && sys.db.batches[0].preview.Some?
            && var version := sys.db.batches[0].preview.value.version;
            && StartsImport(sys, 0, version, SAVE_ENV)
            && var db := Claimed(sys, 0, version, SAVE_ENV);
            && 0 < |db.batches| && OrderFits(db.batches[0].records, WorkOrder(db.batches[0].records))
            && !SavesPass(db, db.batches[0], WorkOrder(db.batches[0].records))
            && var done := WorkAll(db, 0, WorkOrder(db.batches[0].records), sys.db.nextToken, SAVE_ENV);
            && 0 < |done.batches| && Open(done.batches[0].records)
  {
    var sys := Run(Start(0), TakenSteps());
    TakenRun(sys);
    var version := sys.db.batches[0].preview.value.version;
    TakenConfirmed(sys, version);
    ConfirmingCopiesPreview(sys, 0, version, SAVE_ENV);
    ClaimedIsClaim(sys, 0, version, SAVE_ENV);
    ConfirmedImportOutcome(0, TakenSteps(), 0, version, SAVE_ENV);
    var db := Claimed(sys, 0, version, SAVE_ENV);
    TakenRefused(db, WorkOrder(db.batches[0].records));
  }

  lemma TakenRefused(db: Db, order: seq<nat>)
    requires 0 < |db.batches| && TakenRecords(db.batches[0].records) && OrderFits(db.batches[0].records, order)
    requires 0 in order && db.objects == TakenTables().objects && |order| == 1
    ensures !SavesPass(db, db.batches[0], order)
  {
    assert KeyOf(db.objects[2]) == KeyOf(Tidied(Overwritten(db.batches[0], db.batches[0].records[0], CLASH_OBJECT)));
    assert order[0] == 0 && !SavePasses(db, db.batches[0], order, 0);
  }
}
