/** The atomic database steps of workers, operators and everyone else, in any interleaving. */
module MigrationSteps {
  import opened Wrappers
  import opened Ordering
  import opened Migration

  const LEASE := 15 * 60

  /** Where a worker stands: each phase ends in one database step. */
  datatype Phase = Beat | Executing | Marking | Summarising | Finishing(unfinished: bool) | Stopped

  datatype Worker = Worker(batch: nat, todo: seq<nat>, phase: Phase)

  /** The tables, and every worker that ever claimed a batch, by its token. */
  datatype System = System(db: Db, workers: map<nat, Worker>)

  function KindRank(kind: EntityKind): int {
    match kind
    case Team => 0 case Staff => 1
    case Landlord => 2 case Building => 3
    case House => 4 case Relation => 5
    case Other => 6
  }

  /** The records in execution order: by kind, then by id. */
  function WorkOrder(records: seq<Record>): (order: seq<nat>)
    ensures |order| == |records| && forall i: nat :: i in order <==> i < |records|
  {
    Order(seq(|records|, i requires 0 <= i < |records| => Key(KindRank(records[i].kind), 0, 0)))
  }

  // ---- operator steps ----

  function PreviewBatch(db: Db, b: nat, d: Decisions, env: Env): Option<Db> {
    if b >= |db.batches| || db.batches[b].status == Importing then None
    else Some(db.(batches := db.batches[b := Previewed(db, db.batches[b], d, env)]))
  }

  predicate OtherImport(db: Db, b: nat)
    requires b < |db.batches|
  {
    exists o ::
      && 0 <= o < |db.batches| && o != b
      && db.batches[o].org == db.batches[b].org
      && db.batches[o].status == Importing
  }

  /** Starts the import when a fresh preview is exactly the confirmed version and has no issue; refused otherwise. */
  function ConfirmBatch(db: Db, b: nat, version: Version, env: Env): Option<Db> {
    if b >= |db.batches| || OtherImport(db, b) then None
    else if db.batches[b].status == Importing || db.batches[b].status == Completed then Some(db)
    else if db.batches[b].status != Awaiting && db.batches[b].status != PartialFailed then None
    else
      var checked := Previewed(db, db.batches[b], db.batches[b].decisions, env);
      if checked.preview.value.version != version || checked.preview.value.issues then None
      else Some(db.(batches := db.batches[b := checked.(status := Importing, heartbeat := db.now, token := None)]))
  }

  /** The step of a retry that reopens failed records; it looks at nothing else. */
  function Reopened(r: Record): Record {
    if r.state == Failed then r.(state := Pending) else r
  }

  function AllReopened(records: seq<Record>): seq<Record> {
    seq(|records|, i requires 0 <= i < |records| => Reopened(records[i]))
  }

  function ReopenFailed(db: Db, b: nat): Db
    requires b < |db.batches|
  {
    db.(batches := db.batches[b := db.batches[b].(records := AllReopened(db.batches[b].records))])
  }

  // ---- worker steps ----

  predicate Claimable(db: Db, b: nat) {
    && b < |db.batches| && db.batches[b].status == Importing
    && !(db.batches[b].token.Some? && db.batches[b].heartbeat > db.now - LEASE)
  }

  function Claim(sys: System, b: nat): System
    requires Claimable(sys.db, b)
  {
    var token := sys.db.nextToken;
    var batch := sys.db.batches[b].(token := Some(token), heartbeat := sys.db.now);
    System(sys.db.(batches := sys.db.batches[b := batch], nextToken := token + 1),
           sys.workers[token := Worker(b, WorkOrder(batch.records), if batch.records == [] then Summarising else Beat)])
  }

  function Holds(db: Db, b: nat, token: nat): bool {
    b < |db.batches| && db.batches[b].token == Some(token)
  }

  function Heartbeat(db: Db, b: nat, token: nat): Db {
    if Holds(db, b, token) then db.(batches := db.batches[b := db.batches[b].(heartbeat := db.now)]) else db
  }

  function MarkFailed(db: Db, b: nat, i: nat, token: nat): Db {
    if Holds(db, b, token) && i < |db.batches[b].records| && !Final(db.batches[b].records[i].state)
    then SetRecord(db, b, i, db.batches[b].records[i].(state := Failed))
    else db
  }

  function CountState(records: seq<Record>, state: RecordState): nat {
    if records == [] then 0
    else CountState(records[..|records| - 1], state) + if records[|records| - 1].state == state then 1 else 0
  }

  function SummaryOf(records: seq<Record>): Summary {
    Summary(CountState(records, Created), CountState(records, Updated), CountState(records, Reused),
            CountState(records, Skipped),
            CountState(records, Archived), CountState(records, Failed), CountState(records, Pending), |records|)
  }

  function RefreshSummary(db: Db, b: nat, token: nat): Db {
    if Holds(db, b, token)
    then db.(batches := db.batches[b := db.batches[b].(summary := Some(SummaryOf(db.batches[b].records)))])
    else db
  }

  function FinishImport(db: Db, b: nat, token: nat, unfinished: bool): Db {
    if Holds(db, b, token)
    then db.(batches := db.batches[b := db.batches[b].(status := if unfinished then PartialFailed else Completed,
                                                       token := None, heartbeat := db.now)])
    else db
  }

  /** On to the next record, or to the summary after the last one. */
  function NextRecord(w: Worker): Worker
    requires w.todo != []
  {
    w.(todo := w.todo[1..], phase := if |w.todo| == 1 then Summarising else Beat)
  }

  /** One step of a worker; `crash` is an unexpected failure inside the record's transaction. */
  function WorkStep(db: Db, w: Worker, token: nat, crash: bool, env: Env): (Db, Worker) {
    match w.phase
    case Stopped => (db, w)
    case Beat =>
      (Heartbeat(db, w.batch, token), w.(phase := if Holds(db, w.batch, token) then Executing else Stopped))
    case Executing =>
      if w.todo == [] then (db, w.(phase := Stopped))
      else (match ExecuteRecord(db, w.batch, w.todo[0], token, env)
            case LeaseLost => (db, w.(phase := Stopped))
            case Raised => (db, w.(phase := Marking))
            case Done(next) => if crash then (db, w.(phase := Marking)) else (next, NextRecord(w)))
    case Marking =>
      if w.todo == [] then (db, w.(phase := Stopped))
      else (MarkFailed(db, w.batch, w.todo[0], token), NextRecord(w))
    case Summarising =>
      if w.batch >= |db.batches| then (db, w.(phase := Stopped))
      else
        var summary := SummaryOf(db.batches[w.batch].records);
        (RefreshSummary(db, w.batch, token), w.(phase := Finishing(summary.failed > 0 || summary.pending > 0)))
    case Finishing(unfinished) =>
      (FinishImport(db, w.batch, token, unfinished), w.(phase := Stopped))
  }

  // ---- all steps ----

  /** A batch whose package has just been read. */
  predicate FreshBatch(batch: Batch) {
    && batch.status == Blocked && batch.token.None? && batch.preview.None? && batch.summary.None?
    && forall r :: r in batch.records ==> r.state == Pending && r.target.None? && r.plan == ARCHIVE_PLAN
  }

  datatype Step =
    | AddBatch(batch: Batch)
    | MakePreview(b: nat, decisions: Decisions, env: Env)
    | Confirm(b: nat, version: Version, env: Env)
    | Reopen(b: nat)
    | TakeBatch(b: nat)
    | Work(token: nat, crash: bool, env: Env)
    | Tick(seconds: nat)
    | AddObject(made: Object)
    | EditObject(id: nat, values: Object, stamped: bool)
    | RemoveObject(id: nat)

  function Existing(objects: map<nat, Object>, id: Option<nat>): Option<nat> {
    if id.Some? && id.value in objects then id else None
  }

  /** The database keeps no reference to an object that does not exist. */
  function Referring(objects: map<nat, Object>, o: Object): Object {
    o.(building := Existing(objects, o.building), landlord := Existing(objects, o.landlord))
  }

  /** A removed landlord's responsibilities go with it. */
  function DutiesWithout(duties: map<(int, nat, nat), nat>, landlord: nat): map<(int, nat, nat), nat> {
    map duty | duty in duties && duty.2 != landlord :: duties[duty]
  }

  /** A save moves the time of the last change; an update past the save does not. Kind and organization stay. */
  function Edited(held: Object, values: Object, stamped: bool): Object {
    values.(kind := held.kind, org := held.org, version := held.version + if stamped then 1 else 0)
  }

  function After(sys: System, step: Step): System {
    var db := sys.db;
    match step
    case AddBatch(batch) => if FreshBatch(batch) then sys.(db := db.(batches := db.batches + [batch])) else sys
    case MakePreview(b, decisions, env) =>
      (match PreviewBatch(db, b, decisions, env) case Some(next) => sys.(db := next) case None => sys)
    case Confirm(b, version, env) =>
      (match ConfirmBatch(db, b, version, env) case Some(next) => sys.(db := next) case None => sys)
    case Reopen(b) => if b < |db.batches| then sys.(db := ReopenFailed(db, b)) else sys
    case TakeBatch(b) => if Claimable(db, b) then Claim(sys, b) else sys
    case Work(token, crash, env) =>
      if token in sys.workers
      then (var (next, w) := WorkStep(db, sys.workers[token], token, crash, env); System(next, sys.workers[token := w]))
      else sys
    case Tick(seconds) => sys.(db := db.(now := db.now + seconds))
    case AddObject(made) =>
      sys.(db := db.(objects := db.objects[db.nextId := Referring(db.objects, made)], nextId := db.nextId + 1))
    case EditObject(id, values, stamped) =>
      if id in db.objects
      then sys.(db := db.(objects :=
                            db.objects[id := Edited(db.objects[id], Referring(db.objects, values), stamped)]))
      else sys
    case RemoveObject(id) => sys.(db := db.(objects := db.objects - {id}, duties := DutiesWithout(db.duties, id)))
  }

  function Run(sys: System, steps: seq<Step>): System {
    if steps == [] then sys else After(Run(sys, steps[..|steps| - 1]), steps[|steps| - 1])
  }

  function Start(now: int): System {
    System(Db(now, [], map[], map[], map[], 1, 0, []), map[])
  }
}
