/** The migration tables as the tasks and services update them in place. */
module MigrationStore {
  import opened Wrappers
  import opened Migration
  import Steps = MigrationSteps
  import opened MigrationProofs
  import opened MigrationOutcome

  datatype Outcome = Finished | Refused | Lost

  class Store {
    var now: int
    var batches: seq<Batch>
    var mappings: map<Identity, Mapping>
    var objects: map<nat, Object>
    var duties: map<(int, nat, nat), nat>
    var nextId: nat
    var nextToken: nat
    /** Only the specification reads this. */
    var created: seq<Creation>

    function State(): Db
      reads this
    {
      Db(now, batches, mappings, objects, duties, nextId, nextToken, created)
    }

    constructor (now: int)
      ensures State() == Steps.Start(now).db
    {
      this.now := now;
      batches, mappings, objects, duties, nextId, nextToken, created := [], map[], map[], map[], 1, 0, [];
    }

    // ---- planning ----

    /** Plans record after record, collecting the bound members, the keys written and whether anything blocks. */
    method PlanBatch(b: nat, d: Decisions, env: Env)
      requires b < |batches|
      modifies this`batches
      ensures State() == old(State()).(batches := old(batches)[b := Previewed(old(State()), old(batches)[b], d, env)])
    {
      var batch := batches[b];
      var records, members, issues := [], d.members, false;
      var keys: set<PackageKey> := {};
      for i := 0 to |batch.records|
        invariant batches == old(batches)
        invariant records == PlannedRecords(State(), batch, d, env, i)
        invariant members == BoundMembers(State(), batch, d, env, i)
        invariant issues == AnyIssue(State(), batch, d, env, i)
        invariant keys == WrittenKeys(State(), batch, d, i)
      {
        var r, key := batch.records[i], WrittenKey(State(), batch, d, batch.records[i]);
        var duplicate := DuplicateTarget(State(), batch, d, r) || (key.Some? && key.value in keys);
        var finding := FindingGiven(State(), batch, d, i, env, duplicate);
        if key.Some? { keys := keys + {key.value}; }
        records := records + [Replanned(r, finding.plan)];
        if r.kind == Staff && finding.plan.action == Reuse && finding.plan.target.Some? && r.source !in members {
          members := members[r.source := finding.plan.target.value];
        }
        issues := issues || finding.issue;
      }
      issues := issues || !batch.complete;
      var decisions := d.(members := members);
      var preview := Preview(Version(Plans(records), Hashes(records), decisions, env.members), issues);
      batches := batches[b := batch.(records := records, decisions := decisions, preview := Some(preview),
                                     status := if issues then Blocked else Awaiting)];
    }

    method PreviewBatch(b: nat, d: Decisions, env: Env) returns (ok: bool)
      requires b < |batches|
      modifies this`batches
      ensures ok == Steps.PreviewBatch(old(State()), b, d, env).Some?
      ensures State() == if ok then Steps.PreviewBatch(old(State()), b, d, env).value else old(State())
    {
      ok := batches[b].status != Importing;
      if ok { PlanBatch(b, d, env); }
    }

    /** A refusal rolls the recomputed preview back. */
    method ConfirmBatch(b: nat, version: Version, env: Env) returns (ok: bool)
      requires b < |batches|
      modifies this`batches
      ensures ok == Steps.ConfirmBatch(old(State()), b, version, env).Some?
      ensures State() == if ok then Steps.ConfirmBatch(old(State()), b, version, env).value else old(State())
    {
      var before := batches;
      if Steps.OtherImport(State(), b) { return false; }
      if batches[b].status == Importing || batches[b].status == Completed { return true; }
      if batches[b].status != Awaiting && batches[b].status != PartialFailed { return false; }
      PlanBatch(b, batches[b].decisions, env);
      var preview := batches[b].preview.value;
      ok := preview.version == version && !preview.issues;
      batches := if ok then batches[b := batches[b].(status := Importing, heartbeat := now, token := None)] else before;
    }

    method ReopenFailed(b: nat)
      requires b < |batches|
      modifies this`batches
      ensures State() == Steps.ReopenFailed(old(State()), b)
    {
      batches := batches[b := batches[b].(records := Steps.AllReopened(batches[b].records))];
    }

    // ---- executing one record ----

    method WriteRecord(b: nat, i: nat, r: Record)
      requires b < |batches| && i < |batches[b].records|
      modifies this`batches
      ensures State() == SetRecord(old(State()), b, i, r)
    {
      batches := batches[b := batches[b].(records := batches[b].records[i := r])];
    }

    /** The object is created and logged; its id is the next one. */
    method CreateObject(b: nat, i: nat, made: Object) returns (target: nat)
      requires b < |batches| && i < |batches[b].records|
      modifies this`objects, this`nextId, this`created
      ensures var batch, r := batches[b], batches[b].records[i];
              && target == old(nextId) && nextId == target + 1
              && objects == old(objects)[target := Tidied(made)]
              && created == old(created) + [Creation(IdentityOf(batch, r), target, b, i, ChoiceFor(batch.decisions, r))]
    {
      var batch, r := batches[b], batches[b].records[i];
      target := nextId;
      objects := objects[target := Tidied(made)];
      created := created + [Creation(IdentityOf(batch, r), target, b, i, ChoiceFor(batch.decisions, r))];
      nextId := nextId + 1;
    }

    method SettleRecord(b: nat, i: nat, target: nat, state: RecordState)
      requires b < |batches| && i < |batches[b].records|
      modifies this`batches, this`mappings
      ensures State() == Settle(old(State()), b, i, target, state)
    {
      var r := batches[b].records[i];
      mappings := mappings[IdentityOf(batches[b], r) := Mapping(target, r.hash)];
      WriteRecord(b, i, r.(state := state, target := Some(target)));
    }

    method CreateFor(b: nat, i: nat) returns (ok: bool)
      requires b < |batches| && i < |batches[b].records|
      modifies this
      ensures var ran := ExecuteCreate(old(State()), b, i);
              ok == ran.Done? && State() == if ok then ran.db else old(State())
    {
      var batch, r := batches[b], batches[b].records[i];
      var building := None;
      if r.kind == House {
        building := BuildingOf(batch, r);
        if building.None? { return false; }
      }
      var made := Object(r.kind, batch.org, 0, r.kind == Landlord, building, LandlordFor(r, None),
                         ValuesFor(r, Values(NO_TEXT, NO_TEXT, false)), NEW_REST,
                         Overlaid(BLANK_CONTENT, r.plan.fields));
      if !Accepted(objects, nextId, made) { return false; }
      var target := CreateObject(b, i, made);
      SettleRecord(b, i, target, Created);
      ok := true;
    }

    method WorkOn(b: nat, i: nat, action: Action, target: Option<nat>, version: Option<nat>) returns (ok: bool)
      requires b < |batches| && i < |batches[b].records| && action in {Update, Reuse, Skip}
      modifies this
      ensures var ran := ExecuteExisting(old(State()), b, i, action, target, version);
              ok == ran.Done? && State() == if ok then ran.db else old(State())
    {
      var batch, r := batches[b], batches[b].records[i];
      if target.None? || !Available(State(), r.kind, batch.org, target.value) { return false; }
      var held := objects[target.value];
      if version != Some(held.version) { return false; }
      if action == Update {
        if r.kind == House {
          var building := BuildingOf(batch, r);
          if building.None? { return false; }
          held := held.(building := building);
        }
        if r.kind == Landlord { held := held.(landlordRole := true, rest := held.rest.(roles := true)); }
        held := held.(version := held.version + 1, landlord := LandlordFor(r, held.landlord),
                      values := ValuesFor(r, held.values), content := Overlaid(held.content, r.plan.fields));
        if !Accepted(objects, target.value, held) { return false; }
        held := Tidied(held);
      } else if r.kind == Landlord && !held.landlordRole {
        held := held.(landlordRole := true, version := held.version + 1);
        if !Accepted(objects, target.value, held) { return false; }
      }
      objects := objects[target.value := held];
      SettleRecord(b, i, target.value, match action case Update => Updated case Reuse => Reused case _ => Skipped);
      ok := true;
    }

    method BusinessRecord(b: nat, i: nat) returns (ok: bool)
      requires b < |batches| && i < |batches[b].records|
      requires batches[b].records[i].plan.action in {Create, Update, Reuse, Skip}
      modifies this
      ensures var ran := ExecuteBusiness(old(State()), b, i);
              ok == ran.Done? && State() == if ok then ran.db else old(State())
    {
      var batch, r := batches[b], batches[b].records[i];
      var action, target, version := r.plan.action, r.plan.target, r.plan.targetVersion;
      var previous := Lookup(mappings, IdentityOf(batch, r));
      if previous != r.plan.mappingVersion {
        if action != Create || previous.None? || previous.value.sourceHash != r.hash { return false; }
        if !Available(State(), r.kind, batch.org, previous.value.target) { return false; }
        action, target, version := Skip, Some(previous.value.target), Some(objects[previous.value.target].version);
      }
      if action == Create {
        ok := CreateFor(b, i);
      } else {
        ok := WorkOn(b, i, action, target, version);
      }
    }

    method OtherRecord(b: nat, i: nat, env: Env) returns (ok: bool)
      requires b < |batches| && i < |batches[b].records|
      modifies this
      ensures var ran := ExecuteOther(old(State()), b, i, env);
              ok == ran.Done? && State() == if ok then ran.db else old(State())
    {
      var batch, r := batches[b], batches[b].records[i];
      if r.kind == Staff && r.plan.action == Reuse {
        if r.plan.target.None? || r.plan.target.value !in env.members { return false; }
        SettleRecord(b, i, r.plan.target.value, Reused);
      } else if r.plan.action == Responsibility {
        if r.plan.target.None? || r.plan.target.value !in env.members { return false; }
        var landlord := Dependency(batch, Landlord, r.landlordSource);
        if landlord.None? { return false; }
        var duty := (batch.org, r.plan.target.value, landlord.value);
        if duty in duties {
          WriteRecord(b, i, r.(state := Reused, target := Some(duties[duty])));
        } else {
          if !IsLandlord(objects, batch.org, landlord.value) { return false; }
          var made := nextId;
          duties, nextId := duties[duty := made], made + 1;
          WriteRecord(b, i, r.(state := Created, target := Some(made)));
        }
      } else {
        WriteRecord(b, i, r.(state := Archived));
      }
      ok := true;
    }

    method ExecuteRecord(b: nat, i: nat, token: nat, env: Env) returns (outcome: Outcome)
      requires b < |batches| && i < |batches[b].records|
      modifies this
      ensures match Migration.ExecuteRecord(old(State()), b, i, token, env)
              case LeaseLost => outcome == Lost && State() == old(State())
              case Raised => outcome == Refused && State() == old(State())
              case Done(next) => outcome == Finished && State() == next
    {
      var r := batches[b].records[i];
      if batches[b].token != Some(token) { return Lost; }
      if Final(r.state) { return Finished; }
      var ok;
      if Business(r.kind) && r.plan.action in {Create, Update, Reuse, Skip} {
        ok := BusinessRecord(b, i);
      } else {
        ok := OtherRecord(b, i, env);
      }
      outcome := if ok then Finished else Refused;
    }

    // ---- the worker ----

    method Claim(b: nat) returns (token: Option<nat>)
      requires b < |batches|
      modifies this`batches, this`nextToken
      ensures token == if Steps.Claimable(old(State()), b) then Some(old(nextToken)) else None
      ensures forall workers :: State()
                == if token.Some? then Steps.Claim(Steps.System(old(State()), workers), b).db else old(State())
    {
      if !Steps.Claimable(State(), b) { return None; }
      token := Some(nextToken);
      batches := batches[b := batches[b].(token := token, heartbeat := now)];
      nextToken := nextToken + 1;
    }

    method Heartbeat(b: nat, token: nat) returns (held: bool)
      modifies this`batches
      ensures held == Steps.Holds(old(State()), b, token)
      ensures State() == Steps.Heartbeat(old(State()), b, token)
    {
      held := Steps.Holds(State(), b, token);
      if held { batches := batches[b := batches[b].(heartbeat := now)]; }
    }

    method MarkFailed(b: nat, i: nat, token: nat)
      modifies this`batches
      ensures State() == Steps.MarkFailed(old(State()), b, i, token)
    {
      if Steps.Holds(State(), b, token) && i < |batches[b].records| && !Final(batches[b].records[i].state) {
        WriteRecord(b, i, batches[b].records[i].(state := Failed));
      }
    }

    /** Counts the records by state; the counts are stored only while the token is held. */
    method RefreshSummary(b: nat, token: nat) returns (summary: Summary)
      requires b < |batches|
      modifies this`batches
      ensures summary == Steps.SummaryOf(old(batches)[b].records)
      ensures State() == Steps.RefreshSummary(old(State()), b, token)
    {
      var records := batches[b].records;
      var counts: map<RecordState, nat> := map[];
      for i := 0 to |records|
        invariant forall state :: CountIn(counts, state) == Steps.CountState(records[..i], state)
      {
        assert records[..i + 1][..i] == records[..i];
        var state := records[i].state;
        counts := counts[state := CountIn(counts, state) + 1];
      }
      assert records[..|records|] == records;
      summary := Summary(CountIn(counts, Created), CountIn(counts, Updated), CountIn(counts, Reused),
                         CountIn(counts, Skipped),
                         CountIn(counts, Archived), CountIn(counts, Failed), CountIn(counts, Pending), |records|);
      if Steps.Holds(State(), b, token) { batches := batches[b := batches[b].(summary := Some(summary))]; }
    }

    method FinishImport(b: nat, token: nat, unfinished: bool)
      modifies this`batches
      ensures State() == Steps.FinishImport(old(State()), b, token, unfinished)
    {
      if Steps.Holds(State(), b, token) {
        batches := batches[b := batches[b].(status := if unfinished then PartialFailed else Completed,
                                            token := None, heartbeat := now)];
      }
    }

    /** One turn of the loop while nobody interferes: heartbeat, the record, and its failure mark. */
    method WorkRecord(b: nat, i: nat, token: nat, crash: bool, env: Env, ghost sys: Steps.System)
      requires Steps.Holds(State(), b, token) && i < |batches[b].records|
      requires sys.db == State() && Ready(sys, b, i, token)
      modifies this
      ensures State() == Turn(sys, token, crash, env).db
    {
      var held := Heartbeat(b, token);
      var outcome := Refused;
      if !crash { outcome := ExecuteRecord(b, i, token, env); }
      if outcome == Refused { MarkFailed(b, i, token); }
    }

    /** The loop over all records in execution order. */
    method WorkThrough(b: nat, token: nat, crashes: set<nat>, env: Env, ghost start: Steps.System,
                       ghost before: seq<Steps.Step>)
      returns (ghost steps: seq<Steps.Step>)
      requires Steps.Holds(State(), b, token) && State() == Steps.Run(start, before).db
      requires At(Steps.Run(start, before), b, token, Steps.WorkOrder(batches[b].records))
      requires batches[b].heartbeat == now
      modifies this
      ensures Steps.Holds(State(), b, token) && State() == Steps.Run(start, steps).db
      ensures At(Steps.Run(start, steps), b, token, [])
      ensures AllWorked(batches[b].records)
      ensures crashes == {} ==>
                State() == WorkAll(old(State()), b, Steps.WorkOrder(old(batches)[b].records), token, env)
    {
      ghost var claimed := State();
      steps := before;
      var order := Steps.WorkOrder(batches[b].records);
      var n := |batches[b].records|;
      for k := 0 to n
        invariant Steps.Holds(State(), b, token) && |batches[b].records| == n
        invariant State() == Steps.Run(start, steps).db && At(Steps.Run(start, steps), b, token, order[k..])
        invariant forall j :: 0 <= j < k ==> Worked(batches[b].records[order[j]].state)
        invariant batches[b].heartbeat == now
        invariant crashes == {} ==>
                    WorkAll(State(), b, order[k..], token, env) == WorkAll(claimed, b, order, token, env)
      {
        assert order[k..][0] == order[k] && order[k..][1..] == order[k + 1..];
        ghost var sys := Steps.Run(start, steps);
        TurnEffect(sys, b, order[k], token, order[k] in crashes, env);
        TurnRuns(start, steps, token, order[k] in crashes, env);
        if crashes == {} { TurnIsTurnOf(sys, b, order[k], token, env); }
        WorkRecord(b, order[k], token, order[k] in crashes, env, sys);
        steps := steps + TurnSteps(sys, token, order[k] in crashes, env);
      }
      OrderCovers(batches[b].records, order);
    }

    /** The whole job while nobody interferes; crashes are the records whose transaction breaks unexpectedly. */
    method ExecuteBatch(b: nat, crashes: set<nat>, env: Env, ghost workers: map<nat, Steps.Worker>)
      returns (claimed: bool, ghost steps: seq<Steps.Step>)
      requires b < |batches|
      modifies this
      ensures claimed == Steps.Claimable(old(State()), b)
      ensures State() == Steps.Run(Steps.System(old(State()), workers), steps).db
      ensures !claimed ==> steps == []
      ensures claimed ==> Settled(batches, b)
      ensures claimed && crashes == {} ==>
                var done := WorkAll(Steps.Claim(Steps.System(old(State()), workers), b).db, b,
                                    Steps.WorkOrder(old(batches)[b].records), old(nextToken), env);
                b < |done.batches| && batches[b].records == done.batches[b].records
    {
      ghost var start := Steps.System(State(), workers);
      var taken := Claim(b);
      claimed, steps := taken.Some?, [];
      if !claimed { return; }
      var token := taken.value;
      RunOneMore(start, [], Steps.TakeBatch(b));
      steps := WorkThrough(b, token, crashes, env, start, [Steps.TakeBatch(b)]);
      EndRuns(start, steps, b, token, env);
      steps := steps + [Steps.Work(token, false, env), Steps.Work(token, false, env)];
      ghost var records := batches[b].records;
      var summary := RefreshSummary(b, token);
      FinishImport(b, token, summary.failed > 0 || summary.pending > 0);
      WorkedShowsFailed(records);
    }
  }

  predicate AllWorked(records: seq<Record>) {
    forall i :: 0 <= i < |records| ==> Worked(records[i].state)
  }

  /** The worker has these records left, and starts its next turn or its summary. */
  predicate At(sys: Steps.System, b: nat, token: nat, todo: seq<nat>) {
    token in sys.workers
    && sys.workers[token] == Steps.Worker(b, todo, if todo == [] then Steps.Summarising else Steps.Beat)
  }

  lemma OrderCovers(records: seq<Record>, order: seq<nat>)
    requires forall i: nat :: i < |records| ==> i in order
    requires forall j :: 0 <= j < |order| ==> order[j] < |records| && Worked(records[order[j]].state)
    ensures AllWorked(records)
  {
    forall i | 0 <= i < |records| ensures Worked(records[i].state) {
      assert i as nat in order;
    }
  }

  lemma WorkedShowsFailed(records: seq<Record>)
    requires AllWorked(records)
    ensures var summary := Steps.SummaryOf(records);
            (summary.failed > 0 || summary.pending > 0) <==>
              exists i :: 0 <= i < |records| && records[i].state == Failed
  {
    CountPositive(records, Failed);
    CountPositive(records, Pending);
  }

  lemma EndRuns(start: Steps.System, steps: seq<Steps.Step>, b: nat, token: nat, env: Env)
    requires var sys := Steps.Run(start, steps); Steps.Holds(sys.db, b, token) && At(sys, b, token, [])
    ensures var sys := Steps.Run(start, steps);
            var summary := Steps.SummaryOf(sys.db.batches[b].records);
            Steps.Run(start, steps + [Steps.Work(token, false, env), Steps.Work(token, false, env)]).db
            == Steps.FinishImport(Steps.RefreshSummary(sys.db, b, token), b, token,
                                  summary.failed > 0 || summary.pending > 0)
  {
    var step, sys := Steps.Work(token, false, env), Steps.Run(start, steps);
    RunOneMore(start, steps, step);
    RunOneMore(start, steps + [step], step);
    assert steps + [step] + [step] == steps + [step, step];
    EndTurn(sys, b, token, env);
  }

  lemma EndTurn(sys: Steps.System, b: nat, token: nat, env: Env)
    requires Steps.Holds(sys.db, b, token) && At(sys, b, token, [])
    ensures var step, summary := Steps.Work(token, false, env), Steps.SummaryOf(sys.db.batches[b].records);
            Steps.After(Steps.After(sys, step), step).db
            == Steps.FinishImport(Steps.RefreshSummary(sys.db, b, token), b, token,
                                  summary.failed > 0 || summary.pending > 0)
  {
  }

  /** The worker is about to work on this record of this batch. */
  predicate Ready(sys: Steps.System, b: nat, i: nat, token: nat) {
    token in sys.workers && sys.workers[token].batch == b && sys.workers[token].phase == Steps.Beat
    && sys.workers[token].todo != [] && sys.workers[token].todo[0] == i
  }

  predicate Worked(state: RecordState) {
    Final(state) || state == Failed
  }

  /** The import is over: every record was worked on, and status and summary say how it went. */
  predicate Settled(batches: seq<Batch>, b: nat) {
    && b < |batches| && batches[b].token.None?
    && AllWorked(batches[b].records)
    && batches[b].status == (if exists i :: 0 <= i < |batches[b].records| && batches[b].records[i].state == Failed
                             then PartialFailed
                             else Completed)
    && batches[b].summary == Some(Steps.SummaryOf(batches[b].records))
  }

  /** The steps of one turn: a third one only when the record failed. */
  function TurnSteps(sys: Steps.System, token: nat, crash: bool, env: Env): seq<Steps.Step> {
    var step := Steps.Work(token, crash, env);
    var two := Steps.After(Steps.After(sys, step), step);
    if token in two.workers && two.workers[token].phase.Marking? then [step, step, step] else [step, step]
  }

  function Turn(sys: Steps.System, token: nat, crash: bool, env: Env): Steps.System {
    var step := Steps.Work(token, crash, env);
    var two := Steps.After(Steps.After(sys, step), step);
    if token in two.workers && two.workers[token].phase.Marking? then Steps.After(two, step) else two
  }

  lemma RunOneMore(start: Steps.System, steps: seq<Steps.Step>, step: Steps.Step)
    ensures Steps.Run(start, steps + [step]) == Steps.After(Steps.Run(start, steps), step)
  {
    assert (steps + [step])[..|steps|] == steps;
  }

  lemma TurnRuns(start: Steps.System, steps: seq<Steps.Step>, token: nat, crash: bool, env: Env)
    ensures var sys := Steps.Run(start, steps);
            Steps.Run(start, steps + TurnSteps(sys, token, crash, env)) == Turn(sys, token, crash, env)
  {
    var step := Steps.Work(token, crash, env);
    var sys := Steps.Run(start, steps);
    RunOneMore(start, steps, step);
    RunOneMore(start, steps + [step], step);
    RunOneMore(start, steps + [step] + [step], step);
    assert steps + [step] + [step] == steps + [step, step];
    assert steps + [step, step] + [step] == steps + [step, step, step];
  }

  lemma TurnIsTurnOf(sys: Steps.System, b: nat, i: nat, token: nat, env: Env)
    requires Ready(sys, b, i, token) && Steps.Holds(sys.db, b, token) && i < |sys.db.batches[b].records|
    requires sys.db.batches[b].heartbeat == sys.db.now
    ensures Turn(sys, token, false, env).db == TurnOf(sys.db, b, i, token, env)
  {
    assert Steps.Heartbeat(sys.db, b, token) == sys.db;
  }

  predicate OnlyRecord(before: Db, after: Db, b: nat, i: nat) {
    && b < |before.batches| && b < |after.batches| && |after.batches[b].records| == |before.batches[b].records|
    && forall j :: 0 <= j < |before.batches[b].records| && j != i ==>
         after.batches[b].records[j] == before.batches[b].records[j]
  }

  /** Carrying out a record finishes it, or leaves everything for the failure mark. */
  lemma ExecutingStep(sys: Steps.System, b: nat, i: nat, token: nat, crash: bool, env: Env)
    requires Steps.Holds(sys.db, b, token) && i < |sys.db.batches[b].records|
    requires token in sys.workers && sys.workers[token].batch == b && sys.workers[token].phase.Executing?
    requires sys.workers[token].todo != [] && sys.workers[token].todo[0] == i
    ensures var next := Steps.After(sys, Steps.Work(token, crash, env));
            && OnlyRecord(sys.db, next.db, b, i) && token in next.workers
            && if next.workers[token].phase.Marking?
               then next.db == sys.db && next.workers[token].todo == sys.workers[token].todo
                    && next.workers[token].batch == b
               else Final(next.db.batches[b].records[i].state)
  {
    if Migration.ExecuteRecord(sys.db, b, i, token, env).Done? {
      ExecutionShape(sys.db, b, i, token, env);
    }
  }

  lemma TurnEffect(sys: Steps.System, b: nat, i: nat, token: nat, crash: bool, env: Env)
    requires Ready(sys, b, i, token) && Steps.Holds(sys.db, b, token) && i < |sys.db.batches[b].records|
    ensures var next := Turn(sys, token, crash, env);
            && token in next.workers && next.workers[token] == Steps.NextRecord(sys.workers[token])
            && Steps.Holds(next.db, b, token) && |next.db.batches[b].records| == |sys.db.batches[b].records|
            && next.db.batches[b].heartbeat == next.db.now == sys.db.now
            && Worked(next.db.batches[b].records[i].state)
            && forall j :: 0 <= j < |sys.db.batches[b].records| && j != i ==>
                 next.db.batches[b].records[j] == sys.db.batches[b].records[j]
  {
    var one := Steps.After(sys, Steps.Work(token, crash, env));
    ExecutingStep(one, b, i, token, crash, env);
    if Migration.ExecuteRecord(one.db, b, i, token, env).Done? {
      ExecutionShape(one.db, b, i, token, env);
    }
  }

  function CountIn(counts: map<RecordState, nat>, state: RecordState): nat {
    if state in counts then counts[state] else 0
  }
}
