/** What recording, waiting and rolling up keep, over all runs. */
module RollupProofs {
  import opened Wrappers
  import opened Events
  import opened Rollup

  /**
   A day's accepted events are all still raw and it has no rows, or none is raw
   and its rows are the full groupings.
   */
  predicate DayKept(t: Tables, day: int) {
    || (OnDay(t.raw, day) == OnDay(t.log, day) && Dated(t.rows, day) == [])
    || (OnDay(t.raw, day) == [] && Dated(t.rows, day) == DailyRows(OnDay(t.log, day), day))
  }

  ghost predicate Kept(t: Tables) {
    forall day :: DayKept(t, day)
  }

  predicate RowsArePast(t: Tables, settings: Settings) {
    forall m :: m in t.rows ==> m.date < RawStart(settings, t.now)
  }

  predicate SourcesNamed(t: Tables) {
    forall e :: e in t.log ==> e.source in SOURCES
  }

  ghost predicate Sound(t: Tables, settings: Settings) {
    Kept(t) && RowsArePast(t, settings) && SourcesNamed(t)
  }

  /** Late events are refused before their day can have been rolled up. */
  predicate AgeWithinRetention(settings: Settings) {
    settings.maxAgeDays <= (if settings.retentionDays > 1 then settings.retentionDays else 1) - 1
  }

  // ---- filters ----

  lemma OnDaySnoc(events: seq<Event>, e: Event, day: int)
    ensures OnDay(events + [e], day)
              == if DayOf(e.occurredAt) == day then OnDay(events, day) + [e] else OnDay(events, day)
  {
    assert (events + [e])[..|events|] == events;
  }

  lemma {:induction false} OnDayAfterPurge(events: seq<Event>, day: int, other: int)
    ensures OnDay(NotOnDay(events, day), other) == if other == day then [] else OnDay(events, other)
  {
    if events != [] {
      var front, last := events[..|events| - 1], events[|events| - 1];
      OnDayAfterPurge(front, day, other);
      if DayOf(last.occurredAt) != day { OnDaySnoc(NotOnDay(front, day), last, other); }
    }
  }

  lemma DatedSnoc(rows: seq<Metric>, m: Metric, day: int)
    ensures Dated(rows + [m], day) == if m.date == day then Dated(rows, day) + [m] else Dated(rows, day)
  {
    assert (rows + [m])[..|rows|] == rows;
  }

  lemma {:induction false} DatedConcat(a: seq<Metric>, b: seq<Metric>, day: int)
    ensures Dated(a + b, day) == Dated(a, day) + Dated(b, day)
  {
    if b == [] {
      assert a + b == a;
    } else {
      var front, last := b[..|b| - 1], b[|b| - 1];
      assert a + b == (a + front) + [last];
      DatedSnoc(a + front, last, day);
      DatedConcat(a, front, day);
    }
  }

  lemma {:induction false} DatedAfterDelete(rows: seq<Metric>, day: int, other: int)
    ensures Dated(NotDated(rows, day), other) == if other == day then [] else Dated(rows, other)
  {
    if rows != [] {
      var front, last := rows[..|rows| - 1], rows[|rows| - 1];
      DatedAfterDelete(front, day, other);
      if last.date != day { DatedSnoc(NotDated(front, day), last, other); }
    }
  }

  lemma {:induction false} DatedAllOf(rows: seq<Metric>, day: int, other: int)
    requires forall m :: m in rows ==> m.date == day
    ensures Dated(rows, other) == if other == day then rows else []
  {
    if rows != [] {
      var front, last := rows[..|rows| - 1], rows[|rows| - 1];
      assert rows == front + [last];
      DatedAllOf(front, day, other);
    }
  }

  lemma {:induction false} RowsUpToDated(events: seq<Event>, day: int, n: nat)
    requires n <= |GROUPINGS|
    ensures forall m :: m in RowsUpTo(events, day, n) ==> m.date == day
  {
    if n > 0 { RowsUpToDated(events, day, n - 1); }
  }

  lemma {:induction false} KeysNotEmpty(events: seq<Event>, g: Grouping)
    ensures GroupKeys(events, g) == [] <==> events == []
  {
    if events != [] { KeysNotEmpty(events[..|events| - 1], g); }
  }

  lemma {:induction false} RowsUpToNotEmpty(events: seq<Event>, day: int, n: nat)
    requires 1 <= n <= |GROUPINGS|
    ensures RowsUpTo(events, day, n) == [] <==> events == []
  {
    KeysNotEmpty(events, GROUPINGS[n - 1]);
    if n > 1 {
      RowsUpToNotEmpty(events, day, n - 1);
    } else {
      assert RowsUpTo(events, day, 0) == [];
    }
  }

  lemma DailyRowsShape(events: seq<Event>, day: int, other: int)
    ensures DailyRows(events, day) == [] <==> events == []
    ensures Dated(DailyRows(events, day), other) == if other == day then DailyRows(events, day) else []
    ensures forall m :: m in DailyRows(events, day) ==> m.date == day
  {
    RowsUpToNotEmpty(events, day, |GROUPINGS|);
    RowsUpToDated(events, day, |GROUPINGS|);
    DatedAllOf(DailyRows(events, day), day, other);
  }

  /** The days still to visit: distinct, due, with raw events, and covering every event before the raw range. */
  predicate Pending(raw: seq<Event>, days: seq<int>, first: int) {
    && (forall i, j :: 0 <= i < j < |days| ==> days[i] != days[j])
    && (forall e :: e in raw && DayOf(e.occurredAt) < first ==> DayOf(e.occurredAt) in days)
    && (forall i :: 0 <= i < |days| ==> days[i] < first && OnDay(raw, days[i]) != [])
  }

  lemma {:induction false} DueDaysCover(raw: seq<Event>, first: int)
    ensures Pending(raw, DueDays(raw, first), first)
  {
    if raw != [] {
      var front, last := raw[..|raw| - 1], raw[|raw| - 1];
      assert raw == front + [last];
      DueDaysCover(front, first);
    }
  }

  // ---- steps ----

  /** What a purge leaves of any day. */
  lemma PurgedDay(t: Tables, day: int, other: int)
    ensures var next := PurgeDay(t, day);
            && OnDay(next.raw, other) == (if other == day then [] else OnDay(t.raw, other))
            && Dated(next.rows, other)
               == (if other == day then DailyRows(OnDay(t.raw, day), day) else Dated(t.rows, other))
  {
    var kept, made := NotDated(t.rows, day), DailyRows(OnDay(t.raw, day), day);
    OnDayAfterPurge(t.raw, day, other);
    DatedAfterDelete(t.rows, day, other);
    DatedConcat(kept, made, other);
    DailyRowsShape(OnDay(t.raw, day), day, other);
    assert [] + made == made;
    assert Dated(t.rows, other) + [] == Dated(t.rows, other);
  }

  lemma {:induction false} NotDatedSubset(rows: seq<Metric>, day: int)
    ensures forall m :: m in NotDated(rows, day) ==> m in rows
  {
    if rows != [] {
      var front := rows[..|rows| - 1];
      assert rows == front + [rows[|rows| - 1]];
      NotDatedSubset(front, day);
    }
  }

  /**
   Purging a day keeps the day's record exactly when the day still has raw events
   or has no rows. A purge of a day that is already rolled up would replace its
   rows by nothing.
   */
  lemma PurgeKeepsExactly(t: Tables, day: int)
    requires Kept(t)
    ensures Kept(PurgeDay(t, day)) <==> (OnDay(t.raw, day) != [] || Dated(t.rows, day) == [])
  {
    var next := PurgeDay(t, day);
    assert DayKept(t, day);
    PurgedDay(t, day, day);
    DailyRowsShape(OnDay(t.log, day), day, day);
    DailyRowsShape(OnDay(t.raw, day), day, day);
    if OnDay(t.raw, day) != [] || Dated(t.rows, day) == [] {
      forall other ensures DayKept(next, other) {
        assert DayKept(t, other);
        PurgedDay(t, day, other);
      }
    } else {
      assert !DayKept(next, day);
    }
  }

  /** A day that a rollup finds due survives one purge, and never a second one. */
  lemma SecondPurgeLosesTheDay(t: Tables, settings: Settings, day: int)
    requires Sound(t, settings) && Purgeable(t, settings, day)
    ensures Kept(PurgeDay(t, day)) && !Kept(PurgeDay(PurgeDay(t, day), day))
  {
    PurgeKeepsExactly(t, day);
    PurgedDay(t, day, day);
    DailyRowsShape(OnDay(t.raw, day), day, day);
    PurgeKeepsExactly(PurgeDay(t, day), day);
  }

  lemma PurgeSound(t: Tables, settings: Settings, day: int)
    requires Sound(t, settings) && Purgeable(t, settings, day)
    ensures Sound(PurgeDay(t, day), settings)
  {
    PurgeKeepsExactly(t, day);
    NotDatedSubset(t.rows, day);
    DailyRowsShape(OnDay(t.raw, day), day, day);
  }

  lemma DayMonotone(a: int, b: int)
    requires a <= b
    ensures DayOf(a) <= DayOf(b)
  {
  }

  lemma OldestAccepted(now: int, age: nat, at: int)
    requires now - age * DAY <= at
    ensures DayOf(now) - age <= DayOf(at)
  {
    var back := 0 - age;
    assert now - age * DAY == now + DAY * back;
    assert (now + DAY * back) / DAY == now / DAY + back;
    DayMonotone(now - age * DAY, at);
  }

  /** An accepted event falls on a day that has no rows yet. */
  lemma AcceptedDayIsRaw(t: Tables, settings: Settings, input: Input)
    requires Sound(t, settings) && AgeWithinRetention(settings) && Acceptable(settings, input, t.now)
    ensures var day := DayOf(EventOf(input, t.now).occurredAt);
            Dated(t.rows, day) == [] && OnDay(t.raw, day) == OnDay(t.log, day)
  {
    var day := DayOf(EventOf(input, t.now).occurredAt);
    OldestAccepted(t.now, settings.maxAgeDays, EventOf(input, t.now).occurredAt);
    NoRowsFrom(t.rows, RawStart(settings, t.now), day);
    assert DayKept(t, day);
    DailyRowsShape(OnDay(t.log, day), day, day);
  }

  lemma RecordSound(t: Tables, settings: Settings, input: Input)
    requires Sound(t, settings) && AgeWithinRetention(settings)
    ensures Sound(RecordStep(t, settings, input), settings)
  {
    var recorded := Record(t.raw, settings, input, t.now);
    if recorded.Created? {
      var e, next := EventOf(input, t.now), RecordStep(t, settings, input);
      AcceptedDayIsRaw(t, settings, input);
      forall day ensures DayKept(next, day) {
        assert DayKept(t, day);
        OnDaySnoc(t.raw, e, day);
        OnDaySnoc(t.log, e, day);
      }
    }
  }

  lemma {:induction false} NoRowsFrom(rows: seq<Metric>, start: int, day: int)
    requires (forall m :: m in rows ==> m.date < start) && day >= start
    ensures Dated(rows, day) == []
  {
    if rows != [] {
      var front := rows[..|rows| - 1];
      assert rows == front + [rows[|rows| - 1]];
      NoRowsFrom(front, start, day);
    }
  }

  lemma StepSound(t: Tables, settings: Settings, step: Step)
    requires Sound(t, settings) && AgeWithinRetention(settings)
    ensures Sound(After(t, settings, step), settings)
  {
    match step
    case DoRecord(input) => RecordSound(t, settings, input);
    case Wait(seconds) =>
      DayMonotone(t.now, t.now + seconds);
      forall day ensures DayKept(After(t, settings, step), day) { assert DayKept(t, day); }
    case DoPurge(day) => if Purgeable(t, settings, day) { PurgeSound(t, settings, day); }
  }

  lemma {:induction false} RunSound(now: int, settings: Settings, steps: seq<Step>)
    requires AgeWithinRetention(settings)
    ensures Sound(Run(Start(now), settings, steps), settings)
  {
    if steps == [] {
      forall day ensures DayKept(Start(now), day) { }
    } else {
      RunSound(now, settings, steps[..|steps| - 1]);
      StepSound(Run(Start(now), settings, steps[..|steps| - 1]), settings, steps[|steps| - 1]);
    }
  }

  // ---- the settings decide ----

  /** An event of the name can be recorded for some target. */
  predicate Recordable(settings: Settings, name: Token, kind: Token) {
    && name in settings.definitions && kind in settings.definitions[name].targetTypes
  }

  function Plain(name: Token, kind: Token, at: Option<int>): Input {
    Input(name, 1, false, false, false, Some(Target(kind, 1, 1)), None, BLANK, BLANK, at)
  }

  /** Record on day 0, wait until day 0 is just out of the raw range, roll it up, record on day 0 again. */
  function LateRun(settings: Settings, name: Token, kind: Token): seq<Step> {
    var kept := if settings.retentionDays > 1 then settings.retentionDays else 1;
    [DoRecord(Plain(name, kind, None)), Wait(kept * DAY), DoPurge(0), DoRecord(Plain(name, kind, Some(0)))]
  }

  lemma RunSnoc(t: Tables, settings: Settings, steps: seq<Step>, step: Step)
    ensures Run(t, settings, steps + [step]) == After(Run(t, settings, steps), settings, step)
  {
    assert (steps + [step])[..|steps|] == steps;
  }

  lemma LateEventBreaks(settings: Settings, name: Token, kind: Token)
    requires Recordable(settings, name, kind) && !AgeWithinRetention(settings)
    ensures !Kept(Run(Start(0), settings, LateRun(settings, name, kind)))
  {
    var steps := LateRun(settings, name, kind);
    var kept := if settings.retentionDays > 1 then settings.retentionDays else 1;
    var e0 := EventOf(Plain(name, kind, None), 0);
    var t0 := Start(0);
    assert Run(t0, settings, []) == t0;
    var t1 := Tables([e0], [], 0, [e0]);
    RunSnoc(t0, settings, [], steps[0]);
    assert [] + [steps[0]] == steps[..1];
    assert Run(t0, settings, steps[..1]) == t1;
    var t2 := t1.(now := kept * DAY);
    RunSnoc(t0, settings, steps[..1], steps[1]);
    assert steps[..1] + [steps[1]] == steps[..2];
    assert Run(t0, settings, steps[..2]) == t2;
    assert OnDay([e0], 0) == [e0] by { OnDaySnoc([], e0, 0); assert [] + [e0] == [e0]; }
    assert DayOf(kept * DAY) == kept && RawStart(settings, kept * DAY) == 1;
    var t3 := PurgeDay(t2, 0);
    RunSnoc(t0, settings, steps[..2], steps[2]);
    assert steps[..2] + [steps[2]] == steps[..3];
    assert Run(t0, settings, steps[..3]) == t3;
    RunSnoc(t0, settings, steps[..3], steps[3]);
    assert steps[..3] + [steps[3]] == steps;
    LateStepBreaks(t3, settings, name, kind, e0, kept);
  }

  lemma LateStepBreaks(t: Tables, settings: Settings, name: Token, kind: Token, e0: Event, kept: nat)
    requires Recordable(settings, name, kind) && settings.maxAgeDays >= kept
    requires t == PurgeDay(Tables([e0], [], kept * DAY, [e0]), 0)
    requires DayOf(e0.occurredAt) == 0
    ensures !Kept(After(t, settings, DoRecord(Plain(name, kind, Some(0)))))
  {
    var input := Plain(name, kind, Some(0));
    var e := EventOf(input, t.now);
    OnDaySnoc([], e0, 0);
    assert [] + [e0] == [e0];
    PurgedDay(Tables([e0], [], kept * DAY, [e0]), 0, 0);
    assert t.raw == NotOnDay([e0], 0) == [];
    LateAccepted(settings, name, kind, kept);
    var next := t.(raw := t.raw + [e], log := t.log + [e]);
    assert After(t, settings, DoRecord(input)) == next;
    OnDaySnoc(t.raw, e, 0);
    DailyRowsShape([e0], 0, 0);
    assert !DayKept(next, 0);
  }

  lemma LateAccepted(settings: Settings, name: Token, kind: Token, kept: nat)
    requires Recordable(settings, name, kind) && settings.maxAgeDays >= kept
    ensures var input := Plain(name, kind, Some(0));
            Record([], settings, input, kept * DAY) == Created(EventOf(input, kept * DAY))
  {
    assert kept * DAY <= settings.maxAgeDays * DAY;
  }

  /**
   Every run keeps every day's record exactly when the oldest event that may be
   reported is still inside the raw retention.
   */
  lemma RunsKeepDaysExactly(settings: Settings, name: Token, kind: Token)
    requires Recordable(settings, name, kind)
    ensures (forall now, steps :: Kept(Run(Start(now), settings, steps))) <==> AgeWithinRetention(settings)
  {
    if AgeWithinRetention(settings) {
      forall now, steps ensures Kept(Run(Start(now), settings, steps)) { RunSound(now, settings, steps); }
    } else {
      LateEventBreaks(settings, name, kind);
    }
  }

  // ---- deduplication ----

  /** b, stored after a, is neither a repeat of a's request nor of a's act within its window. */
  predicate Apart(settings: Settings, a: Event, b: Event) {
    && (a.idempotencyKey != BLANK ==> !SameRequest(a, b))
    && (SameAct(a, b) && a.visitor != BLANK && b.name in settings.definitions
        && settings.definitions[b.name].deduplicateSeconds > 0
        ==> b.receivedAt > a.receivedAt + settings.definitions[b.name].deduplicateSeconds)
  }

  predicate AllApart(settings: Settings, raw: seq<Event>) {
    forall i, j :: 0 <= i < j < |raw| ==> Apart(settings, raw[i], raw[j])
  }

  lemma {:induction false} PurgeSubsequence(settings: Settings, raw: seq<Event>, day: int)
    requires AllApart(settings, raw)
    ensures AllApart(settings, NotOnDay(raw, day))
    ensures forall e :: e in NotOnDay(raw, day) ==> e in raw
  {
    if raw != [] {
      var front, last := raw[..|raw| - 1], raw[|raw| - 1];
      assert raw == front + [last];
      PurgeSubsequence(settings, front, day);
      var kept := NotOnDay(front, day);
      forall i | 0 <= i < |kept| ensures Apart(settings, kept[i], last) {
        assert kept[i] in front;
        var k :| 0 <= k < |front| && front[k] == kept[i];
        assert Apart(settings, raw[k], raw[|raw| - 1]);
      }
    }
  }

  lemma RecordApart(t: Tables, settings: Settings, input: Input)
    requires AllApart(settings, t.raw)
    ensures AllApart(settings, RecordStep(t, settings, input).raw)
  {
    var recorded := Record(t.raw, settings, input, t.now);
    if recorded.Created? {
      var e := recorded.event;
      RepeatMeans(t.raw, e);
      RecentActMeans(t.raw, e, settings.definitions[input.name].deduplicateSeconds);
      forall i | 0 <= i < |t.raw| ensures Apart(settings, t.raw[i], e) {
        assert t.raw[i] in t.raw;
      }
    }
  }

  /** No two stored events repeat a request, nor an act by a known visitor within its window. */
  lemma {:induction false} StoredEventsApart(now: int, settings: Settings, steps: seq<Step>)
    ensures AllApart(settings, Run(Start(now), settings, steps).raw)
  {
    if steps != [] {
      StoredEventsApart(now, settings, steps[..|steps| - 1]);
      var t := Run(Start(now), settings, steps[..|steps| - 1]);
      match steps[|steps| - 1]
      case DoRecord(input) => RecordApart(t, settings, input);
      case Wait(seconds) =>
      case DoPurge(day) => PurgeSubsequence(settings, t.raw, day);
    }
  }
}
