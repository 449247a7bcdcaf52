/** Daily metric rows, their eight groupings, and the steps that record, wait and roll up. */
module Rollup {
  import opened Events

  datatype Scope = All | PerEvent | PerTarget | PerTargetEvent

  datatype MetricKey = MetricKey(org: Token, source: Token, scope: Scope, name: Token, targetType: Token, target: Token)

  datatype Metric = Metric(date: int, key: MetricKey, count: nat, visitors: nat)

  /** A scope, by source or over all sources. */
  datatype Grouping = Grouping(scope: Scope, allSources: bool)

  const GROUPINGS: seq<Grouping> := [
    Grouping(All, false), Grouping(All, true), Grouping(PerEvent, false), Grouping(PerEvent, true),
    Grouping(PerTarget, false), Grouping(PerTarget, true),
    Grouping(PerTargetEvent, false), Grouping(PerTargetEvent, true)]

  function KeyOf(e: Event, g: Grouping): MetricKey {
    var byEvent := g.scope == PerEvent || g.scope == PerTargetEvent;
    var byTarget := g.scope == PerTarget || g.scope == PerTargetEvent;
    MetricKey(e.org, if g.allSources then BLANK else e.source, g.scope,
              if byEvent then e.name else BLANK,
              if byTarget then e.targetType else BLANK,
              if byTarget then e.target else BLANK)
  }

  function GroupCount(events: seq<Event>, g: Grouping, key: MetricKey): nat {
    if events == [] then 0
    else GroupCount(events[..|events| - 1], g, key) + if KeyOf(events[|events| - 1], g) == key then 1 else 0
  }

  function GroupVisitors(events: seq<Event>, g: Grouping, key: MetricKey): set<Token> {
    set e | e in events && KeyOf(e, g) == key && e.visitor != BLANK :: e.visitor
  }

  /** The distinct keys of a grouping, in order of first occurrence. */
  function GroupKeys(events: seq<Event>, g: Grouping): seq<MetricKey> {
    if events == [] then []
    else
      var keys := GroupKeys(events[..|events| - 1], g);
      var key := KeyOf(events[|events| - 1], g);
      if key in keys then keys else keys + [key]
  }

  function RowsFor(events: seq<Event>, day: int, g: Grouping, keys: seq<MetricKey>): seq<Metric> {
    seq(|keys|, i requires 0 <= i < |keys| =>
      Metric(day, keys[i], GroupCount(events, g, keys[i]), |GroupVisitors(events, g, keys[i])|))
  }

  /** One row a key for each of the first n groupings. */
  function RowsUpTo(events: seq<Event>, day: int, n: nat): seq<Metric>
    requires n <= |GROUPINGS|
  {
    if n == 0 then []
    else RowsUpTo(events, day, n - 1) + RowsFor(events, day, GROUPINGS[n - 1], GroupKeys(events, GROUPINGS[n - 1]))
  }

  function DailyRows(events: seq<Event>, day: int): seq<Metric> {
    RowsUpTo(events, day, |GROUPINGS|)
  }

  function OnDay(events: seq<Event>, day: int): seq<Event> {
    if events == [] then []
    else
      var front, last := events[..|events| - 1], events[|events| - 1];
      if DayOf(last.occurredAt) == day then OnDay(front, day) + [last] else OnDay(front, day)
  }

  function NotOnDay(events: seq<Event>, day: int): seq<Event> {
    if events == [] then []
    else
      var front, last := events[..|events| - 1], events[|events| - 1];
      if DayOf(last.occurredAt) == day then NotOnDay(front, day) else NotOnDay(front, day) + [last]
  }

  function Dated(rows: seq<Metric>, day: int): seq<Metric> {
    if rows == [] then []
    else
      var front, last := rows[..|rows| - 1], rows[|rows| - 1];
      if last.date == day then Dated(front, day) + [last] else Dated(front, day)
  }

  function NotDated(rows: seq<Metric>, day: int): seq<Metric> {
    if rows == [] then []
    else
      var front, last := rows[..|rows| - 1], rows[|rows| - 1];
      if last.date == day then NotDated(front, day) else NotDated(front, day) + [last]
  }

  // ---- the tables and their steps ----

  /** The two tables, the clock, and for the specification the log of all accepted events, never purged. */
  datatype Tables = Tables(raw: seq<Event>, rows: seq<Metric>, now: int, log: seq<Event>)

  /** The first natural day whose raw events are kept. */
  function RawStart(settings: Settings, now: int): int {
    DayOf(now) - ((if settings.retentionDays > 1 then settings.retentionDays else 1) - 1)
  }

  function RecordStep(t: Tables, settings: Settings, input: Input): Tables {
    match Record(t.raw, settings, input, t.now)
    case Created(e) => t.(raw := t.raw + [e], log := t.log + [e])
    case _ => t
  }

  /** Rebuilds a day's rows from the raw events still there, then deletes those events. */
  function PurgeDay(t: Tables, day: int): Tables {
    t.(rows := NotDated(t.rows, day) + DailyRows(OnDay(t.raw, day), day), raw := NotOnDay(t.raw, day))
  }

  /** A rollup only visits days before the raw range that it found raw events on. */
  predicate Purgeable(t: Tables, settings: Settings, day: int) {
    day < RawStart(settings, t.now) && OnDay(t.raw, day) != []
  }

  /** The days before the raw range that still have raw events, each once. */
  function DueDays(raw: seq<Event>, first: int): seq<int> {
    if raw == [] then []
    else
      var days, day := DueDays(raw[..|raw| - 1], first), DayOf(raw[|raw| - 1].occurredAt);
      if day < first && day !in days then days + [day] else days
  }

  datatype Step = DoRecord(input: Input) | Wait(seconds: nat) | DoPurge(day: int)

  function After(t: Tables, settings: Settings, step: Step): Tables {
    match step
    case DoRecord(input) => RecordStep(t, settings, input)
    case Wait(seconds) => t.(now := t.now + seconds)
    case DoPurge(day) => if Purgeable(t, settings, day) then PurgeDay(t, day) else t
  }

  function Start(now: int): Tables { Tables([], [], now, []) }

  function Run(t: Tables, settings: Settings, steps: seq<Step>): Tables {
    if steps == [] then t else After(Run(t, settings, steps[..|steps| - 1]), settings, steps[|steps| - 1])
  }
}
