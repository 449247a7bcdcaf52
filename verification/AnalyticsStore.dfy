/** The analytics tables as an object: recording, the scheduled rollup, and the three queries. */
module AnalyticsStore {
  import opened Wrappers
  import opened Events
  import opened Rollup
  import opened RollupProofs
  import opened Queries
  import opened Tally
  import QueryProofs

  function Purges(days: seq<int>): seq<Step> {
    seq(|days|, i requires 0 <= i < |days| => DoPurge(days[i]))
  }

  lemma NonePending(raw: seq<Event>, first: int)
    requires Pending(raw, [], first)
    ensures forall e :: e in raw ==> DayOf(e.occurredAt) >= first
  {
  }

  lemma {:induction false} NotOnDayMembers(events: seq<Event>, day: int)
    ensures forall e :: e in NotOnDay(events, day) ==> e in events && DayOf(e.occurredAt) != day
    ensures |events| == |NotOnDay(events, day)| + |OnDay(events, day)|
  {
    if events != [] {
      var front, last := events[..|events| - 1], events[|events| - 1];
      assert events == front + [last];
      NotOnDayMembers(front, day);
    }
  }

  lemma OneMorePurge(start: Tables, settings: Settings, days: seq<int>, i: nat)
    requires i < |days| && Purgeable(Run(start, settings, Purges(days[..i])), settings, days[i])
    ensures Run(start, settings, Purges(days[..i + 1])) == PurgeDay(Run(start, settings, Purges(days[..i])), days[i])
  {
    assert Purges(days[..i + 1])[..i] == Purges(days[..i]);
  }

  lemma PendingAfter(raw: seq<Event>, days: seq<int>, first: int)
    requires Pending(raw, days, first) && days != []
    ensures Pending(NotOnDay(raw, days[0]), days[1..], first)
  {
    NotOnDayMembers(raw, days[0]);
    forall j | 1 <= j < |days| ensures OnDay(NotOnDay(raw, days[0]), days[j]) != [] {
      OnDayAfterPurge(raw, days[0], days[j]);
    }
    assert days == [days[0]] + days[1..];
  }

  class Store {
    var raw: seq<Event>
    var rows: seq<Metric>
    var now: int
    ghost var log: seq<Event>

    constructor (now: int)
      ensures State() == Start(now)
    {
      raw, rows, this.now, log := [], [], now, [];
    }

    ghost function State(): Tables
      reads this
    {
      Tables(raw, rows, now, log)
    }

    method RecordEvent(settings: Settings, input: Input) returns (recorded: Recorded)
      modifies this
      ensures recorded == Record(old(raw), settings, input, now)
      ensures State() == After(old(State()), settings, DoRecord(input))
    {
      if !Acceptable(settings, input, now) { return Rejected; }
      var e := EventOf(input, now);
      if e.idempotencyKey != BLANK {
        var repeat := Repeat(raw, e);
        if repeat.Some? { return Existing(repeat.value); }
      }
      var window := settings.definitions[input.name].deduplicateSeconds;
      if window > 0 && e.visitor != BLANK {
        var recent := RecentAct(raw, e, window);
        if recent.Some? { return Existing(recent.value); }
      }
      raw := raw + [e];
      log := log + [e];
      recorded := Created(e);
    }

    /** The rows of one grouping of a day's events. */
    method GroupRows(events: seq<Event>, day: int, g: Grouping) returns (grouped: seq<Metric>)
      ensures grouped == RowsFor(events, day, g, GroupKeys(events, g))
    {
      var keys: seq<MetricKey> := [];
      for i := 0 to |events|
        invariant keys == GroupKeys(events[..i], g)
      {
        assert events[..i + 1][..i] == events[..i];
        var key := KeyOf(events[i], g);
        if key !in keys { keys := keys + [key]; }
      }
      assert events[..|events|] == events;
      grouped := [];
      for k := 0 to |keys|
        invariant grouped == RowsFor(events, day, g, keys)[..k]
      {
        grouped := grouped +
                   [Metric(day, keys[k], GroupCount(events, g, keys[k]), |GroupVisitors(events, g, keys[k])|)];
      }
      assert RowsFor(events, day, g, keys)[..|keys|] == RowsFor(events, day, g, keys);
    }

    /** Replaces a day's rows by the eight groupings of the raw events still stored for it. */
    method RebuildDailyMetrics(day: int)
      modifies this`rows
      ensures rows == NotDated(old(rows), day) + DailyRows(OnDay(raw, day), day)
    {
      var events := OnDay(raw, day);
      var made: seq<Metric> := [];
      for n := 0 to |GROUPINGS|
        invariant rows == old(rows) && made == RowsUpTo(events, day, n)
      {
        var grouped := GroupRows(events, day, GROUPINGS[n]);
        made := made + grouped;
      }
      rows := NotDated(rows, day) + made;
    }

    /** One day's transaction: rebuild its rows, then delete its raw events. */
    method RollupDay(day: int) returns (removed: nat)
      modifies this`raw, this`rows
      ensures State() == PurgeDay(old(State()), day)
      ensures removed == |old(raw)| - |raw|
    {
      NotOnDayMembers(raw, day);
      RebuildDailyMetrics(day);
      removed := |OnDay(raw, day)|;
      raw := NotOnDay(raw, day);
    }

    /** Rolls up and deletes every day before the raw range, and returns how many raw events it deleted. */
    method RollupAndPurge(settings: Settings) returns (deleted: nat)
      modifies this`raw, this`rows
      ensures State() == Run(old(State()), settings, Purges(DueDays(old(raw), RawStart(settings, now))))
      ensures QueryProofs.RolledUp(State(), settings)
      ensures deleted == |old(raw)| - |raw|
    {
      var first := RawStart(settings, now);
      var days := DueDays(raw, first);
      DueDaysCover(raw, first);
      deleted := 0;
      ghost var start := State();
      assert Purges(days[..0]) == [] && days[0..] == days;
      for i := 0 to |days|
        invariant State() == Run(start, settings, Purges(days[..i])) && now == start.now
        invariant Pending(raw, days[i..], first)
        invariant deleted == |old(raw)| - |raw|
      {
        assert days[i..][0] == days[i] && days[i..][1..] == days[i + 1..];
        PendingAfter(raw, days[i..], first);
        OneMorePurge(start, settings, days, i);
        var removed := RollupDay(days[i]);
        deleted := deleted + removed;
      }
      assert days[..|days|] == days && days[|days|..] == [];
      NonePending(raw, first);
    }

    // ---- queries ----

    method GroupedCounts(settings: Settings, start: int, end: int, sel: Selection, axis: Axis)
      returns (cells: seq<Cell>)
      ensures cells == FastTally(State(), settings, start, end, sel, axis)
    {
      var first := RawStart(settings, now);
      var historical, span := HistoricalPart(first, start, end), RawPart(first, start, end);
      cells := [];
      if historical.Some? {
        for i := 0 to |rows|
          invariant cells == TallyRows(rows[..i], historical.value.lo, historical.value.hi, sel, axis)
        {
          assert rows[..i + 1][..i] == rows[..i];
          if SelectsRow(sel, historical.value.lo, historical.value.hi, rows[i]) {
            cells := AddTo(cells, RowAxis(axis, rows[i].key), rows[i].count);
          }
        }
        assert rows[..|rows|] == rows;
      }
      if span.Some? {
        ghost var counted := cells;
        for i := 0 to |raw|
          invariant cells == TallyEvents(counted, raw[..i], span.value.lo, span.value.hi, sel, axis)
        {
          assert raw[..i + 1][..i] == raw[..i];
          if SelectsEvent(sel, span.value.lo, span.value.hi, raw[i]) {
            cells := AddTo(cells, EventAxis(axis, raw[i]), 1);
          }
        }
        assert raw[..|raw|] == raw;
      }
    }

    /** The total count and the distinct visitors of one selection. */
    method Aggregate(settings: Settings, start: int, end: int, sel: Selection) returns (count: nat, visitors: nat)
      ensures count == FastCount(State(), settings, start, end, sel)
      ensures visitors == FastVisitors(State(), settings, start, end, sel)
    {
      var first := RawStart(settings, now);
      var historical, span := HistoricalPart(first, start, end), RawPart(first, start, end);
      count, visitors := 0, 0;
      if historical.Some? {
        for i := 0 to |rows|
          invariant count == RowCount(rows[..i], historical.value.lo, historical.value.hi, sel)
          invariant visitors == RowVisitors(rows[..i], historical.value.lo, historical.value.hi, sel)
        {
          assert rows[..i + 1][..i] == rows[..i];
          if SelectsRow(sel, historical.value.lo, historical.value.hi, rows[i]) {
            count, visitors := count + rows[i].count, visitors + rows[i].visitors;
          }
        }
        assert rows[..|rows|] == rows;
      }
      if span.Some? {
        var found := 0;
        var seen: set<Token> := {};
        for i := 0 to |raw|
          invariant found == EventCount(raw[..i], span.value.lo, span.value.hi, sel)
          invariant seen == Visitors(raw[..i], span.value.lo, span.value.hi, sel)
        {
          assert raw[..i + 1] == raw[..i] + [raw[i]];
          assert raw[..i + 1][..i] == raw[..i];
          if SelectsEvent(sel, span.value.lo, span.value.hi, raw[i]) {
            found := found + 1;
            if raw[i].visitor != BLANK { seen := seen + {raw[i].visitor}; }
          }
        }
        assert raw[..|raw|] == raw;
        count, visitors := count + found, visitors + |seen|;
      }
    }

    method OverviewMetrics(settings: Settings, registered: seq<Token>, org: Token, start: int, end: int, source: Token)
      returns (o: Overview)
      ensures o == OverviewOf(State(), settings, registered, org, start, end, source)
    {
      var first := RawStart(settings, now);
      var available := VisitorsAvailable(HistoricalPart(first, start, end), RawPart(first, start, end));
      var counts := GroupedCounts(settings, start, end, AnyEvent(org, source), ByName);
      var figures: seq<Figure> := [];
      for i := 0 to |registered|
        invariant figures == FiguresOf(State(), settings, registered, org, start, end, source)[..i]
      {
        var _, visitors := Aggregate(settings, start, end, Named(org, source, registered[i]));
        figures := figures +
                   [Figure(registered[i], At(counts, registered[i]), if available then Some(visitors) else None)];
      }
      var total, everyone := Aggregate(settings, start, end, Everything(org, source));
      o := Overview(total, if available then Some(everyone) else None, figures);
    }

    method TrendMetrics(settings: Settings, registered: seq<Token>, org: Token, start: int, end: int, source: Token,
                        names: seq<Token>)
      returns (answer: Option<seq<Point>>)
      ensures answer == TrendAnswer(State(), settings, registered, org, start, end, source, names)
    {
      var selected := if names == [] then registered else names;
      if exists n :: n in selected && n !in registered { return None; }
      var points := TrendPoints(settings, org, start, end, source, selected);
      answer := Some(points);
    }

    /** Day after day, one point for each selected event. */
    method TrendPoints(settings: Settings, org: Token, start: int, end: int, source: Token, names: seq<Token>)
      returns (points: seq<Point>)
      ensures points == TrendOf(State(), settings, org, start, end, source, names)
    {
      points := [];
      var current := start;
      while current <= end
        invariant start > end ==> current == start
        invariant start <= end ==> start <= current <= end + 1
        invariant points == TrendOf(State(), settings, org, start, current - 1, source, names)
      {
        var today: seq<Point> := [];
        for i := 0 to |names|
          invariant today == PointsOn(State(), settings, org, current, source, names)[..i]
        {
          var count, visitors := Aggregate(settings, current, current, Named(org, source, names[i]));
          today := today + [Point(current, names[i], count, visitors)];
        }
        assert PointsOn(State(), settings, org, current, source, names)[..|names|]
                 == PointsOn(State(), settings, org, current, source, names);
        points := points + today;
        current := current + 1;
      }
    }

    method TargetMetrics(settings: Settings, kinds: set<Token>, org: Token, start: int, end: int, kind: Token,
                         source: Token,
                         names: set<Token>, page: int, pageSize: int)
      returns (answer: Option<Page>)
      ensures answer == TargetAnswer(State(), settings, kinds, org, start, end, kind, source, names, page, pageSize)
    {
      if kind !in kinds { return None; }
      var result := TargetPage(settings, org, start, end, kind, source, names, page, pageSize);
      answer := Some(result);
    }

    /** Totals by target, ranked and cut, and the figures of each target on the page. */
    method TargetPage(settings: Settings, org: Token, start: int, end: int, kind: Token, source: Token,
                      names: set<Token>, page: int, pageSize: int)
      returns (result: Page)
      ensures result == PageOf(State(), settings, org, start, end, kind, source, names, page, pageSize)
    {
      var first := RawStart(settings, now);
      var available := TargetVisitorsAvailable(HistoricalPart(first, start, end), RawPart(first, start, end), names);
      var sel := Totals(org, source, kind, names);
      var totals := GroupedCounts(settings, start, end, sel, ByTarget);
      var ranking := RankedCells(totals);
      var p, size := (if page > 1 then page else 1), (if pageSize > 1 then pageSize else 1);
      var cells := Slice(ranking, p, size);
      var items: seq<Item> := [];
      for i := 0 to |cells|
        invariant |items| == i
        invariant forall j :: 0 <= j < i ==>
                    items[j] == ItemOf(State(), settings, org, start, end, kind, source, names, cells[j])
      {
        var metrics := GroupedCounts(settings, start, end, ByEvent(org, source, kind, names, cells[i].key), ByName);
        var _, visitors := Aggregate(settings, start, end, sel.(target := Some(cells[i].key)));
        items := items + [Item(cells[i].key, cells[i].n, metrics, if available then Some(visitors) else None)];
      }
      result := Page(items, |ranking|, p, size);
    }
  }
}
