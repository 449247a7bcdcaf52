/** The figures read from rows and remaining raw events against those of the never-purged log. */
module QueryProofs {
  import opened Events
  import opened Rollup
  import opened RollupProofs
  import opened Queries

  /** The constraints of a selection are on fields its scope keeps. */
  predicate WellScoped(sel: Selection) {
    && (sel.names != {} ==> sel.scope == PerEvent || sel.scope == PerTargetEvent)
    && (sel.targetType.Some? || sel.target.Some? ==> sel.scope == PerTarget || sel.scope == PerTargetEvent)
    && (sel.source == BLANK || sel.source in SOURCES)
  }

  predicate GroupingOf(sel: Selection, g: Grouping) {
    g.scope == sel.scope && g.allSources == (sel.source == BLANK)
  }

  /** Only rows of the selection's own grouping are selected, and they are those of its events. */
  lemma KeySelected(sel: Selection, e: Event, g: Grouping)
    requires WellScoped(sel) && e.source in SOURCES
    ensures SelectsKey(sel, KeyOf(e, g)) <==> GroupingOf(sel, g) && Matches(sel, e)
  {
  }

  // ---- one day's rows ----

  predicate NoRepeats(keys: seq<MetricKey>) {
    forall i, j :: 0 <= i < j < |keys| ==> keys[i] != keys[j]
  }

  lemma {:induction false} GroupKeysCover(events: seq<Event>, g: Grouping)
    ensures NoRepeats(GroupKeys(events, g))
    ensures forall e :: e in events ==> KeyOf(e, g) in GroupKeys(events, g)
    ensures forall k :: k in GroupKeys(events, g) ==> exists e :: e in events && KeyOf(e, g) == k
  {
    if events != [] {
      var front, last := events[..|events| - 1], events[|events| - 1];
      assert events == front + [last];
      GroupKeysCover(front, g);
    }
  }

  /** The counts of the selected keys. */
  function KeySum(events: seq<Event>, g: Grouping, keys: seq<MetricKey>, sel: Selection): nat {
    if keys == [] then 0
    else
      KeySum(events, g, keys[..|keys| - 1], sel)
      + if SelectsKey(sel, keys[|keys| - 1]) then GroupCount(events, g, keys[|keys| - 1]) else 0
  }

  lemma {:induction false} KeySumSnoc(events: seq<Event>, e: Event, g: Grouping, keys: seq<MetricKey>, sel: Selection)
    requires NoRepeats(keys)
    ensures KeySum(events + [e], g, keys, sel) == KeySum(events, g, keys, sel)
          + if KeyOf(e, g) in keys && SelectsKey(sel, KeyOf(e, g)) then 1 else 0
  {
    if keys != [] {
      var front, last := keys[..|keys| - 1], keys[|keys| - 1];
      assert keys == front + [last];
      KeySumSnoc(events, e, g, front, sel);
      assert (events + [e])[..|events|] == events;
      assert last !in front;
    }
  }

  lemma {:induction false} KeySumNone(g: Grouping, keys: seq<MetricKey>, sel: Selection)
    ensures KeySum([], g, keys, sel) == 0
  {
    if keys != [] { KeySumNone(g, keys[..|keys| - 1], sel); }
  }

  /** Counting by key and counting event by event agree. */
  lemma {:induction false} KeySumCounts(events: seq<Event>, day: int, g: Grouping, keys: seq<MetricKey>, sel: Selection)
    requires WellScoped(sel) && NoRepeats(keys)
    requires forall e :: e in events ==> KeyOf(e, g) in keys && e.source in SOURCES && DayOf(e.occurredAt) == day
    ensures KeySum(events, g, keys, sel) == if GroupingOf(sel, g) then EventCount(events, day, day, sel) else 0
  {
    if events == [] {
      KeySumNone(g, keys, sel);
    } else {
      var front, last := events[..|events| - 1], events[|events| - 1];
      assert events == front + [last];
      KeySumCounts(front, day, g, keys, sel);
      KeySumSnoc(front, last, g, keys, sel);
      KeySelected(sel, last, g);
    }
  }

  lemma {:induction false} RowCountConcat(a: seq<Metric>, b: seq<Metric>, lo: int, hi: int, sel: Selection)
    ensures RowCount(a + b, lo, hi, sel) == RowCount(a, lo, hi, sel) + RowCount(b, lo, hi, sel)
    ensures RowVisitors(a + b, lo, hi, sel) == RowVisitors(a, lo, hi, sel) + RowVisitors(b, lo, hi, sel)
  {
    if b == [] {
      assert a + b == a;
    } else {
      var front, last := b[..|b| - 1], b[|b| - 1];
      assert a + b == (a + front) + [last];
      RowCountConcat(a, front, lo, hi, sel);
      assert ((a + front) + [last])[..|a + front|] == a + front;
    }
  }

  lemma {:induction false} RowsForCount(events: seq<Event>, day: int, g: Grouping, keys: seq<MetricKey>, sel: Selection)
    ensures RowCount(RowsFor(events, day, g, keys), day, day, sel) == KeySum(events, g, keys, sel)
  {
    if keys != [] {
      var front := keys[..|keys| - 1];
      RowsForCount(events, day, g, front, sel);
      var rows := RowsFor(events, day, g, keys);
      assert rows[..|rows| - 1] == RowsFor(events, day, g, front);
    }
  }

  /** One of the first n groupings answers the selection. */
  predicate Answered(sel: Selection, n: nat)
    requires n <= |GROUPINGS|
  {
    n > 0 && (Answered(sel, n - 1) || GroupingOf(sel, GROUPINGS[n - 1]))
  }

  lemma {:induction false} AnsweredBy(sel: Selection, n: nat)
    requires n <= |GROUPINGS|
    ensures Answered(sel, n) <==> exists i :: 0 <= i < n && GroupingOf(sel, GROUPINGS[i])
  {
    if n > 0 { AnsweredBy(sel, n - 1); }
  }

  lemma AnsweredOnce(sel: Selection, n: nat)
    requires n < |GROUPINGS|
    ensures !(Answered(sel, n) && GroupingOf(sel, GROUPINGS[n]))
  {
    AnsweredBy(sel, n);
    GroupingOnce(sel, n);
  }

  lemma {:induction false} RowsUpToCount(events: seq<Event>, day: int, n: nat, sel: Selection)
    requires n <= |GROUPINGS| && WellScoped(sel)
    requires forall e :: e in events ==> e.source in SOURCES && DayOf(e.occurredAt) == day
    ensures RowCount(RowsUpTo(events, day, n), day, day, sel)
         == if Answered(sel, n) then EventCount(events, day, day, sel) else 0
  {
    if n > 0 {
      var g := GROUPINGS[n - 1];
      RowsUpToCount(events, day, n - 1, sel);
      GroupKeysCover(events, g);
      KeySumCounts(events, day, g, GroupKeys(events, g), sel);
      RowsForCount(events, day, g, GroupKeys(events, g), sel);
      RowCountConcat(RowsUpTo(events, day, n - 1), RowsFor(events, day, g, GroupKeys(events, g)), day, day, sel);
      AnsweredOnce(sel, n - 1);
    }
  }

  /** No two of the eight groupings answer the same selection. */
  lemma GroupingOnce(sel: Selection, k: nat)
    requires k < |GROUPINGS|
    ensures GroupingOf(sel, GROUPINGS[k]) ==>
              forall i :: 0 <= i < |GROUPINGS| && GroupingOf(sel, GROUPINGS[i]) ==> i == k
  {
  }

  lemma GroupingExists(sel: Selection)
    ensures Answered(sel, |GROUPINGS|)
  {
    var at := (match sel.scope case All => 0 case PerEvent => 2 case PerTarget => 4 case PerTargetEvent => 6)
              + if sel.source == BLANK then 1 else 0;
    assert GroupingOf(sel, GROUPINGS[at]);
    AnsweredBy(sel, |GROUPINGS|);
  }

  /** A day's rows count, for any selection, what its events count. */
  lemma DailyRowsCount(events: seq<Event>, day: int, sel: Selection)
    requires WellScoped(sel)
    requires forall e :: e in events ==> e.source in SOURCES && DayOf(e.occurredAt) == day
    ensures RowCount(DailyRows(events, day), day, day, sel) == EventCount(events, day, day, sel)
  {
    RowsUpToCount(events, day, |GROUPINGS|, sel);
    GroupingExists(sel);
  }

  // ---- ranges of days ----

  lemma {:induction false} RowCountDay(rows: seq<Metric>, day: int, sel: Selection)
    ensures RowCount(rows, day, day, sel) == RowCount(Dated(rows, day), day, day, sel)
    ensures RowVisitors(rows, day, day, sel) == RowVisitors(Dated(rows, day), day, day, sel)
  {
    if rows != [] {
      var front, last := rows[..|rows| - 1], rows[|rows| - 1];
      RowCountDay(front, day, sel);
      if last.date == day { assert (Dated(front, day) + [last])[..|Dated(front, day)|] == Dated(front, day); }
    }
  }

  lemma {:induction false} EventCountDay(events: seq<Event>, day: int, sel: Selection)
    ensures EventCount(events, day, day, sel) == EventCount(OnDay(events, day), day, day, sel)
  {
    if events != [] {
      var front, last := events[..|events| - 1], events[|events| - 1];
      EventCountDay(front, day, sel);
      if DayOf(last.occurredAt) == day {
        assert (OnDay(front, day) + [last])[..|OnDay(front, day)|] == OnDay(front, day);
      }
    }
  }

  lemma {:induction false} RowCountSplit(rows: seq<Metric>, lo: int, mid: int, hi: int, sel: Selection)
    requires lo <= mid + 1 && mid <= hi
    ensures RowCount(rows, lo, hi, sel) == RowCount(rows, lo, mid, sel) + RowCount(rows, mid + 1, hi, sel)
  {
    if rows != [] { RowCountSplit(rows[..|rows| - 1], lo, mid, hi, sel); }
  }

  lemma {:induction false} EventCountSplit(events: seq<Event>, lo: int, mid: int, hi: int, sel: Selection)
    requires lo <= mid + 1 && mid <= hi
    ensures EventCount(events, lo, hi, sel) == EventCount(events, lo, mid, sel) + EventCount(events, mid + 1, hi, sel)
  {
    if events != [] { EventCountSplit(events[..|events| - 1], lo, mid, hi, sel); }
  }

  lemma {:induction false} EmptyRange(rows: seq<Metric>, events: seq<Event>, lo: int, hi: int, sel: Selection)
    requires hi < lo
    ensures RowCount(rows, lo, hi, sel) == 0 && EventCount(events, lo, hi, sel) == 0
    decreases |rows| + |events|
  {
    if rows != [] { EmptyRange(rows[..|rows| - 1], events, lo, hi, sel); }
    if events != [] { EmptyRange(rows, events[..|events| - 1], lo, hi, sel); }
  }

  lemma {:induction false} OnDayMembers(events: seq<Event>, day: int)
    ensures forall e :: e in OnDay(events, day) <==> e in events && DayOf(e.occurredAt) == day
  {
    if events != [] {
      var front, last := events[..|events| - 1], events[|events| - 1];
      assert events == front + [last];
      OnDayMembers(front, day);
    }
  }

  /** On one day, rows and raw events together count what the log counts. */
  lemma DayAccount(t: Tables, settings: Settings, day: int, sel: Selection)
    requires Sound(t, settings) && WellScoped(sel)
    ensures RowCount(t.rows, day, day, sel) + EventCount(t.raw, day, day, sel) == EventCount(t.log, day, day, sel)
  {
    assert DayKept(t, day);
    RowCountDay(t.rows, day, sel);
    EventCountDay(t.raw, day, sel);
    EventCountDay(t.log, day, sel);
    OnDayMembers(t.log, day);
    DailyRowsCount(OnDay(t.log, day), day, sel);
  }

  /** And so they do over any range of days. */
  lemma {:induction false} RangeAccount(t: Tables, settings: Settings, lo: int, hi: int, sel: Selection)
    requires Sound(t, settings) && WellScoped(sel)
    ensures RowCount(t.rows, lo, hi, sel) + EventCount(t.raw, lo, hi, sel) == EventCount(t.log, lo, hi, sel)
    decreases hi - lo
  {
    if hi < lo {
      EmptyRange(t.rows, t.raw, lo, hi, sel);
      EmptyRange(t.rows, t.log, lo, hi, sel);
    } else {
      RangeAccount(t, settings, lo, hi - 1, sel);
      DayAccount(t, settings, hi, sel);
      RowCountSplit(t.rows, lo, hi - 1, hi, sel);
      EventCountSplit(t.raw, lo, hi - 1, hi, sel);
      EventCountSplit(t.log, lo, hi - 1, hi, sel);
    }
  }

  lemma {:induction false} NoRowsLater(rows: seq<Metric>, start: int, lo: int, hi: int, sel: Selection)
    requires (forall m :: m in rows ==> m.date < start) && lo >= start
    ensures RowCount(rows, lo, hi, sel) == 0
  {
    if rows != [] {
      var front := rows[..|rows| - 1];
      assert rows == front + [rows[|rows| - 1]];
      NoRowsLater(front, start, lo, hi, sel);
    }
  }

  /** Raw events of the range that are older than the raw range: what the rollup has not reached yet. */
  function Stale(t: Tables, settings: Settings, start: int, end: int, sel: Selection): nat {
    var first := RawStart(settings, t.now);
    EventCount(t.raw, start, if end < first - 1 then end else first - 1, sel)
  }

  /**
   For every range and selection the reported count falls short of the
   never-purged log by exactly the raw events the rollup has not reached.
   */
  lemma CountAccount(t: Tables, settings: Settings, start: int, end: int, sel: Selection)
    requires Sound(t, settings) && WellScoped(sel) && start <= end
    ensures FastCount(t, settings, start, end, sel) + Stale(t, settings, start, end, sel)
              == EventCount(t.log, start, end, sel)
  {
    var first := RawStart(settings, t.now);
    RangeAccount(t, settings, start, end, sel);
    if start >= first {
      NoRowsLater(t.rows, first, start, end, sel);
      EmptyRange(t.rows, t.raw, start, first - 1, sel);
    } else if end >= first {
      RowCountSplit(t.rows, start, first - 1, end, sel);
      EventCountSplit(t.raw, start, first - 1, end, sel);
      NoRowsLater(t.rows, first, first, end, sel);
    }
  }

  // ---- visitors ----

  /** The selection leaves one key a day. */
  predicate Pinned(sel: Selection) {
    match sel.scope
    case All => true
    case PerEvent => |sel.names| == 1
    case PerTarget => sel.targetType.Some? && sel.target.Some?
    case PerTargetEvent => |sel.names| == 1 && sel.targetType.Some? && sel.target.Some?
  }

  lemma SingleName(names: set<Token>, a: Token, b: Token)
    requires |names| == 1 && a in names && b in names
    ensures a == b
  {
    assert |names - {a}| == 0;
    assert names - {a} == {};
    assert b !in names - {a};
  }

  lemma PinnedKey(sel: Selection, e: Event, f: Event, g: Grouping)
    requires WellScoped(sel) && Pinned(sel) && e.source in SOURCES && f.source in SOURCES
    requires SelectsKey(sel, KeyOf(e, g)) && SelectsKey(sel, KeyOf(f, g))
    ensures KeyOf(e, g) == KeyOf(f, g)
  {
    KeySelected(sel, e, g);
    KeySelected(sel, f, g);
    if |sel.names| == 1 { SingleName(sel.names, e.name, f.name); }
  }

  function KeyVisitors(events: seq<Event>, g: Grouping, keys: seq<MetricKey>, sel: Selection): nat {
    if keys == [] then 0
    else
      KeyVisitors(events, g, keys[..|keys| - 1], sel)
      + if SelectsKey(sel, keys[|keys| - 1]) then |GroupVisitors(events, g, keys[|keys| - 1])| else 0
  }

  lemma {:induction false} RowsForVisitors(events: seq<Event>, day: int, g: Grouping, keys: seq<MetricKey>,
                                           sel: Selection)
    ensures RowVisitors(RowsFor(events, day, g, keys), day, day, sel) == KeyVisitors(events, g, keys, sel)
  {
    if keys != [] {
      var front := keys[..|keys| - 1];
      RowsForVisitors(events, day, g, front, sel);
      var rows := RowsFor(events, day, g, keys);
      assert rows[..|rows| - 1] == RowsFor(events, day, g, front);
    }
  }

  lemma {:induction false} KeyVisitorsNone(events: seq<Event>, g: Grouping, keys: seq<MetricKey>, sel: Selection)
    requires forall k :: k in keys ==> !SelectsKey(sel, k)
    ensures KeyVisitors(events, g, keys, sel) == 0
  {
    if keys != [] {
      assert keys == keys[..|keys| - 1] + [keys[|keys| - 1]];
      KeyVisitorsNone(events, g, keys[..|keys| - 1], sel);
    }
  }

  lemma {:induction false} KeyVisitorsOne(events: seq<Event>, g: Grouping, keys: seq<MetricKey>, sel: Selection,
                                          key: MetricKey)
    requires NoRepeats(keys) && key in keys
    requires forall k :: k in keys ==> (SelectsKey(sel, k) <==> k == key)
    ensures KeyVisitors(events, g, keys, sel) == |GroupVisitors(events, g, key)|
  {
    var front, last := keys[..|keys| - 1], keys[|keys| - 1];
    assert keys == front + [last];
    assert last !in front;
    if last == key {
      KeyVisitorsNone(events, g, front, sel);
    } else {
      KeyVisitorsOne(events, g, front, sel, key);
    }
  }

  lemma KeyVisitorsCount(events: seq<Event>, day: int, g: Grouping, sel: Selection)
    requires WellScoped(sel) && Pinned(sel)
    requires forall e :: e in events ==> e.source in SOURCES && DayOf(e.occurredAt) == day
    ensures KeyVisitors(events, g, GroupKeys(events, g), sel)
         == if GroupingOf(sel, g) then |Visitors(events, day, day, sel)| else 0
  {
    var keys := GroupKeys(events, g);
    GroupKeysCover(events, g);
    forall e | e in events ensures SelectsKey(sel, KeyOf(e, g)) <==> GroupingOf(sel, g) && Matches(sel, e) {
      KeySelected(sel, e, g);
    }
    if exists k :: k in keys && SelectsKey(sel, k) {
      var key :| key in keys && SelectsKey(sel, key);
      var e :| e in events && KeyOf(e, g) == key;
      forall k | k in keys ensures SelectsKey(sel, k) <==> k == key {
        var f :| f in events && KeyOf(f, g) == k;
        if SelectsKey(sel, k) { PinnedKey(sel, e, f, g); }
      }
      KeyVisitorsOne(events, g, keys, sel, key);
      forall f | f in events ensures KeyOf(f, g) == key <==> Matches(sel, f) {
        if Matches(sel, f) { PinnedKey(sel, e, f, g); }
      }
      assert GroupVisitors(events, g, key) == Visitors(events, day, day, sel);
    } else {
      KeyVisitorsNone(events, g, keys, sel);
      if GroupingOf(sel, g) { assert Visitors(events, day, day, sel) == {}; }
    }
  }

  lemma {:induction false} RowsUpToVisitors(events: seq<Event>, day: int, n: nat, sel: Selection)
    requires n <= |GROUPINGS| && WellScoped(sel) && Pinned(sel)
    requires forall e :: e in events ==> e.source in SOURCES && DayOf(e.occurredAt) == day
    ensures RowVisitors(RowsUpTo(events, day, n), day, day, sel)
         == if Answered(sel, n) then |Visitors(events, day, day, sel)| else 0
  {
    if n > 0 {
      var g := GROUPINGS[n - 1];
      RowsUpToVisitors(events, day, n - 1, sel);
      KeyVisitorsCount(events, day, g, sel);
      RowsForVisitors(events, day, g, GroupKeys(events, g), sel);
      RowCountConcat(RowsUpTo(events, day, n - 1), RowsFor(events, day, g, GroupKeys(events, g)), day, day, sel);
      AnsweredOnce(sel, n - 1);
    }
  }

  /** A rolled-up day's rows give the exact number of distinct visitors of a selection that leaves one key. */
  lemma DailyRowsVisitors(events: seq<Event>, day: int, sel: Selection)
    requires WellScoped(sel) && Pinned(sel)
    requires forall e :: e in events ==> e.source in SOURCES && DayOf(e.occurredAt) == day
    ensures RowVisitors(DailyRows(events, day), day, day, sel) == |Visitors(events, day, day, sel)|
  {
    RowsUpToVisitors(events, day, |GROUPINGS|, sel);
    GroupingExists(sel);
  }

  lemma {:induction false} NoVisitorRowsLater(rows: seq<Metric>, start: int, lo: int, hi: int, sel: Selection)
    requires (forall m :: m in rows ==> m.date < start) && lo >= start
    ensures RowVisitors(rows, lo, hi, sel) == 0
  {
    if rows != [] {
      var front := rows[..|rows| - 1];
      assert rows == front + [rows[|rows| - 1]];
      NoVisitorRowsLater(front, start, lo, hi, sel);
    }
  }

  /** From the raw range on, the raw events are the log's events. */
  lemma RawIsLog(t: Tables, settings: Settings, e: Event)
    requires Sound(t, settings) && DayOf(e.occurredAt) >= RawStart(settings, t.now)
    ensures e in t.raw <==> e in t.log
  {
    var day := DayOf(e.occurredAt);
    assert DayKept(t, day);
    OnDayMembers(t.raw, day);
    OnDayMembers(t.log, day);
    NoRowsFrom(t.rows, RawStart(settings, t.now), day);
    DailyRowsShape(OnDay(t.log, day), day, day);
  }

  /** Every raw event older than the raw range has been rolled up. */
  predicate RolledUp(t: Tables, settings: Settings) {
    forall e :: e in t.raw ==> DayOf(e.occurredAt) >= RawStart(settings, t.now)
  }

  /** Once rolled up, visitors are exact wherever they are reported. */
  lemma VisitorsExact(t: Tables, settings: Settings, start: int, end: int, sel: Selection)
    requires Sound(t, settings) && RolledUp(t, settings) && WellScoped(sel) && start <= end
    requires var first := RawStart(settings, t.now);
             var historical := HistoricalPart(first, start, end);
             VisitorsAvailable(historical, RawPart(first, start, end)) && (historical.Some? ==> Pinned(sel))
    ensures FastVisitors(t, settings, start, end, sel) == |Visitors(t.log, start, end, sel)|
  {
    var first := RawStart(settings, t.now);
    if start >= first {
      forall e: Event | DayOf(e.occurredAt) >= start ensures e in t.raw <==> e in t.log { RawIsLog(t, settings, e); }
      assert Visitors(t.raw, start, end, sel) == Visitors(t.log, start, end, sel);
    } else {
      assert start == end;
      OnDayMembers(t.log, start);
      OnDayMembers(t.raw, start);
      assert DayKept(t, start);
      RowCountDay(t.rows, start, sel);
      if OnDay(t.raw, start) == OnDay(t.log, start) {
        NothingOnDay(t.raw, start);
        DailyRowsVisitors([], start, sel);
        assert DailyRows([], start) == [] by { DailyRowsShape([], start, start); }
        assert Visitors(t.log, start, end, sel) == {} == Visitors([], start, start, sel);
      } else {
        DailyRowsVisitors(OnDay(t.log, start), start, sel);
        assert Visitors(t.log, start, end, sel) == Visitors(OnDay(t.log, start), start, start, sel);
      }
    }
  }

  lemma {:induction false} NothingOnDay(events: seq<Event>, day: int)
    requires forall e :: e in events ==> DayOf(e.occurredAt) != day
    ensures OnDay(events, day) == []
  {
    if events != [] {
      var front := events[..|events| - 1];
      assert events == front + [events[|events| - 1]];
      NothingOnDay(front, day);
    }
  }

  lemma {:induction false} NothingStale(t: Tables, settings: Settings, events: seq<Event>, lo: int, hi: int,
                                        sel: Selection)
    requires RolledUp(t, settings) && (forall e :: e in events ==> e in t.raw) && hi < RawStart(settings, t.now)
    ensures EventCount(events, lo, hi, sel) == 0
  {
    if events != [] {
      var front := events[..|events| - 1];
      assert events == front + [events[|events| - 1]];
      NothingStale(t, settings, front, lo, hi, sel);
    }
  }

  /** Once rolled up, every reported count is the log's. */
  lemma CountExact(t: Tables, settings: Settings, start: int, end: int, sel: Selection)
    requires Sound(t, settings) && RolledUp(t, settings) && WellScoped(sel) && start <= end
    ensures FastCount(t, settings, start, end, sel) == EventCount(t.log, start, end, sel)
  {
    var first := RawStart(settings, t.now);
    CountAccount(t, settings, start, end, sel);
    NothingStale(t, settings, t.raw, start, if end < first - 1 then end else first - 1, sel);
  }
}
