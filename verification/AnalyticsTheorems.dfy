/** The main results about the analytics figures, over all runs of recording, waiting and rolling up. */
module AnalyticsTheorems {
  import opened Wrappers
  import opened Ordering
  import opened Events
  import opened Rollup
  import opened RollupProofs
  import opened Queries
  import opened QueryProofs
  import opened Tally

  // ---- grouped counts ----

  /** The selection restricted to one value of the axis. */
  function Narrow(sel: Selection, axis: Axis, key: Token): Selection {
    if axis == ByName then sel.(names := {key}) else sel.(target := Some(key))
  }

  predicate Allows(sel: Selection, axis: Axis, key: Token) {
    if axis == ByName then sel.names == {} || key in sel.names else Wants(sel.target, key)
  }

  lemma {:induction false} TallyRowsAt(rows: seq<Metric>, lo: int, hi: int, sel: Selection, axis: Axis, key: Token)
    ensures var cells := TallyRows(rows, lo, hi, sel, axis);
            && KeysOnce(cells)
            && At(cells, key) == (if Allows(sel, axis, key) then RowCount(rows, lo, hi, Narrow(sel, axis, key)) else 0)
            && TotalOf(cells) == RowCount(rows, lo, hi, sel)
            && (HasKey(cells, key) <==>
                  exists m :: m in rows && SelectsRow(sel, lo, hi, m) && RowAxis(axis, m.key) == key)
  {
    if rows != [] {
      var front, m := rows[..|rows| - 1], rows[|rows| - 1];
      assert rows == front + [m];
      TallyRowsAt(front, lo, hi, sel, axis, key);
      var cells := TallyRows(front, lo, hi, sel, axis);
      AddedAt(cells, RowAxis(axis, m.key), m.count, key);
      AddedOnce(cells, RowAxis(axis, m.key), m.count);
    }
  }

  lemma {:induction false} TallyEventsAt(cells: seq<Cell>, events: seq<Event>, lo: int, hi: int, sel: Selection,
                                         axis: Axis, key: Token)
    requires KeysOnce(cells)
    ensures var counted := TallyEvents(cells, events, lo, hi, sel, axis);
            && KeysOnce(counted)
            && At(counted, key) == At(cells, key)
                 + (if Allows(sel, axis, key) then EventCount(events, lo, hi, Narrow(sel, axis, key)) else 0)
            && TotalOf(counted) == TotalOf(cells) + EventCount(events, lo, hi, sel)
            && (HasKey(counted, key) <==>
                  (HasKey(cells, key)
                   || exists e :: e in events && SelectsEvent(sel, lo, hi, e) && EventAxis(axis, e) == key))
  {
    if events != [] {
      var front, e := events[..|events| - 1], events[|events| - 1];
      assert events == front + [e];
      TallyEventsAt(cells, front, lo, hi, sel, axis, key);
      var counted := TallyEvents(cells, front, lo, hi, sel, axis);
      AddedAt(counted, EventAxis(axis, e), 1, key);
      AddedOnce(counted, EventAxis(axis, e), 1);
    }
  }

  /** A grouped count reads, at each key, the count of the narrowed selection; in total, that of the whole selection. */
  lemma FastTallyAt(t: Tables, settings: Settings, start: int, end: int, sel: Selection, axis: Axis, key: Token)
    ensures var cells := FastTally(t, settings, start, end, sel, axis);
            && KeysOnce(cells)
            && At(cells, key) == (if Allows(sel, axis, key)
                                    then FastCount(t, settings, start, end, Narrow(sel, axis, key))
                                    else 0)
            && TotalOf(cells) == FastCount(t, settings, start, end, sel)
  {
    var first := RawStart(settings, t.now);
    var historical, raw := HistoricalPart(first, start, end), RawPart(first, start, end);
    var cells :=
      if historical.Some? then TallyRows(t.rows, historical.value.lo, historical.value.hi, sel, axis) else [];
    if historical.Some? { TallyRowsAt(t.rows, historical.value.lo, historical.value.hi, sel, axis, key); }
    if raw.Some? { TallyEventsAt(cells, t.raw, raw.value.lo, raw.value.hi, sel, axis, key); }
  }

  // ---- overview ----

  predicate KnownSource(source: Token) { source == BLANK || source in SOURCES }

  /** The figures of an overview are exact for the log, short only of what the rollup has not reached. */
  predicate OverviewAgrees(t: Tables, settings: Settings, o: Overview, org: Token, start: int, end: int,
                           source: Token) {
    && o.total + Stale(t, settings, start, end, Everything(org, source))
          == EventCount(t.log, start, end, Everything(org, source))
    && (forall f :: f in o.figures ==>
          f.count + Stale(t, settings, start, end, Named(org, source, f.name))
            == EventCount(t.log, start, end, Named(org, source, f.name)))
  }

  predicate OverviewVisitorsAgree(t: Tables, o: Overview, org: Token, start: int, end: int, source: Token) {
    && (o.visitors.Some? ==> o.visitors.value == |Visitors(t.log, start, end, Everything(org, source))|)
    && (forall f :: f in o.figures && f.visitors.Some? ==>
          f.visitors.value == |Visitors(t.log, start, end, Named(org, source, f.name))|)
  }

  /**
   For every run, range and source: each overview count plus the not yet rolled
   up raw events is the count of the never-purged log; visitors are withheld
   exactly when the range mixes days or sources of truth, and once rolled up the
   reported ones are exact.
   */
  lemma OverviewExact(now: int, settings: Settings, steps: seq<Step>, registered: seq<Token>,
                      org: Token, start: int, end: int, source: Token)
    requires AgeWithinRetention(settings) && KnownSource(source) && start <= end
    ensures var t := Run(Start(now), settings, steps);
            var o := OverviewOf(t, settings, registered, org, start, end, source);
            && OverviewAgrees(t, settings, o, org, start, end, source)
            && (o.visitors.Some? <==> (start >= RawStart(settings, t.now) || start == end))
            && (RolledUp(t, settings) ==> OverviewVisitorsAgree(t, o, org, start, end, source))
  {
    RunSound(now, settings, steps);
    var t := Run(Start(now), settings, steps);
    var o := OverviewOf(t, settings, registered, org, start, end, source);
    CountAccount(t, settings, start, end, Everything(org, source));
    forall f | f in o.figures
      ensures f.count + Stale(t, settings, start, end, Named(org, source, f.name))
                == EventCount(t.log, start, end, Named(org, source, f.name))
    {
      FastTallyAt(t, settings, start, end, AnyEvent(org, source), ByName, f.name);
      CountAccount(t, settings, start, end, Named(org, source, f.name));
    }
    if RolledUp(t, settings) && o.visitors.Some? {
      VisitorsExact(t, settings, start, end, Everything(org, source));
      forall f | f in o.figures ensures f.visitors.value == |Visitors(t.log, start, end, Named(org, source, f.name))| {
        VisitorsExact(t, settings, start, end, Named(org, source, f.name));
      }
    }
  }

  // ---- trend ----

  predicate PointAgrees(t: Tables, settings: Settings, p: Point, org: Token, source: Token) {
    && p.count + Stale(t, settings, p.day, p.day, Named(org, source, p.name))
          == EventCount(t.log, p.day, p.day, Named(org, source, p.name))
    && (RolledUp(t, settings) ==> p.visitors == |Visitors(t.log, p.day, p.day, Named(org, source, p.name))|)
  }

  /** The point of the k-th name on a day stands where day after day and name after name put it. */
  predicate PointPlaced(points: seq<Point>, start: int, names: seq<Token>, day: int, k: nat)
    requires k < |names|
  {
    var at := (day - start) * |names| + k;
    0 <= at < |points| && points[at].day == day && points[at].name == names[k]
  }

  lemma {:induction false} TrendSound(t: Tables, settings: Settings, org: Token, start: int, end: int, source: Token,
                                      names: seq<Token>)
    requires Sound(t, settings) && KnownSource(source)
    ensures var points := TrendOf(t, settings, org, start, end, source, names);
            && (forall p :: p in points ==> PointAgrees(t, settings, p, org, source))
            && |points| == (if start > end then 0 else (end - start + 1) * |names|)
    decreases end - start
  {
    if start <= end {
      TrendSound(t, settings, org, start, end - 1, source, names);
      forall p | p in PointsOn(t, settings, org, end, source, names) ensures PointAgrees(t, settings, p, org, source) {
        CountAccount(t, settings, end, end, Named(org, source, p.name));
        if RolledUp(t, settings) { VisitorsExact(t, settings, end, end, Named(org, source, p.name)); }
      }
    }
  }

  /** Day after day, one point for each name. */
  lemma {:induction false} TrendPlace(t: Tables, settings: Settings, org: Token, start: int, end: int, source: Token,
                                      names: seq<Token>, day: int, k: nat)
    requires start <= day <= end && k < |names|
    ensures PointPlaced(TrendOf(t, settings, org, start, end, source, names), start, names, day, k)
    decreases end - start
  {
    var n := |names|;
    TrendLength(t, settings, org, start, end, source, names);
    TrendLength(t, settings, org, start, end - 1, source, names);
    assert (day - start) * n + k < (day - start + 1) * n <= (end - start + 1) * n;
    if day < end {
      TrendPlace(t, settings, org, start, end - 1, source, names, day, k);
    }
  }

  lemma {:induction false} TrendLength(t: Tables, settings: Settings, org: Token, start: int, end: int, source: Token,
                                       names: seq<Token>)
    ensures |TrendOf(t, settings, org, start, end, source, names)|
              == if start > end then 0 else (end - start + 1) * |names|
    decreases end - start
  {
    if start <= end { TrendLength(t, settings, org, start, end - 1, source, names); }
  }

  /**
   A trend has one point for every day and name, in this order, and each is exact
   for its day, purged or not, visitors included.
   */
  lemma TrendExact(now: int, settings: Settings, steps: seq<Step>, org: Token, start: int, end: int, source: Token,
                   names: seq<Token>)
    requires AgeWithinRetention(settings) && KnownSource(source) && start <= end
    ensures var t := Run(Start(now), settings, steps);
            var points := TrendOf(t, settings, org, start, end, source, names);
            && |points| == (end - start + 1) * |names|
            && (forall day, k :: start <= day <= end && 0 <= k < |names| ==>
                  PointPlaced(points, start, names, day, k))
            && (forall p :: p in points ==> PointAgrees(t, settings, p, org, source))
  {
    RunSound(now, settings, steps);
    var t := Run(Start(now), settings, steps);
    TrendSound(t, settings, org, start, end, source, names);
    forall day, k | start <= day <= end && 0 <= k < |names|
      ensures PointPlaced(TrendOf(t, settings, org, start, end, source, names), start, names, day, k)
    {
      TrendPlace(t, settings, org, start, end, source, names, day, k);
    }
  }

  // ---- ranking ----

  /** Rows only ever count events that exist. */
  lemma {:induction false} GroupCountPositive(events: seq<Event>, g: Grouping, key: MetricKey)
    requires exists e :: e in events && KeyOf(e, g) == key
    ensures GroupCount(events, g, key) > 0
  {
    var front, last := events[..|events| - 1], events[|events| - 1];
    assert events == front + [last];
    if KeyOf(last, g) != key { GroupCountPositive(front, g, key); }
  }

  lemma {:induction false} RowsUpToPositive(events: seq<Event>, day: int, n: nat)
    requires n <= |GROUPINGS|
    ensures forall m :: m in RowsUpTo(events, day, n) ==> m.count > 0
  {
    if n > 0 {
      RowsUpToPositive(events, day, n - 1);
      var g := GROUPINGS[n - 1];
      var keys := GroupKeys(events, g);
      GroupKeysCover(events, g);
      forall m | m in RowsFor(events, day, g, keys) ensures m.count > 0 {
        var i :| 0 <= i < |keys| && RowsFor(events, day, g, keys)[i] == m;
        assert keys[i] in keys;
        GroupCountPositive(events, g, m.key);
      }
    }
  }

  lemma {:induction false} DatedMember(rows: seq<Metric>, m: Metric)
    requires m in rows
    ensures m in Dated(rows, m.date)
  {
    var front := rows[..|rows| - 1];
    assert rows == front + [rows[|rows| - 1]];
    if m != rows[|rows| - 1] { DatedMember(front, m); }
  }

  lemma RowsPositive(t: Tables, settings: Settings)
    requires Sound(t, settings)
    ensures forall m :: m in t.rows ==> m.count > 0
  {
    forall m | m in t.rows ensures m.count > 0 {
      assert DayKept(t, m.date);
      DatedMember(t.rows, m);
      RowsUpToPositive(OnDay(t.log, m.date), m.date, |GROUPINGS|);
    }
  }

  lemma {:induction false} RowCountPositive(rows: seq<Metric>, lo: int, hi: int, sel: Selection)
    requires forall m :: m in rows ==> m.count > 0
    ensures RowCount(rows, lo, hi, sel) > 0 <==> exists m :: m in rows && SelectsRow(sel, lo, hi, m)
  {
    if rows != [] {
      assert rows == rows[..|rows| - 1] + [rows[|rows| - 1]];
      RowCountPositive(rows[..|rows| - 1], lo, hi, sel);
    }
  }

  lemma {:induction false} EventCountPositive(events: seq<Event>, lo: int, hi: int, sel: Selection)
    ensures EventCount(events, lo, hi, sel) > 0 <==> exists e :: e in events && SelectsEvent(sel, lo, hi, e)
  {
    if events != [] {
      assert events == events[..|events| - 1] + [events[|events| - 1]];
      EventCountPositive(events[..|events| - 1], lo, hi, sel);
    }
  }

  /** A target has a cell exactly when something counts for it. */
  lemma TargetListed(t: Tables, settings: Settings, start: int, end: int, sel: Selection, key: Token)
    requires Sound(t, settings) && sel.target.None?
    ensures HasKey(FastTally(t, settings, start, end, sel, ByTarget), key)
       <==> FastCount(t, settings, start, end, Narrow(sel, ByTarget, key)) > 0
  {
    RowsPositive(t, settings);
    var first := RawStart(settings, t.now);
    var historical, raw := HistoricalPart(first, start, end), RawPart(first, start, end);
    var one := Narrow(sel, ByTarget, key);
    var cells :=
      if historical.Some? then TallyRows(t.rows, historical.value.lo, historical.value.hi, sel, ByTarget) else [];
    if historical.Some? {
      TallyRowsAt(t.rows, historical.value.lo, historical.value.hi, sel, ByTarget, key);
      RowCountPositive(t.rows, historical.value.lo, historical.value.hi, one);
      assert forall m :: (SelectsRow(one, historical.value.lo, historical.value.hi, m)
                          <==> (SelectsRow(sel, historical.value.lo, historical.value.hi, m)
                               && RowAxis(ByTarget, m.key) == key));
    }
    if raw.Some? {
      TallyEventsAt(cells, t.raw, raw.value.lo, raw.value.hi, sel, ByTarget, key);
      EventCountPositive(t.raw, raw.value.lo, raw.value.hi, one);
      assert forall e :: (SelectsEvent(one, raw.value.lo, raw.value.hi, e)
                          <==> (SelectsEvent(sel, raw.value.lo, raw.value.hi, e) && EventAxis(ByTarget, e) == key));
    }
  }

  /** Larger totals first, ties by identifier. */
  predicate RanksBefore(a: Cell, b: Cell) {
    a.n > b.n || (a.n == b.n && a.key < b.key)
  }

  lemma RankingShape(cells: seq<Cell>)
    requires KeysOnce(cells)
    ensures var ranked := RankedCells(cells);
            && (forall c :: c in ranked <==> c in cells)
            && (forall i, j :: 0 <= i < j < |ranked| ==> RanksBefore(ranked[i], ranked[j]))
  {
    var keys := RankKeys(cells);
    var order, ranked := Order(keys), RankedCells(cells);
    OrderRanked(keys);
    forall i, j | 0 <= i < j < |ranked| ensures RanksBefore(ranked[i], ranked[j]) {
      RankCompare(keys, order, i, j);
    }
    forall c | c in cells ensures c in ranked {
      var i :| 0 <= i < |cells| && cells[i] == c;
      assert i in order;
      var p := PositionOf(keys, order, i);
      assert ranked[p] == c;
    }
  }

  /** Counting events does not look at the scope. */
  lemma {:induction false} ScopeIrrelevant(events: seq<Event>, lo: int, hi: int, a: Selection, b: Selection)
    requires a.(scope := b.scope) == b
    ensures EventCount(events, lo, hi, a) == EventCount(events, lo, hi, b)
  {
    if events != [] { ScopeIrrelevant(events[..|events| - 1], lo, hi, a, b); }
  }

  /** A target's total and its figures by event come from different rows and still agree. */
  lemma MetricsSumToTotal(t: Tables, settings: Settings, org: Token, start: int, end: int, kind: Token, source: Token,
                          names: set<Token>, target: Token)
    requires Sound(t, settings) && KnownSource(source) && start <= end
    ensures FastCount(t, settings, start, end, Totals(org, source, kind, names).(target := Some(target)))
         == FastCount(t, settings, start, end, ByEvent(org, source, kind, names, target))
  {
    var a, b := Totals(org, source, kind, names).(target := Some(target)), ByEvent(org, source, kind, names, target);
    CountAccount(t, settings, start, end, a);
    CountAccount(t, settings, start, end, b);
    var first := RawStart(settings, t.now);
    ScopeIrrelevant(t.raw, start, if end < first - 1 then end else first - 1, a, b);
    ScopeIrrelevant(t.log, start, end, a, b);
  }

  predicate RankingComplete(t: Tables, ranking: seq<Cell>, org: Token, start: int, end: int, kind: Token, source: Token,
                            names: set<Token>, target: Token) {
    var expected := EventCount(t.log, start, end, Totals(org, source, kind, names).(target := Some(target)));
    if expected > 0 then Cell(target, expected) in ranking else !HasKey(ranking, target)
  }

  /**
   Once rolled up, the ranking lists every target with a matching event of the
   never-purged log exactly once, with its full total, from the largest total
   down and by identifier among equals.
   */
  lemma RankingExact(now: int, settings: Settings, steps: seq<Step>, org: Token, start: int, end: int, kind: Token,
                     source: Token, names: set<Token>, target: Token)
    requires AgeWithinRetention(settings) && KnownSource(source) && start <= end
    ensures var t := Run(Start(now), settings, steps);
            var ranking := RankingOf(t, settings, org, start, end, kind, source, names);
            && (forall i, j :: 0 <= i < j < |ranking| ==>
                  RanksBefore(ranking[i], ranking[j]) && ranking[i].key != ranking[j].key)
            && (RolledUp(t, settings) ==> RankingComplete(t, ranking, org, start, end, kind, source, names, target))
  {
    RunSound(now, settings, steps);
    var t := Run(Start(now), settings, steps);
    var sel := Totals(org, source, kind, names);
    var cells := FastTally(t, settings, start, end, sel, ByTarget);
    FastTallyAt(t, settings, start, end, sel, ByTarget, target);
    RankingShape(cells);
    var ranking := RankedCells(cells);
    forall i, j | 0 <= i < j < |ranking| ensures ranking[i].key != ranking[j].key {
      assert RanksBefore(ranking[i], ranking[j]);
      assert ranking[i] in cells && ranking[j] in cells;
    }
    if RolledUp(t, settings) {
      CountExact(t, settings, start, end, Narrow(sel, ByTarget, target));
      TargetListed(t, settings, start, end, sel, target);
      if HasKey(cells, target) {
        var i :| 0 <= i < |cells| && cells[i].key == target;
        AtCell(cells, i);
        assert cells[i] in cells;
      }
    }
  }

  /**
   In every reachable state each ranked target's figures by event add up to its
   total, with or without an event filter; once rolled up its visitors, when
   reported, are those of the log.
   */
  lemma RankedItemExact(now: int, settings: Settings, steps: seq<Step>, org: Token, start: int, end: int, kind: Token,
                        source: Token, names: set<Token>, i: nat)
    requires AgeWithinRetention(settings) && KnownSource(source) && start <= end
    requires i < |RankingOf(Run(Start(now), settings, steps), settings, org, start, end, kind, source, names)|
    ensures var t := Run(Start(now), settings, steps);
            var cell := RankingOf(t, settings, org, start, end, kind, source, names)[i];
            var item := ItemOf(t, settings, org, start, end, kind, source, names, cell);
            var one := Totals(org, source, kind, names).(target := Some(item.target));
            && TotalOf(item.metrics) == item.total == cell.n && KeysOnce(item.metrics)
            && (RolledUp(t, settings) ==>
                  && (forall name :: At(item.metrics, name) ==
                        if names == {} || name in names
                        then EventCount(t.log, start, end, one.(scope := PerTargetEvent, names := {name}))
                        else 0)
                  && (item.visitors.Some? ==> item.visitors.value == |Visitors(t.log, start, end, one)|))
  {
    RunSound(now, settings, steps);
    var t := Run(Start(now), settings, steps);
    var sel := Totals(org, source, kind, names);
    var cells := FastTally(t, settings, start, end, sel, ByTarget);
    FastTallyAt(t, settings, start, end, sel, ByTarget, 0);
    RankingShape(cells);
    var cell := RankedCells(cells)[i];
    assert cell in RankedCells(cells);
    var k :| 0 <= k < |cells| && cells[k] == cell;
    AtCell(cells, k);
    FastTallyAt(t, settings, start, end, sel, ByTarget, cell.key);
    MetricsSumToTotal(t, settings, org, start, end, kind, source, names, cell.key);
    ItemFigures(t, settings, org, start, end, kind, source, names, cell);
  }

  lemma ItemFigures(t: Tables, settings: Settings, org: Token, start: int, end: int, kind: Token, source: Token,
                    names: set<Token>, cell: Cell)
    requires Sound(t, settings) && KnownSource(source) && start <= end
    ensures var item := ItemOf(t, settings, org, start, end, kind, source, names, cell);
            var one := Totals(org, source, kind, names).(target := Some(item.target));
            && KeysOnce(item.metrics)
            && TotalOf(item.metrics) == FastCount(t, settings, start, end, ByEvent(org, source, kind, names, cell.key))
            && (RolledUp(t, settings) ==>
                  && (forall name :: At(item.metrics, name) ==
                        if names == {} || name in names
                        then EventCount(t.log, start, end, one.(scope := PerTargetEvent, names := {name}))
                        else 0)
                  && (item.visitors.Some? ==> item.visitors.value == |Visitors(t.log, start, end, one)|))
  {
    var item := ItemOf(t, settings, org, start, end, kind, source, names, cell);
    var sel := ByEvent(org, source, kind, names, cell.key);
    var one := Totals(org, source, kind, names).(target := Some(item.target));
    FastTallyAt(t, settings, start, end, sel, ByName, 0);
    if RolledUp(t, settings) {
      forall name ensures At(item.metrics, name) ==
        if names == {} || name in names
        then EventCount(t.log, start, end, one.(scope := PerTargetEvent, names := {name}))
        else 0
      {
        FastTallyAt(t, settings, start, end, sel, ByName, name);
        CountExact(t, settings, start, end, Narrow(sel, ByName, name));
        assert Narrow(sel, ByName, name) == one.(scope := PerTargetEvent, names := {name});
      }
      if item.visitors.Some? { VisitorsExact(t, settings, start, end, one); }
    }
  }

  /** The first n pages one after another. */
  function Pages<T>(all: seq<T>, n: nat, size: int): seq<T>
    requires size >= 1
  {
    if n == 0 then [] else Pages(all, n - 1, size) + Slice(all, n, size)
  }

  lemma {:induction false} PagesArePrefix<T>(all: seq<T>, n: nat, size: int)
    requires size >= 1
    ensures Pages(all, n, size) == if n * size >= |all| then all else all[..n * size]
  {
    if n > 0 {
      PagesArePrefix(all, n - 1, size);
      assert n * size == (n - 1) * size + size;
    }
  }

  /** Reading page after page gives the whole ranking, nothing twice, once enough pages are read. */
  lemma PagesCoverRanking(t: Tables, settings: Settings, org: Token, start: int, end: int, kind: Token, source: Token,
                          names: set<Token>, n: nat, pageSize: int)
    requires pageSize >= 1
    ensures var ranking := RankingOf(t, settings, org, start, end, kind, source, names);
            && (n * pageSize >= |ranking| ==> Pages(ranking, n, pageSize) == ranking)
            && (forall p: int :: p >= 1 ==>
                  var page := PageOf(t, settings, org, start, end, kind, source, names, p, pageSize);
                  && page.total == |ranking|
                  && |page.items| == |Slice(ranking, p, pageSize)|
                  && forall i :: 0 <= i < |page.items| ==>
                       page.items[i] == ItemOf(t, settings, org, start, end, kind, source, names,
                                               Slice(ranking, p, pageSize)[i]))
  {
    PagesArePrefix(RankingOf(t, settings, org, start, end, kind, source, names), n, pageSize);
  }
}
