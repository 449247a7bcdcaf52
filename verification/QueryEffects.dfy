/**
 What the figures are: numbers of events and visitors of the never-purged log, said
 through the events themselves; and which figures an answer holds, in which order.
 */
module QueryEffects {
  import opened Wrappers
  import opened Events
  import opened Rollup
  import opened RollupProofs
  import opened Queries
  import opened QueryProofs
  import opened AnalyticsTheorems
  import opened AnalyticsEffects
  import opened Tally

  /** What a figure is about: an organization, a source or all (0), names or all, and maybe a kind and a target. */
  function About(org: Token, source: Token, names: set<Token>, kind: Option<Token>, target: Option<Token>): Selection {
    Selection(org, source, All, names, kind, target)
  }

  function Seen(events: seq<Event>, sel: Selection, lo: int, hi: int): set<Token> {
    set e | e in events && Asked(sel, lo, hi, e) && e.visitor != 0 :: e.visitor
  }

  /** The figure and the raw events that a rollup is still to reach are the events of the log. */
  predicate Exact(t: Tables, settings: Settings, count: int, sel: Selection, start: int, end: int) {
    var first := RawStart(settings, t.now);
    count + |AskedIn(t.raw, sel, start, if end < first then end else first - 1)| == |AskedIn(t.log, sel, start, end)|
  }

  /** Every raw event before the days kept has been rolled up. */
  predicate CaughtUp(t: Tables, settings: Settings) {
    forall e :: e in t.raw ==> 86400 * RawStart(settings, t.now) <= e.occurredAt
  }

  /** Visitors are shown for the days kept, and for a single earlier day if they can be; then they are the log's. */
  predicate VisitorsAre(t: Tables, settings: Settings, visitors: Option<nat>, sel: Selection, start: int, end: int,
                        single: bool) {
    && (visitors.Some? <==> RawStart(settings, t.now) <= start || (start == end && single))
    && (visitors.Some? && CaughtUp(t, settings) ==> visitors.value == |Seen(t.log, sel, start, end)|)
  }

  lemma SameAsked(events: seq<Event>, a: Selection, b: Selection, lo: int, hi: int)
    requires b == a.(scope := b.scope)
    ensures AskedIn(events, a, lo, hi) == AskedIn(events, b, lo, hi)
    ensures Seen(events, a, lo, hi) == Seen(events, b, lo, hi)
  {
    assert forall e :: Asked(a, lo, hi, e) <==> Asked(b, lo, hi, e);
  }

  lemma CountMeans(t: Tables, settings: Settings, start: int, end: int, scoped: Selection, sel: Selection)
    requires Sound(t, settings) && WellScoped(scoped) && start <= end && sel == scoped.(scope := sel.scope)
    ensures Exact(t, settings, FastCount(t, settings, start, end, scoped), sel, start, end)
  {
    var first := RawStart(settings, t.now);
    var last := if end < first then end else first - 1;
    CountAccount(t, settings, start, end, scoped);
    CountsAsked(t.raw, start, last, scoped);
    CountsAsked(t.log, start, end, scoped);
    SameAsked(t.raw, scoped, sel, start, last);
    SameAsked(t.log, scoped, sel, start, end);
  }

  lemma VisitorsMean(t: Tables, settings: Settings, start: int, end: int, scoped: Selection, sel: Selection)
    requires Sound(t, settings) && CaughtUp(t, settings) && WellScoped(scoped) && sel == scoped.(scope := sel.scope)
    requires start <= end && (RawStart(settings, t.now) <= start || (start == end && Pinned(scoped)))
    ensures FastVisitors(t, settings, start, end, scoped) == |Seen(t.log, sel, start, end)|
  {
    VisitorsExact(t, settings, start, end, scoped);
    ReferenceCounts(t.log, start, end, scoped);
    SameAsked(t.log, scoped, sel, start, end);
  }

  // ---- overview ----

  predicate FigureIs(t: Tables, settings: Settings, f: Figure, name: Token, org: Token, start: int, end: int,
                     source: Token) {
    && f.name == name && Exact(t, settings, f.count, About(org, source, {name}, None, None), start, end)
    && VisitorsAre(t, settings, f.visitors, About(org, source, {name}, None, None), start, end, true)
  }

  /** All events and their visitors, and then each registered name, in order, with its own. */
  lemma OverviewMeans(t: Tables, settings: Settings, registered: seq<Token>, org: Token, start: int, end: int,
                      source: Token)
    requires Sound(t, settings) && KnownSource(source) && start <= end
    ensures var o := OverviewOf(t, settings, registered, org, start, end, source);
            && Exact(t, settings, o.total, About(org, source, {}, None, None), start, end)
            && VisitorsAre(t, settings, o.visitors, About(org, source, {}, None, None), start, end, true)
            && |o.figures| == |registered|
            && forall i :: 0 <= i < |registered| ==>
                 FigureIs(t, settings, o.figures[i], registered[i], org, start, end, source)
  {
    var (o, all) := (OverviewOf(t, settings, registered, org, start, end, source), About(org, source, {}, None, None));
    CountMeans(t, settings, start, end, Everything(org, source), all);
    if CaughtUp(t, settings) && o.visitors.Some? {
      VisitorsMean(t, settings, start, end, Everything(org, source), all);
    }
    forall i | 0 <= i < |registered|
      ensures FigureIs(t, settings, o.figures[i], registered[i], org, start, end, source)
    {
      var (named, sel) := (Named(org, source, registered[i]), About(org, source, {registered[i]}, None, None));
      FastTallyAt(t, settings, start, end, AnyEvent(org, source), ByName, registered[i]);
      CountMeans(t, settings, start, end, named, sel);
      if CaughtUp(t, settings) && o.figures[i].visitors.Some? { VisitorsMean(t, settings, start, end, named, sel); }
    }
  }

  // ---- trend ----

  /** The k-th name's point on a day stands where day after day and name after name put it, with its figures. */
  predicate PointIs(t: Tables, settings: Settings, points: seq<Point>, start: int, asked: seq<Token>, day: int, k: nat,
                    org: Token, source: Token)
    requires k < |asked|
  {
    var (at, sel) := ((day - start) * |asked| + k, About(org, source, {asked[k]}, None, None));
    && 0 <= at < |points| && points[at].day == day && points[at].name == asked[k]
    && Exact(t, settings, points[at].count, sel, day, day)
    && (CaughtUp(t, settings) ==> points[at].visitors == |Seen(t.log, sel, day, day)|)
  }

  /** A point for every day and asked name, day after day; refused exactly when an asked name is not registered. */
  lemma TrendMeans(t: Tables, settings: Settings, registered: seq<Token>, org: Token, start: int, end: int,
                   source: Token, names: seq<Token>, asked: seq<Token>)
    requires Sound(t, settings) && KnownSource(source) && start <= end
    requires asked == if |names| == 0 then registered else names
    ensures var answer := TrendAnswer(t, settings, registered, org, start, end, source, names);
            && (answer.None? <==> exists n :: n in asked && n !in registered)
            && (answer.Some? ==>
                  && |answer.value| == (end - start + 1) * |asked|
                  && forall day, k :: start <= day <= end && 0 <= k < |asked| ==>
                       PointIs(t, settings, answer.value, start, asked, day, k, org, source))
  {
    var answer := TrendAnswer(t, settings, registered, org, start, end, source, names);
    if answer.Some? {
      TrendLength(t, settings, org, start, end, source, asked);
      forall day, k | start <= day <= end && 0 <= k < |asked|
        ensures PointIs(t, settings, answer.value, start, asked, day, k, org, source)
      {
        TrendPoint(t, settings, org, start, end, source, asked, day, k);
      }
    }
  }

  lemma TrendPoint(t: Tables, settings: Settings, org: Token, start: int, end: int, source: Token, asked: seq<Token>,
                   day: int, k: nat)
    requires Sound(t, settings) && KnownSource(source) && start <= day <= end && k < |asked|
    ensures PointIs(t, settings, TrendOf(t, settings, org, start, end, source, asked), start, asked, day, k, org,
                    source)
  {
    var points := TrendOf(t, settings, org, start, end, source, asked);
    TrendPlace(t, settings, org, start, end, source, asked, day, k);
    TrendFigures(t, settings, org, start, end, source, asked, (day - start) * |asked| + k);
    var (named, sel) := (Named(org, source, asked[k]), About(org, source, {asked[k]}, None, None));
    CountMeans(t, settings, day, day, named, sel);
    if CaughtUp(t, settings) { VisitorsMean(t, settings, day, day, named, sel); }
  }

  /** Each point holds the figures of its own day and name. */
  lemma {:induction false} TrendFigures(t: Tables, settings: Settings, org: Token, start: int, end: int, source: Token,
                                        asked: seq<Token>, at: int)
    requires 0 <= at < |TrendOf(t, settings, org, start, end, source, asked)|
    ensures var p := TrendOf(t, settings, org, start, end, source, asked)[at];
            && p.count == FastCount(t, settings, p.day, p.day, Named(org, source, p.name))
            && p.visitors == FastVisitors(t, settings, p.day, p.day, Named(org, source, p.name))
    decreases end - start
  {
    if start <= end {
      var front := TrendOf(t, settings, org, start, end - 1, source, asked);
      if at < |front| { TrendFigures(t, settings, org, start, end - 1, source, asked, at); }
    }
  }

  // ---- ranking ----

  /** Larger totals first, smaller identifiers among equals; totals are exact, and who is missing has none. */
  predicate RankingIs(t: Tables, settings: Settings, ranking: seq<Cell>, org: Token, start: int, end: int, kind: Token,
                      source: Token, names: set<Token>, target: Token) {
    && (forall i, j :: 0 <= i < j < |ranking| ==>
          ranking[i].n > ranking[j].n || (ranking[i].n == ranking[j].n && ranking[i].key < ranking[j].key))
    && (forall i, j :: 0 <= i < j < |ranking| ==> ranking[i].key != ranking[j].key)
    && (forall i :: 0 <= i < |ranking| && ranking[i].key == target ==>
          && ranking[i].n > 0
          && Exact(t, settings, ranking[i].n, About(org, source, names, Some(kind), Some(target)), start, end))
    && ((forall i :: 0 <= i < |ranking| ==> ranking[i].key != target) ==>
          Exact(t, settings, 0, About(org, source, names, Some(kind), Some(target)), start, end))
  }

  lemma RankingMeans(t: Tables, settings: Settings, org: Token, start: int, end: int, kind: Token, source: Token,
                     names: set<Token>, target: Token)
    requires Sound(t, settings) && KnownSource(source) && start <= end
    ensures RankingIs(t, settings, RankingOf(t, settings, org, start, end, kind, source, names), org, start, end, kind,
                      source, names, target)
  {
    var sel := Totals(org, source, kind, names);
    var cells := FastTally(t, settings, start, end, sel, ByTarget);
    var ranking := RankedCells(cells);
    FastTallyAt(t, settings, start, end, sel, ByTarget, target);
    TargetListed(t, settings, start, end, sel, target);
    RankingShape(cells);
    CountMeans(t, settings, start, end, sel.(target := Some(target)),
               About(org, source, names, Some(kind), Some(target)));
    forall i | 0 <= i < |ranking| && ranking[i].key == target ensures ranking[i].n == At(cells, target) > 0 {
      assert ranking[i] in cells;
      var k :| 0 <= k < |cells| && cells[k] == ranking[i];
      AtCell(cells, k);
    }
    if forall i :: 0 <= i < |ranking| ==> ranking[i].key != target {
      forall c | c in cells ensures c.key != target { assert c in ranking; }
    }
    forall i, j | 0 <= i < j < |ranking| ensures ranking[i].key != ranking[j].key {
      assert RanksBefore(ranking[i], ranking[j]) && ranking[i] in cells && ranking[j] in cells;
    }
  }

  predicate ItemIs(t: Tables, settings: Settings, item: Item, cell: Cell, org: Token, start: int, end: int, kind: Token,
                   source: Token, names: set<Token>, name: Token) {
    && item.target == cell.key && item.total == cell.n && KeysOnce(item.metrics)
    && (if names == {} || name in names
        then Exact(t, settings, At(item.metrics, name), About(org, source, {name}, Some(kind), Some(cell.key)), start,
                   end)
        else At(item.metrics, name) == 0)
    && VisitorsAre(t, settings, item.visitors, About(org, source, names, Some(kind), Some(cell.key)), start, end,
                   names == {} || |names| == 1)
  }

  lemma ItemMeans(t: Tables, settings: Settings, org: Token, start: int, end: int, kind: Token, source: Token,
                  names: set<Token>, cell: Cell, name: Token)
    requires Sound(t, settings) && KnownSource(source) && start <= end
    ensures ItemIs(t, settings, ItemOf(t, settings, org, start, end, kind, source, names, cell), cell, org, start, end,
                   kind, source, names, name)
  {
    var item := ItemOf(t, settings, org, start, end, kind, source, names, cell);
    var sel := ByEvent(org, source, kind, names, cell.key);
    FastTallyAt(t, settings, start, end, sel, ByName, name);
    if names == {} || name in names {
      CountMeans(t, settings, start, end, sel.(names := {name}),
                 About(org, source, {name}, Some(kind), Some(cell.key)));
    }
    if CaughtUp(t, settings) && item.visitors.Some? {
      VisitorsMean(t, settings, start, end, Totals(org, source, kind, names).(target := Some(cell.key)),
                   About(org, source, names, Some(kind), Some(cell.key)));
    }
  }

  /** The items from this place on, as many as a page holds or all that are left. */
  predicate PartFrom<T(==)>(all: seq<T>, part: seq<T>, from: int, size: int) {
    && |part| == (if from >= |all| then 0 else if |all| - from < size then |all| - from else size)
    && forall i :: 0 <= i < |part| ==> 0 <= from + i < |all| && part[i] == all[from + i]
  }

  lemma SliceExact<T>(all: seq<T>, page: int, size: int, from: int)
    requires page >= 1 && size >= 1 && from == (page - 1) * size
    ensures PartFrom(all, Slice(all, page, size), from, size)
  {
  }

  predicate ItemsOf(t: Tables, settings: Settings, items: seq<Item>, part: seq<Cell>, org: Token, start: int, end: int,
                    kind: Token, source: Token, names: set<Token>) {
    && |items| == |part|
    && forall i :: 0 <= i < |part| ==>
         items[i] == ItemOf(t, settings, org, start, end, kind, source, names, part[i])
  }

  /** The items stand for these cells of the ranking, one by one. */
  predicate ItemsAre(t: Tables, settings: Settings, items: seq<Item>, part: seq<Cell>, org: Token, start: int, end: int,
                     kind: Token, source: Token, names: set<Token>, name: Token) {
    && |items| == |part|
    && forall i :: 0 <= i < |part| ==>
         ItemIs(t, settings, items[i], part[i], org, start, end, kind, source, names, name)
  }

  lemma ItemsMean(t: Tables, settings: Settings, items: seq<Item>, part: seq<Cell>, org: Token, start: int, end: int,
                  kind: Token, source: Token, names: set<Token>, name: Token)
    requires Sound(t, settings) && KnownSource(source) && start <= end
    requires ItemsOf(t, settings, items, part, org, start, end, kind, source, names)
    ensures ItemsAre(t, settings, items, part, org, start, end, kind, source, names, name)
  {
    forall i | 0 <= i < |part|
      ensures ItemIs(t, settings, items[i], part[i], org, start, end, kind, source, names, name)
    {
      ItemMeans(t, settings, org, start, end, kind, source, names, part[i], name);
    }
  }

  lemma PageMadeOf(t: Tables, settings: Settings, org: Token, start: int, end: int, kind: Token, source: Token,
                   names: set<Token>, page: int, pageSize: int, p: int, size: int, ranking: seq<Cell>)
    requires p == (if page < 1 then 1 else page) && size == (if pageSize < 1 then 1 else pageSize)
    requires ranking == RankingOf(t, settings, org, start, end, kind, source, names)
    ensures var paged := PageOf(t, settings, org, start, end, kind, source, names, page, pageSize);
            && paged.page == p && paged.pageSize == size && paged.total == |ranking|
            && ItemsOf(t, settings, paged.items, Slice(ranking, p, size), org, start, end, kind, source, names)
  {
  }

  /**
   A page of a registered kind holds its part of the ranking, item by item; pages
   and page sizes start at 1; any other kind is refused.
   */
  lemma PageMeans(t: Tables, settings: Settings, kinds: set<Token>, org: Token, start: int, end: int, kind: Token,
                  source: Token, names: set<Token>, page: int, pageSize: int, name: Token, p: int, size: int,
                  from: int)
    returns (part: seq<Cell>)
    requires Sound(t, settings) && KnownSource(source) && start <= end
    requires p == (if page < 1 then 1 else page) && size == (if pageSize < 1 then 1 else pageSize)
    requires from == (p - 1) * size
    ensures PartFrom(RankingOf(t, settings, org, start, end, kind, source, names), part, from, size)
    ensures match TargetAnswer(t, settings, kinds, org, start, end, kind, source, names, page, pageSize)
            case None => kind !in kinds
            case Some(paged) =>
              && kind in kinds && paged.page == p && paged.pageSize == size
              && paged.total == |RankingOf(t, settings, org, start, end, kind, source, names)|
              && ItemsAre(t, settings, paged.items, part, org, start, end, kind, source, names, name)
  {
    var ranking := RankingOf(t, settings, org, start, end, kind, source, names);
    part := Slice(ranking, p, size);
    SliceExact(ranking, p, size, from);
    PageMadeOf(t, settings, org, start, end, kind, source, names, page, pageSize, p, size, ranking);
    ItemsMean(t, settings, PageOf(t, settings, org, start, end, kind, source, names, page, pageSize).items, part,
              org, start, end, kind, source, names, name);
  }
}
