/** The figures read from metric rows and the remaining raw events. */
module Queries {
  import opened Wrappers
  import opened Events
  import opened Rollup
  import opened Ordering
  import opened Tally

  /** What a query asks for; BLANK asks for all sources, no names for all events. */
  datatype Selection = Selection(
    org: Token, source: Token, scope: Scope, names: set<Token>, targetType: Option<Token>, target: Option<Token>)

  predicate Wants<T(==)>(wanted: Option<T>, value: T) {
    wanted.None? || wanted.value == value
  }

  predicate SelectsRow(sel: Selection, lo: int, hi: int, m: Metric) {
    && lo <= m.date <= hi && SelectsKey(sel, m.key)
  }

  predicate SelectsKey(sel: Selection, key: MetricKey) {
    && key.org == sel.org && key.source == sel.source && key.scope == sel.scope
    && (sel.names == {} || key.name in sel.names)
    && Wants(sel.targetType, key.targetType) && Wants(sel.target, key.target)
  }

  predicate SelectsEvent(sel: Selection, lo: int, hi: int, e: Event) {
    && lo <= DayOf(e.occurredAt) <= hi && Matches(sel, e)
  }

  predicate Matches(sel: Selection, e: Event) {
    && e.org == sel.org && (sel.source == BLANK || e.source == sel.source)
    && (sel.names == {} || e.name in sel.names)
    && Wants(sel.targetType, e.targetType) && Wants(sel.target, e.target)
  }

  function RowCount(rows: seq<Metric>, lo: int, hi: int, sel: Selection): nat {
    if rows == [] then 0
    else RowCount(rows[..|rows| - 1], lo, hi, sel)
           + if SelectsRow(sel, lo, hi, rows[|rows| - 1]) then rows[|rows| - 1].count else 0
  }

  function RowVisitors(rows: seq<Metric>, lo: int, hi: int, sel: Selection): nat {
    if rows == [] then 0
    else RowVisitors(rows[..|rows| - 1], lo, hi, sel)
           + if SelectsRow(sel, lo, hi, rows[|rows| - 1]) then rows[|rows| - 1].visitors else 0
  }

  function EventCount(events: seq<Event>, lo: int, hi: int, sel: Selection): nat {
    if events == [] then 0
    else EventCount(events[..|events| - 1], lo, hi, sel)
           + if SelectsEvent(sel, lo, hi, events[|events| - 1]) then 1 else 0
  }

  function Visitors(events: seq<Event>, lo: int, hi: int, sel: Selection): set<Token> {
    set e | e in events && SelectsEvent(sel, lo, hi, e) && e.visitor != BLANK :: e.visitor
  }

  // ---- splitting a range of days ----

  datatype Span = Span(lo: int, hi: int)

  function HistoricalPart(rawStart: int, start: int, end: int): Option<Span> {
    if start < rawStart then Some(Span(start, if end < rawStart - 1 then end else rawStart - 1)) else None
  }

  function RawPart(rawStart: int, start: int, end: int): Option<Span> {
    if end >= rawStart then Some(Span(if start > rawStart then start else rawStart, end)) else None
  }

  predicate VisitorsAvailable(historical: Option<Span>, raw: Option<Span>) {
    historical.None? || (raw.None? && historical.value.lo == historical.value.hi)
  }

  /** The count a query reports: rows for the historical days, raw events for the others. */
  function FastCount(t: Tables, settings: Settings, start: int, end: int, sel: Selection): nat {
    var first := RawStart(settings, t.now);
    var historical, raw := HistoricalPart(first, start, end), RawPart(first, start, end);
    (if historical.Some? then RowCount(t.rows, historical.value.lo, historical.value.hi, sel) else 0)
    + (if raw.Some? then EventCount(t.raw, raw.value.lo, raw.value.hi, sel) else 0)
  }

  /** The distinct visitors a query reports, when it reports any. */
  function FastVisitors(t: Tables, settings: Settings, start: int, end: int, sel: Selection): nat {
    var first := RawStart(settings, t.now);
    var historical, raw := HistoricalPart(first, start, end), RawPart(first, start, end);
    (if historical.Some? then RowVisitors(t.rows, historical.value.lo, historical.value.hi, sel) else 0)
    + (if raw.Some? then |Visitors(t.raw, raw.value.lo, raw.value.hi, sel)| else 0)
  }

  // ---- grouped counts ----

  datatype Axis = ByName | ByTarget

  function RowAxis(axis: Axis, key: MetricKey): Token {
    if axis == ByName then key.name else key.target
  }

  function EventAxis(axis: Axis, e: Event): Token {
    if axis == ByName then e.name else e.target
  }

  function TallyRows(rows: seq<Metric>, lo: int, hi: int, sel: Selection, axis: Axis): seq<Cell> {
    if rows == [] then []
    else
      var cells, m := TallyRows(rows[..|rows| - 1], lo, hi, sel, axis), rows[|rows| - 1];
      if SelectsRow(sel, lo, hi, m) then AddTo(cells, RowAxis(axis, m.key), m.count) else cells
  }

  /** Adds one for each selected event to the cells already counted. */
  function TallyEvents(cells: seq<Cell>, events: seq<Event>, lo: int, hi: int, sel: Selection, axis: Axis): seq<Cell> {
    if events == [] then cells
    else
      var counted, e := TallyEvents(cells, events[..|events| - 1], lo, hi, sel, axis), events[|events| - 1];
      if SelectsEvent(sel, lo, hi, e) then AddTo(counted, EventAxis(axis, e), 1) else counted
  }

  function FastTally(t: Tables, settings: Settings, start: int, end: int, sel: Selection, axis: Axis): seq<Cell> {
    var first := RawStart(settings, t.now);
    var historical, raw := HistoricalPart(first, start, end), RawPart(first, start, end);
    var cells :=
      if historical.Some? then TallyRows(t.rows, historical.value.lo, historical.value.hi, sel, axis) else [];
    if raw.Some? then TallyEvents(cells, t.raw, raw.value.lo, raw.value.hi, sel, axis) else cells
  }

  // ---- overview ----

  datatype Figure = Figure(name: Token, count: int, visitors: Option<nat>)
  datatype Overview = Overview(total: nat, visitors: Option<nat>, figures: seq<Figure>)

  function Everything(org: Token, source: Token): Selection { Selection(org, source, All, {}, None, None) }
  function AnyEvent(org: Token, source: Token): Selection { Selection(org, source, PerEvent, {}, None, None) }
  function Named(org: Token, source: Token, name: Token): Selection {
    Selection(org, source, PerEvent, {name}, None, None)
  }

  function FiguresOf(t: Tables, settings: Settings, registered: seq<Token>, org: Token, start: int, end: int,
                     source: Token): seq<Figure> {
    var first := RawStart(settings, t.now);
    var available := VisitorsAvailable(HistoricalPart(first, start, end), RawPart(first, start, end));
    seq(|registered|, i requires 0 <= i < |registered| =>
      Figure(registered[i], At(FastTally(t, settings, start, end, AnyEvent(org, source), ByName), registered[i]),
             if available then Some(FastVisitors(t, settings, start, end,
                                                 Named(org, source, registered[i]))) else None))
  }

  function OverviewOf(t: Tables, settings: Settings, registered: seq<Token>, org: Token, start: int, end: int,
                      source: Token): Overview {
    var first := RawStart(settings, t.now);
    var available := VisitorsAvailable(HistoricalPart(first, start, end), RawPart(first, start, end));
    Overview(FastCount(t, settings, start, end, Everything(org, source)),
             if available then Some(FastVisitors(t, settings, start, end, Everything(org, source))) else None,
             FiguresOf(t, settings, registered, org, start, end, source))
  }

  // ---- trend ----

  datatype Point = Point(day: int, name: Token, count: nat, visitors: nat)

  /** One point for each selected name on one day. */
  function PointsOn(t: Tables, settings: Settings, org: Token, day: int, source: Token, names: seq<Token>): seq<Point> {
    seq(|names|, i requires 0 <= i < |names| =>
      Point(day, names[i], FastCount(t, settings, day, day, Named(org, source, names[i])),
            FastVisitors(t, settings, day, day, Named(org, source, names[i]))))
  }

  function TrendOf(t: Tables, settings: Settings, org: Token, start: int, end: int, source: Token,
                   names: seq<Token>): seq<Point>
    decreases end - start
  {
    if start > end then []
    else TrendOf(t, settings, org, start, end - 1, source, names) + PointsOn(t, settings, org, end, source, names)
  }

  /** The trend of the asked events, or of all registered ones; refused when one is not registered. */
  function TrendAnswer(t: Tables, settings: Settings, registered: seq<Token>, org: Token, start: int, end: int,
                       source: Token,
                       names: seq<Token>): Option<seq<Point>> {
    var selected := if names == [] then registered else names;
    if exists n :: n in selected && n !in registered then None
    else Some(TrendOf(t, settings, org, start, end, source, selected))
  }

  // ---- ranking of targets ----

  datatype Item = Item(target: Token, total: int, metrics: seq<Cell>, visitors: Option<nat>)
  datatype Page = Page(items: seq<Item>, total: nat, page: int, pageSize: int)

  /** Totals come from the target scope, or from the target-and-event scope when events are filtered. */
  function Totals(org: Token, source: Token, kind: Token, names: set<Token>): Selection {
    Selection(org, source, if names == {} then PerTarget else PerTargetEvent, names, Some(kind), None)
  }

  /** A target's figures by event always come from the target-and-event scope. */
  function ByEvent(org: Token, source: Token, kind: Token, names: set<Token>, target: Token): Selection {
    Selection(org, source, PerTargetEvent, names, Some(kind), Some(target))
  }

  function RankKeys(cells: seq<Cell>): seq<Key> {
    seq(|cells|, i requires 0 <= i < |cells| => Key(-cells[i].n, cells[i].key, 0))
  }

  /** The cells from the largest total down, ties by identifier. */
  function RankedCells(cells: seq<Cell>): (ranked: seq<Cell>)
    ensures |ranked| == |cells|
  {
    var order := Order(RankKeys(cells));
    seq(|order|, i requires 0 <= i < |order| => cells[order[i]])
  }

  function Slice<T>(all: seq<T>, page: int, size: int): seq<T>
    requires page >= 1 && size >= 1
  {
    var from := (page - 1) * size;
    if from >= |all| then [] else if from + size >= |all| then all[from..] else all[from..from + size]
  }

  predicate TargetVisitorsAvailable(historical: Option<Span>, raw: Option<Span>, names: set<Token>) {
    VisitorsAvailable(historical, raw) && (historical.None? || names == {} || |names| == 1)
  }

  function ItemOf(t: Tables, settings: Settings, org: Token, start: int, end: int, kind: Token, source: Token,
                  names: set<Token>, cell: Cell): Item {
    var first := RawStart(settings, t.now);
    Item(cell.key, cell.n,
         FastTally(t, settings, start, end, ByEvent(org, source, kind, names, cell.key), ByName),
         if TargetVisitorsAvailable(HistoricalPart(first, start, end), RawPart(first, start, end), names)
         then Some(FastVisitors(t, settings, start, end, Totals(org, source, kind, names).(target := Some(cell.key))))
         else None)
  }

  function RankingOf(t: Tables, settings: Settings, org: Token, start: int, end: int, kind: Token, source: Token,
                     names: set<Token>): seq<Cell> {
    RankedCells(FastTally(t, settings, start, end, Totals(org, source, kind, names), ByTarget))
  }

  function PageOf(t: Tables, settings: Settings, org: Token, start: int, end: int, kind: Token, source: Token,
                  names: set<Token>, page: int, pageSize: int): Page {
    var p, size := (if page > 1 then page else 1), (if pageSize > 1 then pageSize else 1);
    var ranking := RankingOf(t, settings, org, start, end, kind, source, names);
    var cells := Slice(ranking, p, size);
    Page(seq(|cells|, i requires 0 <= i < |cells| => ItemOf(t, settings, org, start, end, kind, source, names,
                                                            cells[i])),
         |ranking|, p, size)
  }

  /** The page, refused for a target type that is not registered. */
  function TargetAnswer(t: Tables, settings: Settings, kinds: set<Token>, org: Token, start: int, end: int, kind: Token,
                        source: Token,
                        names: set<Token>, page: int, pageSize: int): Option<Page> {
    if kind !in kinds then None else Some(PageOf(t, settings, org, start, end, kind, source, names, page, pageSize))
  }
}
