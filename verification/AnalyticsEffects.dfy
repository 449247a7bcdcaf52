/**
 What recording and rolling up do to the tables, field by field, and what the
 reference counts mean: said through events and rows themselves, with the
 constants written out.
 */
module AnalyticsEffects {
  import opened Wrappers
  import opened Events
  import opened Rollup
  import opened RollupProofs
  import opened Queries
  import opened QueryProofs

  // ---- recording ----

  /** The submission passes every check of the recording. */
  predicate Passes(settings: Settings, input: Input, now: int) {
    && 1 <= input.source <= 5 && input.name in settings.definitions && input.target.Some?
    && input.target.value.kind in settings.definitions[input.name].targetTypes
    && (input.client ==> settings.definitions[input.name].clientCollectible)
    && (input.public ==> settings.definitions[input.name].allowAnonymous && input.source <= 3 && input.identified)
    && (input.org == None || input.org == Some(input.target.value.org))
    && match input.occurredAt
       case None => true
       case Some(at) => at <= now + 300 && now - at <= settings.maxAgeDays * 86400
  }

  /** The event a submission stands for: everything as given, the organization of its target, the time or now. */
  predicate StandsFor(e: Event, input: Input, now: int) {
    && input.target.Some? && e.org == input.target.value.org
    && e.targetType == input.target.value.kind && e.target == input.target.value.id
    && e.name == input.name && e.source == input.source
    && e.visitor == input.visitor && e.idempotencyKey == input.idempotencyKey
    && e.receivedAt == now && (input.occurredAt.Some? ==> e.occurredAt == input.occurredAt.value)
    && (input.occurredAt.None? ==> e.occurredAt == now)
  }

  /** A stored event of the same organization, source and key. */
  predicate SameKey(r: Event, input: Input) {
    && input.target.Some? && input.idempotencyKey != 0
    && r.org == input.target.value.org && r.source == input.source && r.idempotencyKey == input.idempotencyKey
  }

  /** A stored event of the same visitor doing the same to the same target, received within the window. */
  predicate SameDoing(r: Event, settings: Settings, input: Input, now: int) {
    && input.target.Some? && input.name in settings.definitions && input.visitor != 0
    && settings.definitions[input.name].deduplicateSeconds > 0
    && r.org == input.target.value.org && r.name == input.name && r.source == input.source
    && r.targetType == input.target.value.kind && r.target == input.target.value.id && r.visitor == input.visitor
    && now - r.receivedAt <= settings.definitions[input.name].deduplicateSeconds
  }

  predicate NoKey(raw: seq<Event>, input: Input) {
    forall r :: r in raw ==> !SameKey(r, input)
  }

  predicate LastKey(raw: seq<Event>, input: Input, i: nat) {
    && i < |raw| && SameKey(raw[i], input) && forall j :: i < j < |raw| ==> !SameKey(raw[j], input)
  }

  predicate LastDoing(raw: seq<Event>, settings: Settings, input: Input, now: int, i: nat) {
    && i < |raw| && SameDoing(raw[i], settings, input, now)
    && forall j :: i < j < |raw| ==> !SameDoing(raw[j], settings, input, now)
  }

  lemma {:induction false} RepeatIsLast(raw: seq<Event>, input: Input, e: Event, i: nat)
    requires StandsFor(e, input, e.receivedAt) && LastKey(raw, input, i)
    ensures Repeat(raw, e) == Some(raw[i])
  {
    var n := |raw| - 1;
    if i < n {
      assert !SameKey(raw[n], input);
      assert LastKey(raw[..n], input, i);
      RepeatIsLast(raw[..n], input, e, i);
    }
  }

  lemma {:induction false} DoingIsLast(raw: seq<Event>, settings: Settings, input: Input, now: int, e: Event, i: nat)
    requires StandsFor(e, input, now) && LastDoing(raw, settings, input, now, i)
    ensures RecentAct(raw, e, settings.definitions[input.name].deduplicateSeconds) == Some(raw[i])
  {
    var n := |raw| - 1;
    if i < n {
      assert !SameDoing(raw[n], settings, input, now);
      assert LastDoing(raw[..n], settings, input, now, i);
      DoingIsLast(raw[..n], settings, input, now, e, i);
    }
  }

  /**
   A submission is rejected exactly when a check fails. Otherwise it is answered by
   the last stored event with its key, else by the last one that repeats it within
   the window, and only when there is neither is the event it stands for stored.
   */
  lemma RecordingExact(raw: seq<Event>, settings: Settings, input: Input, now: int)
    ensures var recorded := Record(raw, settings, input, now);
            && (recorded.Rejected? <==> !Passes(settings, input, now))
            && (Passes(settings, input, now) ==>
                  && (forall i: nat :: LastKey(raw, input, i) ==> recorded == Existing(raw[i]))
                  && (forall i: nat :: LastDoing(raw, settings, input, now, i) && NoKey(raw, input) ==>
                        recorded == Existing(raw[i]))
                  && (recorded.Created? <==>
                        forall r :: r in raw ==> !SameKey(r, input) && !SameDoing(r, settings, input, now)))
            && (recorded.Created? ==> StandsFor(recorded.event, input, now))
  {
    assert Acceptable(settings, input, now) <==> Passes(settings, input, now);
    if Passes(settings, input, now) {
      var e := EventOf(input, now);
      var window := settings.definitions[input.name].deduplicateSeconds;
      RepeatMeans(raw, e);
      RecentActMeans(raw, e, window);
      assert forall r :: input.idempotencyKey != 0 ==> (SameRequest(r, e) <==> SameKey(r, input));
      forall i: nat | LastKey(raw, input, i) ensures Repeat(raw, e) == Some(raw[i]) {
        RepeatIsLast(raw, input, e, i);
      }
      forall i: nat | LastDoing(raw, settings, input, now, i) ensures RecentAct(raw, e, window) == Some(raw[i]) {
        DoingIsLast(raw, settings, input, now, e, i);
      }
    }
  }

  /** A stored event is the last of the raw events and of the log; any other submission changes nothing. */
  lemma RecordingStores(t: Tables, settings: Settings, input: Input)
    ensures var recorded, next := Record(t.raw, settings, input, t.now), After(t, settings, DoRecord(input));
            if recorded.Created?
            then && next.raw == t.raw + [recorded.event] && next.log == t.log + [recorded.event]
                 && next.rows == t.rows && next.now == t.now
            else next == t
  {
  }

  lemma StepSources(t: Tables, settings: Settings, step: Step)
    requires SourcesKnown(t.log) && SourcesKnown(t.raw)
    ensures SourcesKnown(After(t, settings, step).log) && SourcesKnown(After(t, settings, step).raw)
  {
    match step {
      case DoRecord(input) => RecordingExact(t.raw, settings, input, t.now);
      case Wait(_) =>
      case DoPurge(day) => RawAfterPurge(t.raw, day);
    }
  }

  lemma RawAfterPurge(raw: seq<Event>, day: int)
    ensures forall e :: e in NotOnDay(raw, day) ==> e in raw
  {
    DaySplit(raw, day);
    assert forall e :: e in NotOnDay(raw, day) ==> e in multiset(raw);
  }

  /** Every event that any run stores has a source of its own, which is not the one that stands for all. */
  lemma {:induction false} SourcesAreKnown(now: int, settings: Settings, steps: seq<Step>)
    ensures SourcesKnown(Run(Start(now), settings, steps).log) && SourcesKnown(Run(Start(now), settings, steps).raw)
  {
    if steps != [] {
      SourcesAreKnown(now, settings, steps[..|steps| - 1]);
      StepSources(Run(Start(now), settings, steps[..|steps| - 1]), settings, steps[|steps| - 1]);
    }
  }

  predicate SourcesKnown(events: seq<Event>) {
    forall e :: e in events ==> e.source != 0
  }

  // ---- days ----

  /** A day is 86400 seconds, numbered from time 0. */
  lemma DayExact(at: int, day: int)
    ensures DayOf(at) == day <==> 86400 * day <= at < 86400 * day + 86400
  {
  }

  /** Raw events are kept for today and as many earlier days as the retention says, at least for today. */
  lemma RawStartExact(settings: Settings, now: int)
    ensures RawStart(settings, now) <= DayOf(now)
    ensures settings.retentionDays >= 1 ==> DayOf(now) - RawStart(settings, now) + 1 == settings.retentionDays
    ensures settings.retentionDays < 1 ==> RawStart(settings, now) == DayOf(now)
  {
  }

  // ---- purging ----

  /** Of a day and without it: both keep their events as often as they are there, in order. */
  lemma {:induction false} DaySplit(events: seq<Event>, day: int)
    ensures var (on, off) := (OnDay(events, day), NotOnDay(events, day));
            && multiset(on) + multiset(off) == multiset(events)
            && (forall e :: e in on ==> 86400 * day <= e.occurredAt < 86400 * day + 86400)
            && (forall e :: e in off ==> !(86400 * day <= e.occurredAt < 86400 * day + 86400))
  {
    if events != [] {
      DaySplit(events[..|events| - 1], day);
      assert events == events[..|events| - 1] + [events[|events| - 1]];
    }
  }

  lemma {:induction false} RowSplit(rows: seq<Metric>, day: int)
    ensures var (on, off) := (Dated(rows, day), NotDated(rows, day));
            && multiset(on) + multiset(off) == multiset(rows)
            && (forall m :: m in on ==> m.date == day) && (forall m :: m in off ==> m.date != day)
  {
    if rows != [] {
      var (front, last) := (rows[..|rows| - 1], rows[|rows| - 1]);
      RowSplit(front, day);
      assert rows == front + [last];
      assert multiset(rows) == multiset(front) + multiset{last};
    }
  }

  /** What a purge leaves: the raw events of other days, and their rows with new ones for this day. */
  lemma PurgeExact(t: Tables, day: int)
    ensures var next := PurgeDay(t, day);
            && next.log == t.log && next.now == t.now
            && multiset(next.raw) + multiset(OnDay(t.raw, day)) == multiset(t.raw)
            && (forall e :: e in next.raw ==> !(86400 * day <= e.occurredAt < 86400 * day + 86400))
            && (forall other :: other != day ==> OnDay(next.raw, other) == OnDay(t.raw, other))
            && Dated(next.rows, day) == DailyRows(OnDay(t.raw, day), day)
            && (forall other :: other != day ==> Dated(next.rows, other) == Dated(t.rows, other))
  {
    DaySplit(t.raw, day);
    forall other
      ensures other != day ==> OnDay(PurgeDay(t, day).raw, other) == OnDay(t.raw, other)
      ensures Dated(PurgeDay(t, day).rows, other)
              == if other == day then DailyRows(OnDay(t.raw, day), day) else Dated(t.rows, other)
    {
      PurgedDay(t, day, other);
    }
  }

  lemma {:induction false} OnDayHas(events: seq<Event>, day: int)
    ensures OnDay(events, day) != [] <==> exists e :: e in events && 86400 * day <= e.occurredAt < 86400 * day + 86400
  {
    if events != [] {
      OnDayHas(events[..|events| - 1], day);
      assert events == events[..|events| - 1] + [events[|events| - 1]];
    }
  }

  /** Time passes; and a day is purged exactly when it is before the days kept and has a raw event. */
  lemma StepExact(t: Tables, settings: Settings, seconds: nat, day: int)
    ensures After(t, settings, Wait(seconds)) == Tables(t.raw, t.rows, t.now + seconds, t.log)
    ensures After(t, settings, DoPurge(day))
         == if && day < RawStart(settings, t.now)
               && exists e :: e in t.raw && 86400 * day <= e.occurredAt < 86400 * day + 86400
            then PurgeDay(t, day) else t
  {
    OnDayHas(t.raw, day);
  }

  // ---- the rows of a day ----

  /** The key groups the event: by organization, by source or over all, and by what its scope says. */
  predicate Groups(key: MetricKey, e: Event) {
    && key.org == e.org && (key.source == 0 || key.source == e.source)
    && match key.scope
       case All => key.name == 0 && key.targetType == 0 && key.target == 0
       case PerEvent => key.name == e.name && key.targetType == 0 && key.target == 0
       case PerTarget => key.name == 0 && key.targetType == e.targetType && key.target == e.target
       case PerTargetEvent => key.name == e.name && key.targetType == e.targetType && key.target == e.target
  }

  /** The row counts the events of its key and their known visitors. */
  predicate Counts(m: Metric, events: seq<Event>, day: int) {
    && m.date == day && m.count == |set i: nat | i < |events| && Groups(m.key, events[i])|
    && m.visitors == |set e | e in events && Groups(m.key, e) && e.visitor != 0 :: e.visitor|
  }

  predicate KeyFor(key: MetricKey, g: Grouping) {
    key.scope == g.scope && (key.source == 0 <==> g.allSources)
  }

  lemma GroupsByKey(e: Event, g: Grouping, key: MetricKey)
    requires e.source != 0 && KeyFor(key, g)
    ensures Groups(key, e) <==> KeyOf(e, g) == key
  {
  }

  lemma {:induction false} GroupCountIs(events: seq<Event>, g: Grouping, key: MetricKey)
    requires SourcesKnown(events) && KeyFor(key, g)
    ensures GroupCount(events, g, key) == |set i: nat | i < |events| && Groups(key, events[i])|
  {
    if events != [] {
      var n := |events| - 1;
      assert events == events[..n] + [events[n]];
      GroupCountIs(events[..n], g, key);
      GroupsByKey(events[n], g, key);
      assert (set i: nat | i < |events| && Groups(key, events[i]))
          == (set i: nat | i < n && Groups(key, events[..n][i])) + (if Groups(key, events[n]) then {n} else {});
    }
  }

  lemma GroupVisitorsAre(events: seq<Event>, g: Grouping, key: MetricKey)
    requires SourcesKnown(events) && KeyFor(key, g)
    ensures GroupVisitors(events, g, key) == set e | e in events && Groups(key, e) && e.visitor != 0 :: e.visitor
  {
    assert forall e :: e in events ==> (Groups(key, e) <==> KeyOf(e, g) == key);
  }

  predicate HasRow(rows: seq<Metric>, key: MetricKey) {
    exists i :: 0 <= i < |rows| && rows[i].key == key
  }

  predicate KeysApart(rows: seq<Metric>) {
    forall i, j :: 0 <= i < j < |rows| ==> rows[i].key != rows[j].key
  }

  predicate AllCount(rows: seq<Metric>, events: seq<Event>, day: int) {
    forall i :: 0 <= i < |rows| ==> Counts(rows[i], events, day) && rows[i].count > 0
  }

  predicate OfGrouping(key: MetricKey, k: int) {
    0 <= k < |GROUPINGS| && KeyFor(key, GROUPINGS[k])
  }

  predicate OfSome(key: MetricKey, n: nat) {
    exists k :: 0 <= k < n && OfGrouping(key, k)
  }

  /** The rows belong to the first n groupings. */
  predicate OfGroupings(rows: seq<Metric>, n: nat) {
    forall i :: 0 <= i < |rows| ==> OfSome(rows[i].key, n)
  }

  lemma KeyHas(events: seq<Event>, g: Grouping, key: MetricKey)
    requires SourcesKnown(events) && key in GroupKeys(events, g)
    ensures KeyFor(key, g) && exists i :: 0 <= i < |events| && Groups(key, events[i])
  {
    GroupKeysCover(events, g);
    var e :| e in events && KeyOf(e, g) == key;
    GroupsByKey(e, g, key);
    var i :| 0 <= i < |events| && events[i] == e;
  }

  lemma GroupRow(events: seq<Event>, day: int, g: Grouping, key: MetricKey, m: Metric)
    requires SourcesKnown(events) && key in GroupKeys(events, g)
    requires m == Metric(day, key, GroupCount(events, g, key), |GroupVisitors(events, g, key)|)
    ensures Counts(m, events, day) && m.count > 0 && KeyFor(key, g)
  {
    KeyHas(events, g, key);
    GroupCountIs(events, g, key);
    GroupVisitorsAre(events, g, key);
    var j: nat :| j < |events| && Groups(key, events[j]);
    var found := set i: nat | i < |events| && Groups(key, events[i]);
    assert j in found && m.count == |found|;
  }

  lemma GroupRows(events: seq<Event>, day: int, g: Grouping)
    requires SourcesKnown(events)
    ensures var rows := RowsFor(events, day, g, GroupKeys(events, g));
            && AllCount(rows, events, day) && KeysApart(rows)
            && (forall i :: 0 <= i < |rows| ==> KeyFor(rows[i].key, g))
            && (forall e :: e in events ==> HasRow(rows, KeyOf(e, g)))
  {
    GroupKeysCover(events, g);
    var keys := GroupKeys(events, g);
    var rows := RowsFor(events, day, g, keys);
    forall i | 0 <= i < |rows| ensures Counts(rows[i], events, day) && rows[i].count > 0 && KeyFor(rows[i].key, g) {
      GroupRow(events, day, g, keys[i], rows[i]);
    }
    forall e | e in events ensures HasRow(rows, KeyOf(e, g)) {
      assert KeyOf(e, g) in keys;
      var i :| 0 <= i < |keys| && keys[i] == KeyOf(e, g);
      assert rows[i].key == keys[i];
    }
  }

  lemma Joined(earlier: seq<Metric>, rows: seq<Metric>, n: nat)
    requires 0 < n <= |GROUPINGS| && OfGroupings(earlier, n - 1) && KeysApart(earlier) && KeysApart(rows)
    requires forall i :: 0 <= i < |rows| ==> KeyFor(rows[i].key, GROUPINGS[n - 1])
    ensures OfGroupings(earlier + rows, n) && KeysApart(earlier + rows)
  {
    var all := earlier + rows;
    forall i | 0 <= i < |all| ensures OfSome(all[i].key, n) {
      if i < |earlier| {
        assert OfSome(earlier[i].key, n - 1) && all[i] == earlier[i];
      } else {
        assert all[i] == rows[i - |earlier|] && OfGrouping(all[i].key, n - 1);
      }
    }
    forall i, j | 0 <= i < j < |all| ensures all[i].key != all[j].key {
      if i < |earlier| && j >= |earlier| {
        assert all[i] == earlier[i] && all[j] == rows[j - |earlier|] && OfSome(earlier[i].key, n - 1);
        var k :| 0 <= k < n - 1 && OfGrouping(earlier[i].key, k);
        assert GROUPINGS[k] != GROUPINGS[n - 1];
      }
    }
  }

  lemma HasRowJoined(earlier: seq<Metric>, rows: seq<Metric>, key: MetricKey)
    requires HasRow(earlier, key) || HasRow(rows, key)
    ensures HasRow(earlier + rows, key)
  {
    var all := earlier + rows;
    if HasRow(earlier, key) {
      var i :| 0 <= i < |earlier| && earlier[i].key == key;
      assert all[i].key == key;
    } else {
      var i :| 0 <= i < |rows| && rows[i].key == key;
      assert all[|earlier| + i].key == key;
    }
  }

  lemma {:induction false} GroupingsInTurn(events: seq<Event>, day: int, n: nat)
    requires SourcesKnown(events) && n <= |GROUPINGS|
    ensures var rows := RowsUpTo(events, day, n);
            AllCount(rows, events, day) && KeysApart(rows) && OfGroupings(rows, n)
  {
    if n > 0 {
      GroupingsInTurn(events, day, n - 1);
      GroupRows(events, day, GROUPINGS[n - 1]);
      var (earlier, rows) := (RowsUpTo(events, day, n - 1),
                              RowsFor(events, day, GROUPINGS[n - 1], GroupKeys(events, GROUPINGS[n - 1])));
      Joined(earlier, rows, n);
      CountsJoined(earlier, rows, events, day);
    }
  }

  lemma CountsJoined(earlier: seq<Metric>, rows: seq<Metric>, events: seq<Event>, day: int)
    requires AllCount(earlier, events, day) && AllCount(rows, events, day)
    ensures AllCount(earlier + rows, events, day)
  {
  }

  lemma {:induction false} RowForEach(events: seq<Event>, day: int, n: nat, e: Event, k: nat)
    requires SourcesKnown(events) && k < n <= |GROUPINGS| && e in events
    ensures HasRow(RowsUpTo(events, day, n), KeyOf(e, GROUPINGS[k]))
  {
    GroupRows(events, day, GROUPINGS[n - 1]);
    if k < n - 1 { RowForEach(events, day, n - 1, e, k); }
    HasRowJoined(RowsUpTo(events, day, n - 1),
                 RowsFor(events, day, GROUPINGS[n - 1], GroupKeys(events, GROUPINGS[n - 1])), KeyOf(e, GROUPINGS[k]));
  }

  /** Every scope, by source and over all sources, is among the groupings. */
  lemma GroupingPlace(scope: Scope, allSources: bool) returns (k: nat)
    ensures k < |GROUPINGS| && GROUPINGS[k] == Grouping(scope, allSources)
  {
    k := (match scope case All => 0 case PerEvent => 2 case PerTarget => 4 case PerTargetEvent => 6)
         + if allSources then 1 else 0;
  }

  /**
   The rows of a day: one for every key that groups one of its events and no
   other, and each with the number of these events and of their known visitors.
   */
  lemma DayRowsExact(events: seq<Event>, day: int, key: MetricKey)
    requires SourcesKnown(events)
    ensures var rows := DailyRows(events, day);
            && (forall i :: 0 <= i < |rows| ==> Counts(rows[i], events, day))
            && (forall i, j :: 0 <= i < j < |rows| ==> rows[i].key != rows[j].key)
            && (HasRow(rows, key) <==> exists e :: e in events && Groups(key, e))
  {
    GroupingsInTurn(events, day, |GROUPINGS|);
    var rows := DailyRows(events, day);
    if e :| e in events && Groups(key, e) {
      var k := GroupingPlace(key.scope, key.source == 0);
      GroupsByKey(e, GROUPINGS[k], key);
      RowForEach(events, day, |GROUPINGS|, e, k);
    }
    if i :| 0 <= i < |rows| && rows[i].key == key {
      RowHasEvent(rows[i], events, day);
    }
  }

  lemma RowHasEvent(m: Metric, events: seq<Event>, day: int)
    requires Counts(m, events, day) && m.count > 0
    ensures exists e :: e in events && Groups(m.key, e)
  {
    var i :| i in (set i: nat | i < |events| && Groups(m.key, events[i]));
    assert events[i] in events;
  }

  // ---- what the queries count ----

  /** What a selection asks of an event. */
  predicate Asked(sel: Selection, lo: int, hi: int, e: Event) {
    && 86400 * lo <= e.occurredAt < 86400 * hi + 86400 && e.org == sel.org
    && (sel.source != 0 ==> e.source == sel.source) && (sel.names != {} ==> e.name in sel.names)
    && (sel.targetType.Some? ==> e.targetType == sel.targetType.value)
    && (sel.target.Some? ==> e.target == sel.target.value)
  }

  function AskedIn(events: seq<Event>, sel: Selection, lo: int, hi: int): set<nat> {
    set i: nat | i < |events| && Asked(sel, lo, hi, events[i])
  }

  lemma AskedSnoc(events: seq<Event>, e: Event, sel: Selection, lo: int, hi: int)
    ensures |AskedIn(events + [e], sel, lo, hi)|
         == |AskedIn(events, sel, lo, hi)| + if Asked(sel, lo, hi, e) then 1 else 0
  {
    assert AskedIn(events + [e], sel, lo, hi)
        == AskedIn(events, sel, lo, hi) + if Asked(sel, lo, hi, e) then {|events|} else {};
  }

  lemma {:induction false} CountsAsked(events: seq<Event>, lo: int, hi: int, sel: Selection)
    ensures EventCount(events, lo, hi, sel) == |AskedIn(events, sel, lo, hi)|
  {
    if events != [] {
      var (front, last) := (events[..|events| - 1], events[|events| - 1]);
      assert events == front + [last];
      CountsAsked(front, lo, hi, sel);
      AskedSnoc(front, last, sel, lo, hi);
    }
  }

  /** The reference counts are the number of such events and of their known visitors. */
  lemma ReferenceCounts(events: seq<Event>, lo: int, hi: int, sel: Selection)
    ensures EventCount(events, lo, hi, sel) == |AskedIn(events, sel, lo, hi)|
    ensures Visitors(events, lo, hi, sel) == set e | e in events && Asked(sel, lo, hi, e) && e.visitor != 0 :: e.visitor
  {
    CountsAsked(events, lo, hi, sel);
    assert forall e :: SelectsEvent(sel, lo, hi, e) <==> Asked(sel, lo, hi, e);
  }
}
