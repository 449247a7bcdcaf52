/** Rollups that overlap: each lists its due days once, and purges them later one by one, whatever is left of them. */
module RollupOverlap {
  import opened Events
  import opened Rollup
  import opened RollupProofs

  /** The tables, the days every rollup has still to purge, and for the specification the purges so far. */
  datatype Shift = Shift(t: Tables, todo: map<nat, seq<int>>, purged: seq<int>)

  datatype Move = Take(input: Input) | Pass(seconds: nat) | ListDue(task: nat) | PurgeNext(task: nat)

  function Todo(s: Shift, task: nat): seq<int> {
    if task in s.todo then s.todo[task] else []
  }

  function Next(s: Shift, settings: Settings, move: Move): Shift {
    match move
    case Take(input) => s.(t := RecordStep(s.t, settings, input))
    case Pass(seconds) => s.(t := s.t.(now := s.t.now + seconds))
    case ListDue(task) =>
      if Todo(s, task) != [] then s else s.(todo := s.todo[task := DueDays(s.t.raw, RawStart(settings, s.t.now))])
    case PurgeNext(task) =>
      if Todo(s, task) == [] then s
      else
        var day := s.todo[task][0];
        Shift(PurgeDay(s.t, day), s.todo[task := s.todo[task][1..]], s.purged + [day])
  }

  function Play(s: Shift, settings: Settings, moves: seq<Move>): Shift {
    if moves == [] then s else Next(Play(s, settings, moves[..|moves| - 1]), settings, moves[|moves| - 1])
  }

  function Opening(now: int): Shift { Shift(Start(now), map[], []) }

  // ---- what a day looks like after so many purges ----

  /** Untouched, rolled up, or lost. */
  predicate DayAfter(t: Tables, day: int, purges: nat) {
    if purges == 0 then OnDay(t.raw, day) == OnDay(t.log, day) && Dated(t.rows, day) == []
    else
      && OnDay(t.raw, day) == [] && OnDay(t.log, day) != []
      && Dated(t.rows, day) == if purges == 1 then DailyRows(OnDay(t.log, day), day) else []
  }

  /** These days are before the raw range and had events. */
  predicate AllPast(t: Tables, settings: Settings, days: seq<int>) {
    forall day :: day in days ==> day < RawStart(settings, t.now) && OnDay(t.log, day) != []
  }

  ghost predicate DaysCounted(t: Tables, purged: seq<int>) {
    forall day :: DayAfter(t, day, multiset(purged)[day])
  }

  ghost predicate Accounted(s: Shift, settings: Settings) {
    && DaysCounted(s.t, s.purged) && AllPast(s.t, settings, s.purged)
    && forall task :: task in s.todo ==> AllPast(s.t, settings, s.todo[task])
  }

  lemma PastStays(t: Tables, next: Tables, settings: Settings, days: seq<int>, some: seq<int>)
    requires AllPast(t, settings, days) && (forall day :: day in some ==> day in days)
    requires next.now == t.now && (next.log == t.log || exists e :: next.log == t.log + [e])
    ensures AllPast(next, settings, some)
  {
    if next.log != t.log {
      var e :| next.log == t.log + [e];
      forall day | day in some ensures OnDay(next.log, day) != [] { OnDaySnoc(t.log, e, day); }
    }
  }

  lemma TakeCounted(t: Tables, settings: Settings, input: Input, purged: seq<int>)
    requires DaysCounted(t, purged) && AllPast(t, settings, purged) && AgeWithinRetention(settings)
    ensures DaysCounted(RecordStep(t, settings, input), purged)
  {
    if Record(t.raw, settings, input, t.now).Created? {
      var e, next := EventOf(input, t.now), RecordStep(t, settings, input);
      OldestAccepted(t.now, settings.maxAgeDays, e.occurredAt);
      assert DayOf(e.occurredAt) !in purged;
      forall day ensures DayAfter(next, day, multiset(purged)[day]) {
        assert DayAfter(t, day, multiset(purged)[day]);
        OnDaySnoc(t.raw, e, day);
        OnDaySnoc(t.log, e, day);
      }
    }
  }

  lemma TakeAccounted(s: Shift, settings: Settings, input: Input)
    requires Accounted(s, settings) && AgeWithinRetention(settings)
    ensures Accounted(Next(s, settings, Take(input)), settings)
  {
    TakeCounted(s.t, settings, input, s.purged);
    var next := RecordStep(s.t, settings, input);
    PastStays(s.t, next, settings, s.purged, s.purged);
    forall task | task in s.todo ensures AllPast(next, settings, s.todo[task]) {
      PastStays(s.t, next, settings, s.todo[task], s.todo[task]);
    }
  }

  lemma DueDaysHaveEvents(raw: seq<Event>, first: int)
    ensures forall day :: day in DueDays(raw, first) ==> day < first && OnDay(raw, day) != []
  {
    DueDaysCover(raw, first);
  }

  lemma DueArePast(t: Tables, settings: Settings, purged: seq<int>)
    requires DaysCounted(t, purged)
    ensures AllPast(t, settings, DueDays(t.raw, RawStart(settings, t.now)))
    ensures forall day :: day in DueDays(t.raw, RawStart(settings, t.now)) ==> day !in purged
  {
    DueDaysHaveEvents(t.raw, RawStart(settings, t.now));
    forall day | day in DueDays(t.raw, RawStart(settings, t.now)) ensures OnDay(t.log, day) != [] && day !in purged {
      assert DayAfter(t, day, multiset(purged)[day]);
    }
  }

  lemma PurgeCounted(t: Tables, purged: seq<int>, day: int)
    requires DaysCounted(t, purged) && OnDay(t.log, day) != []
    ensures DaysCounted(PurgeDay(t, day), purged + [day])
  {
    forall other ensures DayAfter(PurgeDay(t, day), other, multiset(purged + [day])[other]) {
      assert DayAfter(t, other, multiset(purged)[other]);
      PurgedDay(t, day, other);
      DailyRowsShape(OnDay(t.raw, day), day, day);
      assert multiset(purged + [day]) == multiset(purged) + multiset{day};
    }
  }

  lemma PurgeAccounted(s: Shift, settings: Settings, task: nat)
    requires Accounted(s, settings)
    ensures Accounted(Next(s, settings, PurgeNext(task)), settings)
  {
    if Todo(s, task) != [] {
      var days, next := s.todo[task], PurgeDay(s.t, s.todo[task][0]);
      assert days == [days[0]] + days[1..] && days[0] in days;
      PurgeCounted(s.t, s.purged, days[0]);
      PastStays(s.t, next, settings, s.purged, s.purged);
      PastStays(s.t, next, settings, days, days[1..]);
      PastStays(s.t, next, settings, days, [days[0]]);
      forall other | other in s.todo ensures AllPast(next, settings, s.todo[other]) {
        PastStays(s.t, next, settings, s.todo[other], s.todo[other]);
      }
    }
  }

  lemma NextAccounted(s: Shift, settings: Settings, move: Move)
    requires Accounted(s, settings) && AgeWithinRetention(settings)
    ensures Accounted(Next(s, settings, move), settings)
  {
    match move
    case Take(input) => TakeAccounted(s, settings, input);
    case Pass(seconds) =>
      DayMonotone(s.t.now, s.t.now + seconds);
      forall day ensures DayAfter(Next(s, settings, move).t, day, multiset(s.purged)[day]) {
        assert DayAfter(s.t, day, multiset(s.purged)[day]);
      }
    case ListDue(task) => DueArePast(s.t, settings, s.purged);
    case PurgeNext(task) => PurgeAccounted(s, settings, task);
  }

  lemma {:induction false} PlayAccounted(now: int, settings: Settings, moves: seq<Move>)
    requires AgeWithinRetention(settings)
    ensures Accounted(Play(Opening(now), settings, moves), settings)
  {
    if moves == [] {
      forall day ensures DayAfter(Start(now), day, multiset(Opening(now).purged)[day]) { }
    } else {
      PlayAccounted(now, settings, moves[..|moves| - 1]);
      NextAccounted(Play(Opening(now), settings, moves[..|moves| - 1]), settings, moves[|moves| - 1]);
    }
  }

  // ---- which overlaps lose a day ----

  predicate NoDayTwice(days: seq<int>) {
    forall i, j :: 0 <= i < j < |days| ==> days[i] != days[j]
  }

  lemma {:induction false} CountOnce(days: seq<int>, day: int)
    ensures NoDayTwice(days) ==> multiset(days)[day] <= 1
    ensures !NoDayTwice(days) ==> exists twice :: multiset(days)[twice] >= 2
  {
    if days != [] {
      var front, last := days[..|days| - 1], days[|days| - 1];
      assert days == front + [last];
      CountOnce(front, day);
      if NoDayTwice(days) {
        assert last !in front;
      } else if NoDayTwice(front) {
        var i, j :| 0 <= i < j < |days| && days[i] == days[j];
        assert j == |days| - 1 && front[i] == last;
        assert multiset(days)[last] >= 2;
      } else {
        var twice :| multiset(front)[twice] >= 2;
        assert multiset(days)[twice] >= 2;
      }
    }
  }

  /** Over every run of overlapping rollups, every day's record is kept exactly when no day was purged twice. */
  lemma OverlapsKeepDaysExactly(now: int, settings: Settings, moves: seq<Move>)
    requires AgeWithinRetention(settings)
    ensures var s := Play(Opening(now), settings, moves);
            Kept(s.t) <==> NoDayTwice(s.purged)
  {
    PlayAccounted(now, settings, moves);
    var s := Play(Opening(now), settings, moves);
    if NoDayTwice(s.purged) {
      forall day ensures DayKept(s.t, day) {
        CountOnce(s.purged, day);
        assert DayAfter(s.t, day, multiset(s.purged)[day]);
      }
    } else {
      CountOnce(s.purged, 0);
      var twice :| multiset(s.purged)[twice] >= 2;
      assert DayAfter(s.t, twice, multiset(s.purged)[twice]);
      DailyRowsShape(OnDay(s.t.log, twice), twice, twice);
      assert !DayKept(s.t, twice);
    }
  }

  lemma {:induction false} PurgedGrows(s: Shift, settings: Settings, moves: seq<Move>)
    ensures s.purged <= Play(s, settings, moves).purged
  {
    if moves != [] { PurgedGrows(s, settings, moves[..|moves| - 1]); }
  }

  // ---- rollups one after another ----

  predicate Idle(s: Shift) {
    forall task :: task in s.todo ==> s.todo[task] == []
  }

  /** No rollup lists its days while another is at work. */
  predicate OneAtATime(s: Shift, settings: Settings, moves: seq<Move>) {
    moves != [] ==>
      var front := moves[..|moves| - 1];
      OneAtATime(s, settings, front) && (moves[|moves| - 1].ListDue? ==> Idle(Play(s, settings, front)))
  }

  /** At most one rollup has days left, each once and none purged before. */
  predicate Orderly(s: Shift) {
    && NoDayTwice(s.purged)
    && (forall a, b :: a in s.todo && b in s.todo && s.todo[a] != [] && s.todo[b] != [] ==> a == b)
    && (forall task :: task in s.todo ==>
          NoDayTwice(s.todo[task]) && forall day :: day in s.todo[task] ==> day !in s.purged)
  }

  lemma ListOrderly(s: Shift, settings: Settings, task: nat)
    requires Accounted(s, settings) && Orderly(s) && Idle(s)
    ensures Orderly(Next(s, settings, ListDue(task)))
  {
    DueDaysCover(s.t.raw, RawStart(settings, s.t.now));
    DueArePast(s.t, settings, s.purged);
  }

  lemma PurgeOrderly(s: Shift, settings: Settings, task: nat)
    requires Orderly(s)
    ensures Orderly(Next(s, settings, PurgeNext(task)))
  {
    if Todo(s, task) != [] {
      var days := s.todo[task];
      assert days[0] in days && days == [days[0]] + days[1..];
      assert forall day :: day in days[1..] ==> day in days && day != days[0];
    }
  }

  /** Rollups that do not overlap keep every day's record. */
  lemma {:induction false} RollupsInTurnKeepDays(now: int, settings: Settings, moves: seq<Move>)
    requires AgeWithinRetention(settings) && OneAtATime(Opening(now), settings, moves)
    ensures Orderly(Play(Opening(now), settings, moves)) && Kept(Play(Opening(now), settings, moves).t)
  {
    if moves != [] {
      var front := moves[..|moves| - 1];
      RollupsInTurnKeepDays(now, settings, front);
      PlayAccounted(now, settings, front);
      var s := Play(Opening(now), settings, front);
      match moves[|moves| - 1]
      case ListDue(task) => ListOrderly(s, settings, task);
      case PurgeNext(task) => PurgeOrderly(s, settings, task);
      case _ =>
    }
    OverlapsKeepDaysExactly(now, settings, moves);
  }

  // ---- two that overlap ----

  /** Two rollups that both find the same day first: the second purge loses it for good. */
  lemma OverlapLosesTheDay(now: int, settings: Settings, moves: seq<Move>, a: nat, b: nat, rest: seq<Move>)
    requires AgeWithinRetention(settings) && a != b
    requires var s := Play(Opening(now), settings, moves);
             Idle(s) && DueDays(s.t.raw, RawStart(settings, s.t.now)) != []
    ensures var both := moves + [ListDue(a), ListDue(b), PurgeNext(a), PurgeNext(b)];
            !Kept(Play(Opening(now), settings, both + rest).t)
  {
    var s := Play(Opening(now), settings, moves);
    var both := moves + [ListDue(a), ListDue(b), PurgeNext(a), PurgeNext(b)];
    var day := DueDays(s.t.raw, RawStart(settings, s.t.now))[0];
    PlayOn(Opening(now), settings, moves, [ListDue(a), ListDue(b), PurgeNext(a), PurgeNext(b)]);
    FourMoves(s, settings, a, b);
    var later := Play(Opening(now), settings, both);
    assert later.purged == s.purged + [day, day];
    assert later.purged[|s.purged|] == day && later.purged[|s.purged| + 1] == day;
    PlayOn(Opening(now), settings, both, rest);
    PurgedGrows(later, settings, rest);
    var end := Play(Opening(now), settings, both + rest);
    assert end.purged[|s.purged|] == day && end.purged[|s.purged| + 1] == day;
    OverlapsKeepDaysExactly(now, settings, both + rest);
  }

  lemma {:induction false} PlayOn(s: Shift, settings: Settings, first: seq<Move>, later: seq<Move>)
    ensures Play(s, settings, first + later) == Play(Play(s, settings, first), settings, later)
  {
    if later == [] {
      assert first + later == first;
    } else {
      assert (first + later)[..|first + later| - 1] == first + later[..|later| - 1];
      PlayOn(s, settings, first, later[..|later| - 1]);
    }
  }

  lemma FourMoves(s: Shift, settings: Settings, a: nat, b: nat)
    requires a != b && Idle(s) && DueDays(s.t.raw, RawStart(settings, s.t.now)) != []
    ensures var day := DueDays(s.t.raw, RawStart(settings, s.t.now))[0];
            Play(s, settings, [ListDue(a), ListDue(b), PurgeNext(a), PurgeNext(b)]).purged == s.purged + [day, day]
  {
    var one, two := [ListDue(a)], [ListDue(a), ListDue(b)];
    var three := [ListDue(a), ListDue(b), PurgeNext(a)];
    PlayOne(s, settings, [], ListDue(a));
    PlayOne(s, settings, one, ListDue(b));
    PlayOne(s, settings, two, PurgeNext(a));
    PlayOne(s, settings, three, PurgeNext(b));
    assert [] + [ListDue(a)] == one && one + [ListDue(b)] == two && two + [PurgeNext(a)] == three;
    assert three + [PurgeNext(b)] == [ListDue(a), ListDue(b), PurgeNext(a), PurgeNext(b)];
  }

  lemma PlayOne(s: Shift, settings: Settings, moves: seq<Move>, move: Move)
    ensures Play(s, settings, moves + [move]) == Next(Play(s, settings, moves), settings, move)
  {
    assert (moves + [move])[..|moves|] == moves;
  }
}
