/**
 Raw analytics events and the recording of one event. Names, sources and
 identifiers are tokens; 0 is the empty one.
 */
module Events {
  import opened Wrappers

  type Token = int
  const BLANK: Token := 0

  const DAY := 86400
  const CLOCK_SKEW := 300

  /** The registered sources, and those open to public collection. */
  const SOURCES: set<Token> := {1, 2, 3, 4, 5}
  const PUBLIC_SOURCES: set<Token> := {1, 2, 3}

  datatype Event = Event(
    org: Token, name: Token, targetType: Token, target: Token, source: Token,
    visitor: Token, idempotencyKey: Token, occurredAt: int, receivedAt: int)

  datatype Definition = Definition(targetTypes: set<Token>, clientCollectible: bool, allowAnonymous: bool,
                                   deduplicateSeconds: nat)

  datatype Settings = Settings(definitions: map<Token, Definition>, maxAgeDays: nat, retentionDays: int)

  /** What a lookup of the analysed object found. */
  datatype Target = Target(kind: Token, id: Token, org: Token)

  datatype Input = Input(
    name: Token, source: Token, client: bool, public: bool, identified: bool,
    target: Option<Target>, org: Option<Token>, visitor: Token, idempotencyKey: Token, occurredAt: Option<int>)

  datatype Recorded = Rejected | Existing(event: Event) | Created(event: Event)

  /** The natural day of a time. */
  function DayOf(at: int): int { at / DAY }

  predicate Acceptable(settings: Settings, input: Input, now: int) {
    && input.source in SOURCES
    && input.name in settings.definitions
    && var definition := settings.definitions[input.name];
    && (input.client ==> definition.clientCollectible)
    && (input.public ==> definition.allowAnonymous && input.source in PUBLIC_SOURCES && input.identified)
    && input.target.Some?
    && input.target.value.kind in definition.targetTypes
    && (input.org.Some? ==> input.org.value == input.target.value.org)
    && (input.occurredAt.Some? ==>
          now - settings.maxAgeDays * DAY <= input.occurredAt.value <= now + CLOCK_SKEW)
  }

  function EventOf(input: Input, now: int): Event
    requires input.target.Some?
  {
    Event(input.target.value.org, input.name, input.target.value.kind, input.target.value.id, input.source,
          input.visitor, input.idempotencyKey, if input.occurredAt.Some? then input.occurredAt.value else now, now)
  }

  predicate SameRequest(a: Event, b: Event) {
    a.org == b.org && a.source == b.source && a.idempotencyKey == b.idempotencyKey
  }

  predicate SameAct(a: Event, b: Event) {
    && a.org == b.org && a.name == b.name && a.targetType == b.targetType && a.target == b.target
    && a.source == b.source && a.visitor == b.visitor
  }

  /** The latest stored event that answers for e: the same request, or the same act within the window. */
  function Repeat(raw: seq<Event>, e: Event): Option<Event> {
    if raw == [] then None
    else if SameRequest(raw[|raw| - 1], e) then Some(raw[|raw| - 1])
    else Repeat(raw[..|raw| - 1], e)
  }

  function RecentAct(raw: seq<Event>, e: Event, window: nat): Option<Event> {
    if raw == [] then None
    else if SameAct(raw[|raw| - 1], e) && raw[|raw| - 1].receivedAt >= e.receivedAt - window then Some(raw[|raw| - 1])
    else RecentAct(raw[..|raw| - 1], e, window)
  }

  function Record(raw: seq<Event>, settings: Settings, input: Input, now: int): Recorded {
    if !Acceptable(settings, input, now) then Rejected
    else
      var e := EventOf(input, now);
      var window := settings.definitions[input.name].deduplicateSeconds;
      if e.idempotencyKey != BLANK && Repeat(raw, e).Some? then Existing(Repeat(raw, e).value)
      else if window > 0 && e.visitor != BLANK && RecentAct(raw, e, window).Some?
        then Existing(RecentAct(raw, e, window).value)
      else Created(e)
  }

  lemma {:induction false} RepeatMeans(raw: seq<Event>, e: Event)
    ensures Repeat(raw, e).Some? <==> exists r :: r in raw && SameRequest(r, e)
    ensures Repeat(raw, e).Some? ==> Repeat(raw, e).value in raw && SameRequest(Repeat(raw, e).value, e)
  {
    if raw != [] {
      RepeatMeans(raw[..|raw| - 1], e);
      assert raw == raw[..|raw| - 1] + [raw[|raw| - 1]];
    }
  }

  lemma {:induction false} RecentActMeans(raw: seq<Event>, e: Event, window: nat)
    ensures RecentAct(raw, e, window).Some? <==>
              exists r :: r in raw && SameAct(r, e) && r.receivedAt >= e.receivedAt - window
    ensures RecentAct(raw, e, window).Some? ==>
              RecentAct(raw, e, window).value in raw && SameAct(RecentAct(raw, e, window).value, e)
  {
    if raw != [] {
      RecentActMeans(raw[..|raw| - 1], e, window);
      assert raw == raw[..|raw| - 1] + [raw[|raw| - 1]];
    }
  }
}
