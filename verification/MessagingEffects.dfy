/**
 What each call on the conversations does, field by field: when it goes through,
 which error it ends in otherwise, and everything it leaves behind. Nothing here
 is said through the functions that compute it.
 */
module MessagingEffects {
  import opened Wrappers
  import opened Messaging
  import opened MessagingProofs
  import opened MessagingTheorems

  // ---- content ----

  /** White space by code point. */
  predicate Blank(ch: char) {
    var n := ch as int;
    || 9 <= n <= 13 || 28 <= n <= 32 || n == 133 || n == 160 || n == 5760 || 8192 <= n <= 8202
    || n == 8232 || n == 8233 || n == 8239 || n == 8287 || n == 12288
  }

  predicate AllBlank(s: string) {
    forall i :: 0 <= i < |s| ==> Blank(s[i])
  }

  /** Each CR LF read as one LF. */
  function Joined(s: string): string {
    if |s| < 2 then s
    else if s[0] as int == 13 && s[1] as int == 10 then [10 as char] + Joined(s[2..])
    else [s[0]] + Joined(s[1..])
  }

  /** Then every CR that is left read as LF. */
  function Swapped(s: string): string {
    seq(|s|, i requires 0 <= i < |s| => if s[i] as int == 13 then 10 as char else s[i])
  }

  /** A piece of a text that neither starts nor ends with a space. */
  predicate Trim(s: string) {
    s != [] && !Blank(s[0]) && !Blank(s[|s| - 1])
  }

  /** t is what stands between the outer spaces of s, with each CR LF or CR read as one LF. */
  predicate Content(s: string, t: string) {
    exists from: nat, to: nat ::
      from < to <= |s| && AllBlank(s[..from]) && Trim(s[from..to]) && AllBlank(s[to..])
      && t == Swapped(Joined(s[from..to]))
  }

  lemma BlankIsSpace(ch: char)
    ensures Blank(ch) <==> IsSpace(ch)
  {
  }

  lemma {:induction false} FeedsInTwo(s: string)
    ensures LineFeeds(s) == Swapped(Joined(s))
    decreases |s|
  {
    if |s| >= 2 && s[0] as int == 13 && s[1] as int == 10 {
      FeedsInTwo(s[2..]);
    } else if |s| >= 2 {
      FeedsInTwo(s[1..]);
    } else if |s| == 1 {
      assert LineFeeds(s[1..]) == [];
    }
  }

  lemma {:induction false} FeedsApart(a: string, b: string)
    requires a != [] && b != [] ==> !(a[|a| - 1] == '\r' && b[0] == '\n')
    ensures LineFeeds(a + b) == LineFeeds(a) + LineFeeds(b)
    decreases |a|
  {
    if a == [] {
      assert a + b == b;
    } else {
      assert (a + b)[1..] == a[1..] + b;
      if a[0] == '\r' && |a| > 1 && a[1] == '\n' {
        assert (a + b)[2..] == a[2..] + b;
        FeedsApart(a[2..], b);
      } else {
        FeedsApart(a[1..], b);
      }
    }
  }

  lemma {:induction false} FeedsOfBlank(s: string)
    requires AllBlank(s)
    ensures AllBlank(LineFeeds(s))
    decreases |s|
  {
    if s != [] {
      if s[0] == '\r' && |s| > 1 && s[1] == '\n' { FeedsOfBlank(s[2..]); } else { FeedsOfBlank(s[1..]); }
    }
  }

  lemma {:induction false} FeedsOfTrim(s: string)
    requires s != [] && !Blank(s[|s| - 1])
    ensures LineFeeds(s) != [] && LineFeeds(s)[|LineFeeds(s)| - 1] == s[|s| - 1]
    ensures !Blank(s[0]) ==> LineFeeds(s)[0] == s[0]
    decreases |s|
  {
    if |s| > 1 {
      if s[0] == '\r' && s[1] == '\n' { FeedsOfTrim(s[2..]); } else { FeedsOfTrim(s[1..]); }
    } else {
      assert LineFeeds(s[1..]) == [];
    }
  }

  lemma {:induction false} StripsLeft(a: string, b: string)
    requires AllBlank(a) && (b != [] ==> !Blank(b[0]))
    ensures StripLeft(a + b) == b
  {
    if a == [] {
      assert a + b == b;
    } else {
      assert (a + b)[1..] == a[1..] + b;
      BlankIsSpace(a[0]);
      StripsLeft(a[1..], b);
    }
  }

  lemma {:induction false} StripsRight(a: string, b: string)
    requires a != [] && !Blank(a[|a| - 1]) && AllBlank(b)
    ensures StripRight(a + b) == a
  {
    if b == [] {
      assert a + b == a;
    } else {
      assert (a + b)[..|a + b| - 1] == a + b[..|b| - 1];
      BlankIsSpace(b[|b| - 1]);
      StripsRight(a, b[..|b| - 1]);
    }
  }

  lemma ContentIsNormalized(s: string, from: nat, to: nat)
    requires from < to <= |s| && AllBlank(s[..from]) && Trim(s[from..to]) && AllBlank(s[to..])
    ensures Normalized(s) == LineFeeds(s[from..to]) && Trim(Normalized(s))
  {
    var (a, m, b) := (s[..from], s[from..to], s[to..]);
    assert s == a + (m + b);
    FeedsApart(a, m + b);
    FeedsApart(m, b);
    FeedsOfBlank(a);
    FeedsOfBlank(b);
    FeedsOfTrim(m);
    StripsLeft(LineFeeds(a), LineFeeds(m) + LineFeeds(b));
    StripsRight(LineFeeds(m), LineFeeds(b));
  }

  /** A text that is not all spaces has something between its outer spaces. */
  lemma OuterSpaces(s: string) returns (from: nat, to: nat)
    requires !AllBlank(s)
    ensures from < to <= |s| && AllBlank(s[..from]) && Trim(s[from..to]) && AllBlank(s[to..])
  {
    from, to := 0, |s|;
    while Blank(s[from])
      invariant from < |s| && AllBlank(s[..from]) && !AllBlank(s[from..])
      decreases |s| - from
    {
      assert s[from..] == [s[from]] + s[from + 1..];
      from := from + 1;
    }
    while Blank(s[to - 1])
      invariant from < to <= |s| && AllBlank(s[to..]) && !Blank(s[from])
      decreases |s[..to]|
    {
      to := to - 1;
    }
  }

  lemma BlankIsEmpty(s: string)
    requires AllBlank(s)
    ensures Normalized(s) == []
  {
    FeedsOfBlank(s);
    StripsLeft(LineFeeds(s), []);
    assert LineFeeds(s) + [] == LineFeeds(s);
  }

  lemma ContentExact(s: string, t: string)
    ensures Content(s, t) <==> Normalized(s) == t && t != []
    ensures (exists u :: Content(s, u)) <==> !AllBlank(s)
  {
    if AllBlank(s) {
      BlankIsEmpty(s);
    } else {
      var from, to := OuterSpaces(s);
      FeedsInTwo(s[from..to]);
      assert Content(s, Swapped(Joined(s[from..to])));
      ContentIsNormalized(s, from, to);
    }
    forall from: nat, to: nat
      | from < to <= |s| && AllBlank(s[..from]) && Trim(s[from..to]) && AllBlank(s[to..])
      ensures Normalized(s) == Swapped(Joined(s[from..to])) && Normalized(s) != []
    {
      ContentIsNormalized(s, from, to);
      FeedsInTwo(s[from..to]);
    }
  }

  /** Content has no CR and no space at either end, and a text that is so already is its own content. */
  lemma ContentIsClean(s: string, t: string)
    ensures Content(s, t) ==> Trim(t) && forall i :: 0 <= i < |t| ==> t[i] as int != 13
    ensures Trim(s) && (forall i :: 0 <= i < |s| ==> s[i] as int != 13) ==> (Content(s, t) <==> t == s)
  {
    ContentExact(s, t);
    if Content(s, t) {
      var from, to := OuterSpaces(s);
      ContentIsNormalized(s, from, to);
      LineFeedsLeaveNoReturn(s[from..to]);
      assert forall i :: 0 <= i < |t| ==> t[i] in LineFeeds(s[from..to]);
    }
    if Trim(s) && forall i :: 0 <= i < |s| ==> s[i] as int != 13 {
      assert s[0..|s|] == s;
      ContentIsNormalized(s, 0, |s|);
      LineFeedsKeep(s);
    }
  }

  /** A letter, then up to 63 letters, digits, underscores and dots. */
  predicate NamesType(s: string) {
    && 1 <= |s| <= 64 && 97 <= s[0] as int <= 122
    && forall i :: 1 <= i < |s| ==>
         97 <= s[i] as int <= 122 || 48 <= s[i] as int <= 57 || s[i] as int == 95 || s[i] as int == 46
  }

  /** The body a draft stands for: its own type, card data and images, and its content, when all of that may be sent. */
  predicate Understood(draft: Draft, body: Body) {
    && body.kind == draft.kind && body.payload == draft.payload && body.media == draft.media
    && Content(draft.content, body.content) && |body.content| <= 2000
    && (forall i :: 0 <= i < |body.content| ==> body.content[i] as int != 0)
    && NamesType(draft.kind) && draft.fits
    && (draft.kind == ['t', 'e', 'x', 't'] ==> draft.payload == 0 && draft.media == [])
  }

  lemma BodyExact(draft: Draft, body: Body)
    ensures BodyOf(draft) == Ok(body) <==> Understood(draft, body)
    ensures BodyOf(draft).Err? ==> BodyOf(draft) == Err(InvalidContent)
  {
    ContentExact(draft.content, body.content);
  }

  // ---- access ----

  /** The member that the actor is in this role, in a conversation of an organization the actor may act in. */
  predicate Seated(o: Office, actor: int, kind: AccessKind, c: nat, m: nat) {
    && actor in o.users && o.active && (kind == OrganizationMember ==> actor in o.staff)
    && c < |o.conversations| && m < |o.conversations[c].members|
    && o.conversations[c].members[m].user == Some(actor) && o.conversations[c].members[m].kind == kind
    && !o.conversations[c].members[m].revoked
  }

  ghost predicate Unseated(o: Office, actor: int, kind: AccessKind, c: nat) {
    forall m: nat :: !Seated(o, actor, kind, c, m)
  }

  lemma {:induction false} MemberFound(members: seq<Member>, actor: int, kind: AccessKind, from: nat, m: nat)
    requires from <= m < |members| && members[m].user == Some(actor) && members[m].kind == kind && !members[m].revoked
    ensures MemberFrom(members, actor, kind, from).Some?
    decreases m - from
  {
    if from < m { MemberFound(members, actor, kind, from + 1, m); }
  }

  /** An inactive account is told so; any other actor gets the own seat, which is the only one, or nothing. */
  lemma AccessExact(o: Office, actor: int, kind: AccessKind, c: nat)
    requires Sound(o)
    ensures actor !in o.users ==> Access(o, actor, kind, c) == Err(NotAuthenticated)
    ensures forall m: nat :: Seated(o, actor, kind, c, m) ==> Access(o, actor, kind, c) == Ok(m)
    ensures actor in o.users && Unseated(o, actor, kind, c) ==> Access(o, actor, kind, c) == Err(NotFound)
  {
    if c < |o.conversations| { assert MembersSound(o.conversations[c]); }
    if Access(o, actor, kind, c).Ok? { assert Seated(o, actor, kind, c, Access(o, actor, kind, c).value); }
    forall m: nat | Seated(o, actor, kind, c, m) ensures Access(o, actor, kind, c) == Ok(m) {
      MemberFound(o.conversations[c].members, actor, kind, 0, m);
    }
  }

  /** Conversation c became d; everything else is as it was. */
  predicate Only(o: Office, next: Office, c: nat, d: Conversation) {
    && next.active == o.active && next.users == o.users && next.staff == o.staff
    && c < |o.conversations| && |next.conversations| == |o.conversations| && next.conversations[c] == d
    && forall k :: 0 <= k < |o.conversations| && k != c ==> next.conversations[k] == o.conversations[k]
  }

  // ---- sending ----

  predicate Present(o: Office, m: Member) {
    match m.user
    case None => false
    case Some(user) => user in o.users && !m.revoked && (m.kind == OrganizationMember ==> user in o.staff)
  }

  predicate Asked(message: Message, m: nat, clientId: int) {
    message.sender == m && message.clientId == clientId
  }

  predicate NeverAsked(messages: seq<Message>, m: nat, clientId: int) {
    forall i :: 0 <= i < |messages| ==> !Asked(messages[i], m, clientId)
  }

  /** The answer to a client id that the member has used before: its message, if the four parts are the same. */
  predicate Repeated(r: Result<Sent, MessagingError>, message: Message, body: Body) {
    r == if && message.body.content == body.content && message.body.kind == body.kind
            && message.body.payload == body.payload && message.body.media == body.media
         then Ok(Sent(message, false))
         else Err(IdempotencyConflict)
  }

  /** What cannot be sent is refused first, for whoever sends it. */
  lemma SendRefused(o: Office, actor: int, kind: AccessKind, c: nat, clientId: int, draft: Draft)
    requires forall body :: !Understood(draft, body)
    ensures SendMessage(o, actor, kind, c, clientId, draft) == (Err(InvalidContent), o)
  {
    if BodyOf(draft).Ok? { BodyExact(draft, BodyOf(draft).value); } else { BodyExact(draft, Body("", "", 0, [])); }
  }

  lemma SendUnseated(o: Office, actor: int, kind: AccessKind, c: nat, clientId: int, draft: Draft, body: Body)
    requires Sound(o) && Understood(draft, body) && Unseated(o, actor, kind, c)
    ensures SendMessage(o, actor, kind, c, clientId, draft)
         == (Err(if actor in o.users then NotFound else NotAuthenticated), o)
  {
    BodyExact(draft, body);
    AccessExact(o, actor, kind, c);
  }

  /**
   A member's client id is answered by its message or a conflict; a new one is
   refused in a closed conversation, then for want of a peer, and else becomes
   the next message of the conversation, which is all that changes.
   */
  lemma SendExact(o: Office, actor: int, kind: AccessKind, c: nat, clientId: int, draft: Draft, body: Body, m: nat)
    requires Sound(o) && Understood(draft, body) && Seated(o, actor, kind, c, m)
    ensures var (r, next) := SendMessage(o, actor, kind, c, clientId, draft);
            var before := o.conversations[c];
            var (messages, message) := (before.messages, Message(|before.messages| + 1, m, clientId, body));
            && (forall i :: 0 <= i < |messages| && Asked(messages[i], m, clientId) ==>
                  next == o && Repeated(r, messages[i], body))
            && (NeverAsked(messages, m, clientId) ==>
                  if before.closed then r == Err(ConversationClosed) && next == o
                  else if exists k :: 0 <= k < |before.members| && !Present(o, before.members[k])
                  then r == Err(PeerUnavailable) && next == o
                  else && r == Ok(Sent(message, true))
                       && Only(o, next, c, Conversation(before.namespace, before.key, before.context, false,
                                                        |messages| + 1, Some(|messages|), before.members,
                                                        messages + [message])))
  {
    var before := o.conversations[c];
    assert ConversationSound(before);
    BodyExact(draft, body);
    AccessExact(o, actor, kind, c);
    assert forall k :: 0 <= k < |before.members| ==>
                         (MemberAvailable(o, before.members[k]) <==> Present(o, before.members[k]));
    forall i | 0 <= i < |before.messages| && Asked(before.messages[i], m, clientId)
      ensures SentFrom(before.messages, m, clientId, 0) == Some(i)
    {
      SentIsUnique(before.messages, i, 0);
    }
    var existing := SentFrom(before.messages, m, clientId, 0);
    if existing.Some? { assert Asked(before.messages[existing.value], m, clientId); }
  }

  /** However much happens in between, a repeat conflicts exactly when one of the four parts differs. */
  lemma RepeatExact(o: Office, actor: int, kind: AccessKind, c: nat, clientId: int, draft: Draft, steps: seq<Step>,
                    again: Draft, body: Body, m: nat)
    requires Sound(o) && SendMessage(o, actor, kind, c, clientId, draft).0.Ok? && Understood(again, body)
    requires Seated(Run(SendMessage(o, actor, kind, c, clientId, draft).1, steps), actor, kind, c, m)
    ensures var (sent, after) := SendMessage(o, actor, kind, c, clientId, draft);
            var (r, later) := SendMessage(Run(after, steps), actor, kind, c, clientId, again);
            later == Run(after, steps) && Repeated(r, sent.value.message, body)
  {
    SendSound(o, actor, kind, c, clientId, draft);
    RunSound(SendMessage(o, actor, kind, c, clientId, draft).1, steps);
    BodyExact(again, body);
    AccessExact(Run(SendMessage(o, actor, kind, c, clientId, draft).1, steps), actor, kind, c);
    RetryReturnsTheMessage(o, actor, kind, c, clientId, draft, steps, again);
  }

  // ---- reading ----

  /** A member may move the own cursor to any position of the log, never back, and that is all that changes. */
  lemma ReadExact(o: Office, actor: int, kind: AccessKind, c: nat, position: int)
    requires Sound(o)
    ensures var (r, next) := MarkRead(o, actor, kind, c, position);
            && (Unseated(o, actor, kind, c) ==>
                  r == Err(if actor in o.users then NotFound else NotAuthenticated) && next == o)
            && forall m: nat :: Seated(o, actor, kind, c, m) ==> MovedTo(o, next, c, m, position, r)
  {
    AccessExact(o, actor, kind, c);
    if c < |o.conversations| { assert ConversationSound(o.conversations[c]); }
    forall m: nat | Seated(o, actor, kind, c, m)
      ensures var (r, next) := MarkRead(o, actor, kind, c, position); MovedTo(o, next, c, m, position, r)
    {
      var next := MarkRead(o, actor, kind, c, position).1;
      ReadSound(o, actor, kind, c, position);
      assert ConversationSound(next.conversations[c]);
      UnreadCountsThePeer(next.conversations[c], m);
    }
  }

  predicate MovedTo(o: Office, next: Office, c: nat, m: nat, position: int, r: Result<nat, MessagingError>)
    requires c < |o.conversations| && m < |o.conversations[c].members|
  {
    var before := o.conversations[c];
    var (member, count) := (before.members[m], |before.messages|);
    var cursor := if position > member.lastRead then position else member.lastRead;
    if 0 <= position <= count
    then && r == Ok(|set i: nat | cursor <= i < count && before.messages[i].sender != m|)
         && Only(o, next, c, Conversation(before.namespace, before.key, before.context, before.closed,
                                          before.lastNumber, before.lastMessage,
                                          before.members[m := Member(member.user, member.kind, cursor, false)],
                                          before.messages))
    else r == Err(InvalidPosition) && next == o
  }

  /** One bound at a time is listed: from a number upwards, or below a number, the latest first. */
  lemma ListingExact(o: Office, actor: int, kind: AccessKind, c: nat, before: Option<int>, after: Option<int>)
    requires Sound(o)
    ensures var listed := ListMessages(o, actor, kind, c, before, after);
            && (Unseated(o, actor, kind, c) ==> listed == Err(if actor in o.users then NotFound else NotAuthenticated))
            && forall m: nat :: Seated(o, actor, kind, c, m) ==>
                 Listed(o.conversations[c].messages, before, after, listed)
  {
    AccessExact(o, actor, kind, c);
    if c < |o.conversations| { assert ConversationSound(o.conversations[c]); }
    if m: nat :| Seated(o, actor, kind, c, m) {
      if after.Some? && before.None? && after.value >= 0 { ListedUpwards(o.conversations[c], after.value); }
      if before.Some? && after.None? && before.value >= 1 { ListedDownwards(o.conversations[c], before.value); }
      if before.None? && after.None? { ListedWhole(o.conversations[c]); }
    }
  }

  lemma ListedUpwards(c: Conversation, after: nat)
    requires Gapless(c)
    ensures Between(BySeq(c.messages), after, None) == Part(c.messages, after, |c.messages|)
  {
    GaplessSorted(c);
    assert c.messages[..|c.messages|] == c.messages;
    BetweenAfter(c, |c.messages|, after);
  }

  lemma ListedDownwards(c: Conversation, before: int)
    requires Gapless(c) && before >= 1
    ensures Backwards(Reversed(Between(BySeq(c.messages), -1, Some(before))), Part(c.messages, 0, before - 1))
  {
    GaplessSorted(c);
    assert c.messages[..|c.messages|] == c.messages;
    BetweenBefore(c, |c.messages|, before);
  }

  lemma ListedWhole(c: Conversation)
    requires Gapless(c)
    ensures Backwards(Reversed(Between(BySeq(c.messages), -1, None)), c.messages)
  {
    GaplessSorted(c);
    ListedDownwards(c, |c.messages| + 1);
    AllBetween(c.messages, |c.messages| + 1);
  }

  lemma {:induction false} AllBetween(messages: seq<Message>, n: int)
    requires forall i :: 0 <= i < |messages| ==> messages[i].number < n
    ensures Between(messages, -1, None) == Between(messages, -1, Some(n))
  {
    if messages != [] { AllBetween(messages[..|messages| - 1], n); }
  }

  /** The part of the log from position a up to b, as far as there is one. */
  function Part(messages: seq<Message>, a: int, b: int): seq<Message> {
    var from := if a < 0 then 0 else if a > |messages| then |messages| else a;
    var to := if b > |messages| then |messages| else b;
    if from <= to then messages[from..to] else []
  }

  predicate Backwards(listed: seq<Message>, part: seq<Message>) {
    |listed| == |part| && forall i :: 0 <= i < |listed| ==> listed[i] == part[|part| - 1 - i]
  }

  predicate Listed(messages: seq<Message>, before: Option<int>, after: Option<int>,
                   listed: Result<seq<Message>, MessagingError>) {
    match (before, after)
    case (Some(_), Some(_)) => listed == Err(InvalidPosition)
    case (Some(b), None) =>
      if b < 1 then listed == Err(InvalidPosition)
      else listed.Ok? && Backwards(listed.value, Part(messages, 0, b - 1))
    case (None, Some(a)) =>
      if a < 0 then listed == Err(InvalidPosition) else listed == Ok(Part(messages, a, |messages|))
    case (None, None) => listed.Ok? && Backwards(listed.value, messages)
  }

  /** Twenty items to a page unless asked otherwise, one to a hundred. */
  lemma PageSizeExact(requested: Option<int>)
    ensures requested == None || requested == Some(0) ==> PageSize(requested) == 20
    ensures requested.Some? && requested.value != 0 && 1 <= requested.value <= 100 ==>
              PageSize(requested) == requested.value
    ensures requested.Some? && requested.value > 100 ==> PageSize(requested) == 100
    ensures requested.Some? && requested.value < 0 ==> PageSize(requested) == 1
  {
  }

  /** Page p holds the items from (p - 1) times the page size on, that many or all that are left; pages start at 1. */
  lemma PageExact<T>(items: seq<T>, page: int, requested: Option<int>, from: int)
    requires from == (if page < 1 then 0 else (page - 1) * PageSize(requested))
    ensures var listed := PageOf(items, page, requested);
            && |listed| == (if from >= |items| then 0
                            else if |items| - from < PageSize(requested) then |items| - from
                            else PageSize(requested))
            && forall i :: 0 <= i < |listed| ==> 0 <= from + i < |items| && listed[i] == items[from + i]
  {
    if page < 1 { FirstPage(items, requested); }
  }

  // ---- opening ----

  /** Why these participants cannot be given a conversation, if they cannot. */
  function OpeningFailure(o: Office, actor: int, namespace: int, key: ConversationKey, context: int,
                          specs: seq<Participant>): Option<MessagingError> {
    if actor !in o.users then Some(NotAuthenticated)
    else if !o.active then Some(NotFound)
    else if |specs| != 2 || specs[0].user == specs[1].user || actor !in {specs[0].user, specs[1].user}
            || !({specs[0].user, specs[1].user} <= o.users) then Some(InvalidScope)
    else if (specs[0].kind.OrganizationMember? && specs[0].user !in o.staff)
            || (specs[1].kind.OrganizationMember? && specs[1].user !in o.staff) then Some(NotFound)
    else if namespace == 0 && !(&& specs[0].kind.OrganizationMember? && specs[1].kind.OrganizationMember?
                                && context == 0 && IsPair(key, specs[0].user, specs[1].user)) then Some(InvalidScope)
    else None
  }

  /** The two accounts in ascending order. */
  predicate IsPair(key: ConversationKey, a: int, b: int) {
    key.Pair? && key.low <= key.high && {key.low, key.high} == {a, b}
  }

  predicate Keyed(c: Conversation, namespace: int, key: ConversationKey) {
    c.namespace == namespace && c.key == key
  }

  /** The members are the accounts of the two participants in the roles asked for, either way round. */
  predicate ForThese(members: seq<Member>, specs: seq<Participant>)
    requires |specs| == 2
  {
    && |members| == 2
    && ((Is(members[0], specs[0]) && Is(members[1], specs[1]))
        || (Is(members[0], specs[1]) && Is(members[1], specs[0])))
  }

  predicate Is(member: Member, spec: Participant) {
    member.user == Some(spec.user) && member.kind == spec.kind
  }

  lemma PairExact(key: ConversationKey, a: int, b: int)
    ensures key == PairKey(a, b) <==> IsPair(key, a, b)
  {
    if IsPair(key, a, b) { assert a in {key.low, key.high} && b in {key.low, key.high} && key.low in {a, b}; }
  }

  lemma TheseAreSame(members: seq<Member>, specs: seq<Participant>)
    requires |specs| == 2 && ForThese(members, specs)
    ensures SameParticipants(members, specs)
  {
    assert specs[0] in specs && specs[1] in specs;
    assert Participant(specs[0].user, specs[0].kind) == specs[0]
           && Participant(specs[1].user, specs[1].kind) == specs[1];
    assert members[0].user == Some(specs[0].user) || members[1].user == Some(specs[0].user);
    assert members[0].user == Some(specs[1].user) || members[1].user == Some(specs[1].user);
  }

  lemma IsOneOfThese(members: seq<Member>, specs: seq<Participant>, i: nat)
    requires |specs| == 2 && i < |members| && SameParticipants(members, specs)
    ensures Is(members[i], specs[0]) || Is(members[i], specs[1])
  {
    assert members[i].user.Some? && Participant(members[i].user.value, members[i].kind) in specs;
  }

  lemma ApartAreThese(members: seq<Member>, specs: seq<Participant>)
    requires |specs| == 2 && |members| == 2 && members[0].user != members[1].user
    requires Is(members[0], specs[0]) || Is(members[0], specs[1])
    requires Is(members[1], specs[0]) || Is(members[1], specs[1])
    ensures ForThese(members, specs)
  {
  }

  lemma SameAreThese(members: seq<Member>, specs: seq<Participant>)
    requires |specs| == 2 && |members| == 2 && (members[0].user == members[1].user ==> members[0].user.None?)
    requires SameParticipants(members, specs)
    ensures ForThese(members, specs)
  {
    IsOneOfThese(members, specs, 0);
    IsOneOfThese(members, specs, 1);
    ApartAreThese(members, specs);
  }

  /** The conversation of the key was there, so nothing changes, whether it is for these participants or not. */
  lemma ReopenExact(o: Office, actor: int, namespace: int, key: ConversationKey, context: int,
                    specs: seq<Participant>, c: nat)
    requires Sound(o) && OpeningFailure(o, actor, namespace, key, context, specs).None?
    requires c < |o.conversations| && Keyed(o.conversations[c], namespace, key)
    ensures var (r, next) := GetOrCreate(o, actor, namespace, key, context, specs);
            && next == o
            && r == if o.conversations[c].context != context || !ForThese(o.conversations[c].members, specs)
                    then Err(KeyConflict)
                    else if Unseated(o, actor, if specs[0].user == actor then specs[0].kind else specs[1].kind, c)
                    then Err(NotFound)
                    else Ok(c)
  {
    var members := o.conversations[c].members;
    assert MembersSound(o.conversations[c]);
    Allowed(o, actor, namespace, key, context, specs);
    FoundKey(o.conversations, c);
    if ForThese(members, specs) { TheseAreSame(members, specs); }
    if SameParticipants(members, specs) { SameAreThese(members, specs); }
    var mine := if specs[0].user == actor then specs[0].kind else specs[1].kind;
    AccessExact(o, actor, mine, c);
  }

  lemma Allowed(o: Office, actor: int, namespace: int, key: ConversationKey, context: int, specs: seq<Participant>)
    requires OpeningFailure(o, actor, namespace, key, context, specs).None?
    ensures actor in o.users && o.active && ParticipantsValid(o, actor, specs)
            && (namespace == DIRECT_NAMESPACE ==> DirectValid(key, context, specs))
    ensures forall s :: s in specs && s.kind == OrganizationMember ==> s.user in o.staff
  {
    assert specs[0].user in {specs[0].user, specs[1].user} && specs[1].user in {specs[0].user, specs[1].user};
    PairExact(key, specs[0].user, specs[1].user);
  }

  /** There was none of the key: it is opened, empty, at the end, for the two participants with fresh cursors. */
  lemma OpenExact(o: Office, actor: int, namespace: int, key: ConversationKey, context: int, specs: seq<Participant>)
    requires Sound(o) && OpeningFailure(o, actor, namespace, key, context, specs).None?
    requires forall c :: 0 <= c < |o.conversations| ==> !Keyed(o.conversations[c], namespace, key)
    ensures var (r, next) := GetOrCreate(o, actor, namespace, key, context, specs);
            && r == Ok(|o.conversations|)
            && next.active == o.active && next.users == o.users && next.staff == o.staff
            && next.conversations == o.conversations
                 + [Conversation(namespace, key, context, false, 0, None,
                                 [Member(Some(specs[0].user), specs[0].kind, 0, false),
                                  Member(Some(specs[1].user), specs[1].kind, 0, false)], [])]
  {
    Allowed(o, actor, namespace, key, context, specs);
    var (r, next) := GetOrCreate(o, actor, namespace, key, context, specs);
    var found := FindKey(o.conversations, namespace, key, 0);
    if found.Some? { assert Keyed(o.conversations[found.value], namespace, key); }
    OpenSound(o, actor, namespace, key, context, specs);
    var (c, mine) := (|o.conversations|, if specs[0].user == actor then 0 else 1);
    assert Seated(next, actor, specs[mine].kind, c, mine);
    AccessExact(next, actor, specs[mine].kind, c);
  }

  /** Participants that cannot be given a conversation get the error, and nothing changes. */
  lemma OpenRefused(o: Office, actor: int, namespace: int, key: ConversationKey, context: int, specs: seq<Participant>)
    requires OpeningFailure(o, actor, namespace, key, context, specs).Some?
    ensures GetOrCreate(o, actor, namespace, key, context, specs)
         == (Err(OpeningFailure(o, actor, namespace, key, context, specs).value), o)
  {
    if |specs| == 2 {
      PairExact(key, specs[0].user, specs[1].user);
      assert specs[0] in specs && specs[1] in specs;
      assert forall s :: s in specs ==> s == specs[0] || s == specs[1];
    }
  }

  /** A direct conversation is the one of the ordered pair, for two members of the organization. */
  lemma DirectExact(o: Office, actor: int, peer: int, key: ConversationKey)
    requires IsPair(key, actor, peer)
    ensures GetOrCreateDirect(o, actor, peer)
         == if actor in o.users && (!o.active || actor !in o.staff) then (Err(NotFound), o)
            else GetOrCreate(o, actor, 0, key, 0, [Participant(actor, OrganizationMember),
                                                   Participant(peer, OrganizationMember)])
  {
    PairExact(key, actor, peer);
  }

  /** Each step is the call it names; the organization, its accounts and its members change apart from conversations. */
  lemma StepExact(o: Office, actor: int, kind: AccessKind, c: nat, n: int, draft: Draft, key: ConversationKey,
                  context: int, specs: seq<Participant>, users: set<int>, staff: set<int>, active: bool)
    ensures After(o, Send(actor, kind, c, n, draft)) == SendMessage(o, actor, kind, c, n, draft).1
    ensures After(o, Step.Read(actor, kind, c, n)) == MarkRead(o, actor, kind, c, n).1
    ensures After(o, Open(actor, n, key, context, specs)) == GetOrCreate(o, actor, n, key, context, specs).1
    ensures After(o, OpenDirect(actor, n)) == GetOrCreateDirect(o, actor, n).1
    ensures After(o, Revoke(c, n)) == RevokeParticipant(o, c, n).1
    ensures After(o, Close(n, context)) == CloseContext(o, n, context).1
    ensures After(o, ChangeOrganization(active, users, staff)) == Office(active, users, staff, o.conversations)
  {
  }

  // ---- ending ----

  /** The same conversation with these members, closed or not. */
  predicate Became(c: Conversation, d: Conversation, closed: bool) {
    && d.namespace == c.namespace && d.key == c.key && d.context == c.context && d.closed == closed
    && d.lastNumber == c.lastNumber && d.lastMessage == c.lastMessage && d.messages == c.messages
    && |d.members| == |c.members|
  }

  /** Nothing changed but conversations, and those in their places. */
  predicate InPlace(o: Office, next: Office) {
    && next.active == o.active && next.users == o.users && next.staff == o.staff
    && |next.conversations| == |o.conversations|
  }

  predicate InForceThere(members: seq<Member>, user: int, m: nat) {
    m < |members| && members[m].user == Some(user) && !members[m].revoked
  }

  function InForceBelow(members: seq<Member>, user: int, n: nat): set<nat> {
    set m: nat | m < n && InForceThere(members, user, m)
  }

  lemma {:induction false} InForceCounts(members: seq<Member>, user: int, n: nat)
    requires n <= |members|
    ensures InForce(members[..n], user) == |InForceBelow(members, user, n)|
  {
    if n > 0 {
      assert members[..n][..n - 1] == members[..n - 1];
      InForceCounts(members, user, n - 1);
      OneMoreInForce(members, user, n - 1);
    }
  }

  lemma OneMoreInForce(members: seq<Member>, user: int, n: nat)
    ensures |InForceBelow(members, user, n + 1)|
         == |InForceBelow(members, user, n)| + if InForceThere(members, user, n) then 1 else 0
  {
    assert InForceBelow(members, user, n + 1)
        == InForceBelow(members, user, n) + if InForceThere(members, user, n) then {n} else {};
  }

  /** The user's membership is revoked, whatever it was, and no other; the answer counts those still in force before. */
  lemma RevocationExact(o: Office, c: nat, user: int)
    ensures var (r, next) := RevokeParticipant(o, c, user);
            if !o.active || c >= |o.conversations| then r == Err(NotFound) && next == o
            else
              var (before, after) := (o.conversations[c], next.conversations[c]);
              && r == Ok(|InForceBelow(before.members, user, |before.members|)|)
              && Only(o, next, c, after) && Became(before, after, before.closed)
              && forall m :: 0 <= m < |before.members| ==>
                   after.members[m] == before.members[m].(
                     revoked := before.members[m].revoked || before.members[m].user == Some(user))
  {
    if o.active && c < |o.conversations| {
      var members := o.conversations[c].members;
      InForceCounts(members, user, |members|);
      assert members[..|members|] == members;
    }
  }

  predicate InContext(c: Conversation, namespace: int, context: int) {
    c.namespace == namespace && c.context == context
  }

  predicate OpenThere(conversations: seq<Conversation>, namespace: int, context: int, c: nat) {
    c < |conversations| && InContext(conversations[c], namespace, context) && !conversations[c].closed
  }

  function OpenBelow(conversations: seq<Conversation>, namespace: int, context: int, n: nat): set<nat> {
    set c: nat | c < n && OpenThere(conversations, namespace, context, c)
  }

  lemma {:induction false} OpenCounts(conversations: seq<Conversation>, namespace: int, context: int, n: nat)
    requires n <= |conversations|
    ensures OpenIn(conversations[..n], namespace, context) == |OpenBelow(conversations, namespace, context, n)|
  {
    if n > 0 {
      assert conversations[..n][..n - 1] == conversations[..n - 1];
      OpenCounts(conversations, namespace, context, n - 1);
      OneMoreOpen(conversations, namespace, context, n - 1);
    }
  }

  lemma OneMoreOpen(conversations: seq<Conversation>, namespace: int, context: int, n: nat)
    ensures |OpenBelow(conversations, namespace, context, n + 1)|
         == |OpenBelow(conversations, namespace, context, n)|
            + if OpenThere(conversations, namespace, context, n) then 1 else 0
  {
    assert OpenBelow(conversations, namespace, context, n + 1)
        == OpenBelow(conversations, namespace, context, n)
           + if OpenThere(conversations, namespace, context, n) then {n} else {};
  }

  /** Exactly the conversations of the context are closed; the answer counts those that were open. */
  lemma ClosingExact(o: Office, namespace: int, context: int)
    ensures var (r, next) := CloseContext(o, namespace, context);
            if !o.active then r == Err(NotFound) && next == o
            else if context == 0 then r == Err(InvalidScope) && next == o
            else
              && r == Ok(|OpenBelow(o.conversations, namespace, context, |o.conversations|)|)
              && InPlace(o, next)
              && forall c :: 0 <= c < |o.conversations| ==>
                   && next.conversations[c].members == o.conversations[c].members
                   && Became(o.conversations[c], next.conversations[c],
                             o.conversations[c].closed || InContext(o.conversations[c], namespace, context))
  {
    OpenCounts(o.conversations, namespace, context, |o.conversations|);
    assert o.conversations[..|o.conversations|] == o.conversations;
  }

  /** A deleted account leaves its memberships without a user, and nothing else changes. */
  lemma DeletionExact(o: Office, user: int)
    ensures var next := After(o, DeleteUser(user));
            && next.active == o.active && next.users == o.users - {user} && next.staff == o.staff - {user}
            && |next.conversations| == |o.conversations|
            && forall c :: 0 <= c < |o.conversations| ==>
                 var (before, after) := (o.conversations[c], next.conversations[c]);
                 && Became(before, after, before.closed)
                 && forall m :: 0 <= m < |before.members| ==>
                      after.members[m] == before.members[m].(
                        user := if before.members[m].user == Some(user) then None else before.members[m].user)
  {
  }

  /** The step closes the conversation, or takes one of its members away. */
  predicate Ends(o: Office, step: Step, c: nat)
    requires c < |o.conversations|
  {
    match step
    case Close(namespace, context) => o.active && context != 0 && InContext(o.conversations[c], namespace, context)
    case Revoke(d, user) => o.active && d == c && HasAccount(o.conversations[c].members, user)
    case DeleteUser(user) => HasAccount(o.conversations[c].members, user)
    case _ => false
  }

  /** A close, a revocation and a deleted account are the end: the log stays as it was then, whatever follows. */
  lemma EndsForGood(o: Office, step: Step, c: nat, steps: seq<Step>)
    requires Sound(o) && c < |o.conversations| && Ends(o, step, c)
    ensures c < |Run(After(o, step), steps).conversations|
            && Run(After(o, step), steps).conversations[c].messages == o.conversations[c].messages
  {
    StepSound(o, step);
    EndsNow(o, step, c);
    NothingAfterTheEnd(After(o, step), steps, c);
  }

  /** No step ends a conversation but these, and a member's revocation or deletion once made is kept. */
  lemma EndedOnlyBy(o: Office, step: Step, c: nat)
    requires Sound(o) && c < |o.conversations|
    ensures c < |After(o, step).conversations|
    ensures Ended(After(o, step).conversations[c]) <==> Ended(o.conversations[c]) || Ends(o, step, c)
  {
    var (before, after) := (o.conversations[c], After(o, step).conversations[c]);
    StepSound(o, step);
    assert ConversationForward(before, after);
    if Ended(before) { StepAfterTheEnd(o, step, c); } else if Ends(o, step, c) { EndsNow(o, step, c); } else {
      StaysOpen(o, step, c);
    }
  }

  lemma EndsNow(o: Office, step: Step, c: nat)
    requires c < |o.conversations| && Ends(o, step, c)
    ensures c < |After(o, step).conversations| && Ended(After(o, step).conversations[c])
  {
    var (before, after) := (o.conversations[c], After(o, step).conversations[c]);
    match step {
      case Close(namespace, context) =>
      case Revoke(_, user) =>
        var m :| 0 <= m < |before.members| && before.members[m].user == Some(user);
        assert after.members[m].revoked;
      case DeleteUser(user) =>
        var m :| 0 <= m < |before.members| && before.members[m].user == Some(user);
        assert after.members[m].user.None?;
      case _ =>
    }
  }

  lemma StaysOpen(o: Office, step: Step, c: nat)
    requires Sound(o) && c < |o.conversations| && !Ended(o.conversations[c]) && !Ends(o, step, c)
    ensures c < |After(o, step).conversations| && !Ended(After(o, step).conversations[c])
  {
    match step {
      case Close(namespace, context) => ClosingExact(o, namespace, context);
      case Revoke(d, user) => RevocationExact(o, d, user);
      case DeleteUser(user) => DeletionExact(o, user);
      case Read(actor, kind, d, position) => ReadKeepsOpen(o, actor, kind, d, position, c);
      case _ =>
    }
  }

  lemma ReadKeepsOpen(o: Office, actor: int, kind: AccessKind, d: nat, position: int, c: nat)
    requires c < |o.conversations| && !Ended(o.conversations[c])
    ensures var next := MarkRead(o, actor, kind, d, position).1;
            |next.conversations| == |o.conversations| && !Ended(next.conversations[c])
  {
  }
}
