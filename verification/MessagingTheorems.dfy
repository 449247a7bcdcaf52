/** What a conversation promises its members. */
module MessagingTheorems {
  import opened Wrappers
  import opened Messaging
  import opened MessagingProofs

  /**
   In every run each log is numbered 1 to its last message, holds one message
   per member and client id, and no cursor passes its end.
   */
  lemma EveryLogIsGapless(active: bool, users: set<int>, staff: set<int>, steps: seq<Step>, c: nat)
    requires c < |Run(Start(active, users, staff), steps).conversations|
    ensures var conversation := Run(Start(active, users, staff), steps).conversations[c];
            && conversation.lastNumber == |conversation.messages|
            && (forall i :: 0 <= i < |conversation.messages| ==> conversation.messages[i].number == i + 1)
            && (conversation.messages != [] ==> conversation.lastMessage == Some(conversation.lastNumber - 1))
            && (forall i, j :: 0 <= i < j < |conversation.messages|
                  ==> || conversation.messages[i].sender != conversation.messages[j].sender
                      || conversation.messages[i].clientId != conversation.messages[j].clientId)
            && (forall m :: 0 <= m < |conversation.members| ==>
                  conversation.members[m].lastRead <= conversation.lastNumber)
  {
    RunSound(Start(active, users, staff), steps);
  }

  // ---- sending once ----

  lemma SameSeat(a: Conversation, b: Conversation, actor: int, kind: AccessKind)
    requires MembersSound(a) && ConversationForward(a, b)
    requires MemberFrom(a.members, actor, kind, 0).Some? && MemberFrom(b.members, actor, kind, 0).Some?
    ensures MemberFrom(a.members, actor, kind, 0) == MemberFrom(b.members, actor, kind, 0)
  {
    var m := MemberFrom(b.members, actor, kind, 0).value;
    assert MemberForward(a.members[m], b.members[m]);
  }

  lemma {:induction false} SentIsUnique(messages: seq<Message>, i: nat, from: nat)
    requires from <= i < |messages| && OncePerRequest(messages)
    ensures SentFrom(messages, messages[i].sender, messages[i].clientId, from) == Some(i)
    decreases i - from
  {
    if from < i { SentIsUnique(messages, i, from + 1); }
  }

  /** A message that was accepted is in the log, where the sender's seat and client id find it. */
  lemma AcceptedIsStored(o: Office, actor: int, kind: AccessKind, c: nat, clientId: int, draft: Draft)
    requires Sound(o) && SendMessage(o, actor, kind, c, clientId, draft).0.Ok?
    ensures var (r, after) := SendMessage(o, actor, kind, c, clientId, draft);
            var message := r.value.message;
            && Access(o, actor, kind, c).Ok? && c < |after.conversations|
            && 1 <= message.number <= |after.conversations[c].messages|
            && after.conversations[c].messages[message.number - 1] == message
            && message.sender == Access(o, actor, kind, c).value && message.clientId == clientId
            && Ok(message.body) == BodyOf(draft) && message.body.kind == draft.kind
            && message.body.payload == draft.payload && message.body.media == draft.media
  {
    assert ConversationSound(o.conversations[c]);
  }

  /**
   However much happens in between, even closing, a repeated request stores
   nothing: it gets its message back, or a conflict when its content differs.
   */
  lemma RetryReturnsTheMessage(o: Office, actor: int, kind: AccessKind, c: nat, clientId: int, draft: Draft,
                               steps: seq<Step>, again: Draft)
    requires Sound(o) && SendMessage(o, actor, kind, c, clientId, draft).0.Ok?
    requires Access(Run(SendMessage(o, actor, kind, c, clientId, draft).1, steps), actor, kind, c).Ok?
    requires BodyOf(again).Ok?
    ensures var (r, sent) := SendMessage(o, actor, kind, c, clientId, draft);
            var later := Run(sent, steps);
            SendMessage(later, actor, kind, c, clientId, again)
            == (if BodyOf(again) == Ok(r.value.message.body)
                then Ok(Sent(r.value.message, false))
                else Err(IdempotencyConflict),
                later)
  {
    var (r, sent) := SendMessage(o, actor, kind, c, clientId, draft);
    var later, message := Run(sent, steps), r.value.message;
    AcceptedIsStored(o, actor, kind, c, clientId, draft);
    SendSound(o, actor, kind, c, clientId, draft);
    RunSound(sent, steps);
    ForwardTransitive(o, sent, later);
    assert ConversationSound(o.conversations[c]) && ConversationSound(later.conversations[c]);
    SameSeat(o.conversations[c], later.conversations[c], actor, kind);
    assert ConversationForward(sent.conversations[c], later.conversations[c]);
    RetryFinds(later, actor, kind, c, message, again);
  }

  lemma RetryFinds(o: Office, actor: int, kind: AccessKind, c: nat, message: Message, again: Draft)
    requires Access(o, actor, kind, c).Ok? && OncePerRequest(o.conversations[c].messages) && BodyOf(again).Ok?
    requires 1 <= message.number <= |o.conversations[c].messages|
    requires o.conversations[c].messages[message.number - 1] == message
    requires message.sender == Access(o, actor, kind, c).value
    ensures SendMessage(o, actor, kind, c, message.clientId, again)
         == (if BodyOf(again) == Ok(message.body) then Ok(Sent(message, false)) else Err(IdempotencyConflict), o)
  {
    SentIsUnique(o.conversations[c].messages, message.number - 1, 0);
  }

  // ---- the end of a conversation ----

  /** Closed, or left without one of its members. */
  predicate Ended(c: Conversation) {
    c.closed || exists m :: 0 <= m < |c.members| && (c.members[m].revoked || c.members[m].user.None?)
  }

  lemma StepAfterTheEnd(o: Office, step: Step, c: nat)
    requires Sound(o) && c < |o.conversations| && Ended(o.conversations[c])
    ensures c < |After(o, step).conversations|
    ensures After(o, step).conversations[c].messages == o.conversations[c].messages
            && Ended(After(o, step).conversations[c])
  {
    StepSound(o, step);
    assert ConversationForward(o.conversations[c], After(o, step).conversations[c]);
    if !o.conversations[c].closed {
      var m :| 0 <= m < |o.conversations[c].members|
               && (o.conversations[c].members[m].revoked || o.conversations[c].members[m].user.None?);
      assert MemberForward(o.conversations[c].members[m], After(o, step).conversations[c].members[m]);
    }
    EndedTakesNoMessage(o, step, c);
  }

  lemma EndedTakesNoMessage(o: Office, step: Step, c: nat)
    requires c < |o.conversations| && Ended(o.conversations[c]) && c < |After(o, step).conversations|
    ensures After(o, step).conversations[c].messages == o.conversations[c].messages
  {
  }

  /** After a close, a revocation or a deleted account no message is ever stored again. */
  lemma {:induction false} NothingAfterTheEnd(o: Office, steps: seq<Step>, c: nat)
    requires Sound(o) && c < |o.conversations| && Ended(o.conversations[c])
    ensures c < |Run(o, steps).conversations| && Run(o, steps).conversations[c].messages == o.conversations[c].messages
            && Ended(Run(o, steps).conversations[c])
  {
    if steps != [] {
      NothingAfterTheEnd(o, steps[..|steps| - 1], c);
      RunSound(o, steps[..|steps| - 1]);
      StepAfterTheEnd(Run(o, steps[..|steps| - 1]), steps[|steps| - 1], c);
    }
  }

  // ---- what may be sent ----

  datatype BlockReason = Available | Closed | Unavailable

  predicate MemberBad(o: Office, m: Member) {
    m.revoked || m.user.None? || m.user.value !in o.users || (m.kind == OrganizationMember && m.user.value !in o.staff)
  }

  /** What the conversation list shows as the reason a member cannot write. */
  function SendBlockReason(o: Office, c: Conversation): BlockReason {
    if c.closed then Closed
    else if (exists m :: 0 <= m < |c.members| && MemberBad(o, c.members[m])) || |c.members| != 2 then Unavailable
    else Available
  }

  /** The shown reason is exactly what a new message meets. */
  lemma ShownReasonIsTheOutcome(o: Office, actor: int, kind: AccessKind, c: nat, clientId: int, draft: Draft)
    requires BodyOf(draft).Ok? && Access(o, actor, kind, c).Ok?
    requires SentFrom(o.conversations[c].messages, Access(o, actor, kind, c).value, clientId, 0).None?
    ensures var outcome := SendMessage(o, actor, kind, c, clientId, draft).0;
            match SendBlockReason(o, o.conversations[c])
            case Available => outcome.Ok? && outcome.value.created
            case Closed => outcome == Err(ConversationClosed)
            case Unavailable => outcome == Err(PeerUnavailable)
  {
    var members := o.conversations[c].members;
    assert forall m :: 0 <= m < |members| ==> (MemberAvailable(o, members[m]) <==> !MemberBad(o, members[m]));
  }

  // ---- unread ----

  /** The positions up to n, beyond a cursor, of messages that others sent. */
  function FromOthers(messages: seq<Message>, m: nat, cursor: nat, n: nat): set<nat>
    requires n <= |messages|
  {
    set i: nat | cursor <= i < n && messages[i].sender != m
  }

  lemma {:induction false} UnreadFrom(c: Conversation, m: nat, cursor: nat, n: nat)
    requires Gapless(c) && n <= |c.messages|
    ensures Unread(c.messages[..n], m, cursor) == |FromOthers(c.messages, m, cursor, n)|
  {
    if n > 0 {
      assert c.messages[..n][..n - 1] == c.messages[..n - 1];
      UnreadFrom(c, m, cursor, n - 1);
      assert FromOthers(c.messages, m, cursor, n)
          == FromOthers(c.messages, m, cursor, n - 1)
             + if cursor <= n - 1 && c.messages[n - 1].sender != m then {n - 1} else {};
    }
  }

  /** Unread is the number of the peer's messages beyond the cursor. */
  lemma UnreadCountsThePeer(c: Conversation, m: nat)
    requires ConversationSound(c) && m < 2
    ensures UnreadOf(c, m) == |FromOthers(c.messages, m, c.members[m].lastRead, |c.messages|)|
    ensures forall i :: i in FromOthers(c.messages, m, c.members[m].lastRead, |c.messages|)
                        <==> c.members[m].lastRead <= i < |c.messages| && c.messages[i].sender == 1 - m
  {
    UnreadFrom(c, m, c.members[m].lastRead, |c.messages|);
    assert c.messages[..|c.messages|] == c.messages;
  }

  /** A new message is one more unread for the peer and none for its sender. */
  lemma SendCountsOnceForThePeer(o: Office, actor: int, kind: AccessKind, c: nat, clientId: int, draft: Draft)
    requires Sound(o) && SendMessage(o, actor, kind, c, clientId, draft).0.Ok?
    requires SendMessage(o, actor, kind, c, clientId, draft).0.value.created
    ensures var before, after := o.conversations[c], SendMessage(o, actor, kind, c, clientId, draft).1.conversations[c];
            var m := Access(o, actor, kind, c).value;
            && m < 2 && |before.members| == 2 && |after.members| == 2
            && UnreadOf(after, m) == UnreadOf(before, m) && UnreadOf(after, 1 - m) == UnreadOf(before, 1 - m) + 1
  {
    assert ConversationSound(o.conversations[c]);
    var before, after := o.conversations[c], SendMessage(o, actor, kind, c, clientId, draft).1.conversations[c];
    assert after.messages[..|after.messages| - 1] == before.messages;
  }

  /** Reading to the end leaves nothing unread; no position moves a cursor back or past the end. */
  lemma ReadingMovesForward(o: Office, actor: int, kind: AccessKind, c: nat, position: int)
    requires Sound(o) && Access(o, actor, kind, c).Ok?
    ensures var (r, after) := MarkRead(o, actor, kind, c, position);
            var m, before := Access(o, actor, kind, c).value, o.conversations[c];
            && (r.Ok? <==> 0 <= position <= |before.messages|)
            && (r.Ok? ==>
                  && c < |after.conversations| && m < |after.conversations[c].members|
                  && after.conversations[c].members[m].lastRead >= position
                  && after.conversations[c].members[m].lastRead >= before.members[m].lastRead
                  && r.value == UnreadOf(after.conversations[c], m)
                  && (position == |before.messages| ==> r.value == 0))
  {
    var (r, after) := MarkRead(o, actor, kind, c, position);
    assert ConversationSound(o.conversations[c]);
    if r.Ok? {
      ReadSound(o, actor, kind, c, position);
      var next, m := after.conversations[c], Access(o, actor, kind, c).value;
      assert ConversationSound(next);
      UnreadCountsThePeer(next, m);
      if position == |next.messages| { assert FromOthers(next.messages, m, next.members[m].lastRead, position) == {}; }
    }
  }

  // ---- incremental reading ----

  datatype Event = Happens(step: Step) | Fetch(pageSize: Option<int>)

  function Highest(seen: seq<Message>): nat {
    if seen == [] then 0 else seen[|seen| - 1].number
  }

  /** One more request for what came after the highest number seen. */
  function Fetched(o: Office, actor: int, kind: AccessKind, c: nat, seen: seq<Message>,
                   pageSize: Option<int>): seq<Message> {
    match ListMessages(o, actor, kind, c, None, Some(Highest(seen)))
    case Ok(messages) => seen + PageOf(messages, 1, pageSize)
    case Err(_) => seen
  }

  /** A reader who keeps fetching while others keep working. */
  function Follow(o: Office, actor: int, kind: AccessKind, c: nat, events: seq<Event>): (Office, seq<Message>) {
    if events == [] then (o, [])
    else
      var (now, seen) := Follow(o, actor, kind, c, events[..|events| - 1]);
      match events[|events| - 1]
      case Happens(step) => (After(now, step), seen)
      case Fetch(pageSize) => (now, Fetched(now, actor, kind, c, seen, pageSize))
  }

  lemma FirstPage<T>(items: seq<T>, requested: Option<int>)
    ensures PageOf(items, 1, requested)
              == if PageSize(requested) <= |items| then items[..PageSize(requested)] else items
  {
    assert (1 - 1) * PageSize(requested) == 0;
  }

  /** The first n pages one after another. */
  function Pages<T>(items: seq<T>, n: nat, requested: Option<int>): seq<T> {
    if n == 0 then [] else Pages(items, n - 1, requested) + PageOf(items, n, requested)
  }

  function Piece<T>(items: seq<T>, from: nat, to: nat): seq<T>
    requires from <= to
  {
    if from >= |items| then [] else if to <= |items| then items[from..to] else items[from..]
  }

  lemma PageIsPiece<T>(items: seq<T>, n: nat, requested: Option<int>, from: nat)
    requires n >= 1 && from == (n - 1) * PageSize(requested)
    ensures PageOf(items, n, requested) == Piece(items, from, from + PageSize(requested))
  {
  }

  lemma PiecesJoin<T>(items: seq<T>, from: nat, to: nat)
    requires from <= to
    ensures Piece(items, 0, from) + Piece(items, from, to) == Piece(items, 0, to)
  {
  }

  /** How many items the first n pages have room for. */
  function RoomOf(n: nat, size: nat): nat {
    if n == 0 then 0 else RoomOf(n - 1, size) + size
  }

  lemma {:induction false} RoomIsProduct(n: nat, size: nat)
    ensures RoomOf(n, size) == n * size
  {
    if n > 0 {
      RoomIsProduct(n - 1, size);
      assert n * size == (n - 1) * size + size;
    }
  }

  /** The pages of a listing are the listing cut into pieces of the page size, nothing left out and nothing twice. */
  lemma {:induction false} PagesCutTheListing<T>(items: seq<T>, n: nat, requested: Option<int>)
    ensures Pages(items, n, requested) == Piece(items, 0, RoomOf(n, PageSize(requested)))
  {
    if n > 0 {
      var size := PageSize(requested);
      PagesCutTheListing(items, n - 1, requested);
      RoomIsProduct(n - 1, size);
      PageIsPiece(items, n, requested, RoomOf(n - 1, size));
      PiecesJoin(items, RoomOf(n - 1, size), RoomOf(n, size));
    }
  }

  predicate Prefix(o: Office, c: nat, seen: seq<Message>) {
    if c < |o.conversations| then seen <= o.conversations[c].messages else seen == []
  }

  /** In a gapless log, what comes after and before a number are a suffix and a prefix. */
  lemma GaplessListing(c: Conversation, after: nat, before: nat)
    requires Gapless(c) && after <= |c.messages| && 1 <= before <= |c.messages| + 1
    ensures Between(BySeq(c.messages), after, None) == c.messages[after..]
    ensures Between(BySeq(c.messages), -1, Some(before)) == c.messages[..before - 1]
  {
    GaplessSorted(c);
    assert c.messages[..|c.messages|] == c.messages;
    BetweenAfter(c, |c.messages|, after);
    BetweenBefore(c, |c.messages|, before);
  }

  lemma ListedAfter(o: Office, actor: int, kind: AccessKind, c: nat, after: nat)
    requires Access(o, actor, kind, c).Ok? && Gapless(o.conversations[c]) && after <= |o.conversations[c].messages|
    ensures ListMessages(o, actor, kind, c, None, Some(after)) == Ok(o.conversations[c].messages[after..])
  {
    GaplessListing(o.conversations[c], after, 1);
  }

  lemma ListedBefore(o: Office, actor: int, kind: AccessKind, c: nat, before: int)
    requires Access(o, actor, kind, c).Ok? && Gapless(o.conversations[c])
    requires 1 <= before <= |o.conversations[c].messages| + 1
    ensures ListMessages(o, actor, kind, c, Some(before), None)
              == Ok(Reversed(o.conversations[c].messages[..before - 1]))
  {
    GaplessListing(o.conversations[c], 0, before);
  }

  lemma NextPiece(messages: seq<Message>, seen: seq<Message>, requested: Option<int>)
    requires seen <= messages
    ensures var got := seen + PageOf(messages[|seen|..], 1, requested);
            && got <= messages
            && |got| == if |seen| + PageSize(requested) <= |messages| then |seen| + PageSize(requested) else |messages|
  {
    FirstPage(messages[|seen|..], requested);
    assert messages == seen + messages[|seen|..];
  }

  lemma HighestIsLength(c: Conversation, seen: seq<Message>)
    requires Gapless(c) && seen <= c.messages
    ensures Highest(seen) == |seen|
  {
  }

  /** A fetch after the highest number seen gets the next messages, as many as the page holds or all that are left. */
  lemma FetchesNext(o: Office, actor: int, kind: AccessKind, c: nat, seen: seq<Message>, pageSize: Option<int>)
    requires Sound(o) && Prefix(o, c, seen) && Access(o, actor, kind, c).Ok?
    ensures var messages, got := o.conversations[c].messages, Fetched(o, actor, kind, c, seen, pageSize);
            && got <= messages
            && |got| == if |seen| + PageSize(pageSize) <= |messages| then |seen| + PageSize(pageSize) else |messages|
  {
    assert ConversationSound(o.conversations[c]);
    HighestIsLength(o.conversations[c], seen);
    ListedAfter(o, actor, kind, c, |seen|);
    NextPiece(o.conversations[c].messages, seen, pageSize);
  }

  /**
   However the fetches are paged and whatever is sent in between, what was read
   is the log from its first message: no gap, no repeat.
   */
  lemma {:induction false} FollowingMissesNothing(o: Office, actor: int, kind: AccessKind, c: nat, events: seq<Event>)
    requires Sound(o)
    ensures var (now, seen) := Follow(o, actor, kind, c, events); Sound(now) && Prefix(now, c, seen)
  {
    if events != [] {
      var front := events[..|events| - 1];
      FollowingMissesNothing(o, actor, kind, c, front);
      var (now, seen) := Follow(o, actor, kind, c, front);
      match events[|events| - 1]
      case Happens(step) =>
        StepSound(now, step);
        if c < |now.conversations| {
          assert ConversationForward(now.conversations[c], After(now, step).conversations[c]);
        }
      case Fetch(pageSize) =>
        if Access(now, actor, kind, c).Ok? { FetchesNext(now, actor, kind, c, seen, pageSize); }
    }
  }

  lemma ReversedFront(messages: seq<Message>, k: nat, n: nat)
    requires n <= k <= |messages|
    ensures Reversed(messages[..k])[..n] == Reversed(messages[k - n..k])
  {
  }

  /** A page of history holds the messages just before a number, latest first. */
  lemma HistoryPage(o: Office, actor: int, kind: AccessKind, c: nat, before: int, pageSize: Option<int>)
    requires Sound(o) && Access(o, actor, kind, c).Ok? && 1 <= before <= |o.conversations[c].messages| + 1
    ensures var messages, n
                := o.conversations[c].messages,
                   if before - 1 < PageSize(pageSize) then before - 1 else PageSize(pageSize);
            var listed := ListMessages(o, actor, kind, c, Some(before), None);
            listed.Ok? && PageOf(listed.value, 1, pageSize) == Reversed(messages[before - 1 - n..before - 1])
  {
    assert ConversationSound(o.conversations[c]);
    ListedBefore(o, actor, kind, c, before);
    FirstPage(Reversed(o.conversations[c].messages[..before - 1]), pageSize);
    ReversedFront(o.conversations[c].messages, before - 1,
                  if before - 1 < PageSize(pageSize) then before - 1 else PageSize(pageSize));
  }

  // ---- direct conversations ----

  lemma FoundKey(conversations: seq<Conversation>, c: nat)
    requires KeysUnique(conversations) && c < |conversations|
    ensures FindKey(conversations, conversations[c].namespace, conversations[c].key, 0) == Some(c)
  {
  }

  lemma DirectFinds(o: Office, a: int, b: int, c: nat)
    requires Sound(o) && c < |o.conversations| && o.conversations[c].namespace == DIRECT_NAMESPACE
    requires o.conversations[c].key == PairKey(a, b)
    ensures GetOrCreateDirect(o, a, b).1 == o
    ensures (GetOrCreateDirect(o, a, b).0.Ok? ==> GetOrCreateDirect(o, a, b).0 == Ok(c))
  {
    FoundKey(o.conversations, c);
  }

  lemma OpenedForBoth(namespace: int, key: ConversationKey, context: int, specs: seq<Participant>)
    requires |specs| == 2
    ensures SameParticipants(Opened(namespace, key, context, specs).members, specs)
  {
    var members := Opened(namespace, key, context, specs).members;
    assert members[0].user == Some(specs[0].user) && members[1].user == Some(specs[1].user);
    assert Participant(specs[0].user, specs[0].kind) == specs[0]
           && Participant(specs[1].user, specs[1].kind) == specs[1];
  }

  /** The direct conversation someone gets has exactly the two accounts as members. */
  lemma DirectOpens(o: Office, a: int, b: int)
    requires GetOrCreateDirect(o, a, b).0.Ok?
    ensures var (r, after) := GetOrCreateDirect(o, a, b);
            && r.value < |after.conversations|
            && after.conversations[r.value].namespace == DIRECT_NAMESPACE
            && after.conversations[r.value].key == PairKey(a, b)
            && SameParticipants(after.conversations[r.value].members,
                                [Participant(a, OrganizationMember), Participant(b, OrganizationMember)])
  {
    OpenedForBoth(DIRECT_NAMESPACE, PairKey(a, b), 0,
                  [Participant(a, OrganizationMember), Participant(b, OrganizationMember)]);
  }

  /** Asking for the direct conversation of two accounts, either way round, opens nothing and gets c or an error. */
  predicate Shared(o: Office, a: int, b: int, c: nat) {
    && GetOrCreateDirect(o, a, b).1 == o && (GetOrCreateDirect(o, a, b).0.Ok? ==> GetOrCreateDirect(o, a, b).0 == Ok(c))
    && GetOrCreateDirect(o, b, a).1 == o && (GetOrCreateDirect(o, b, a).0.Ok? ==> GetOrCreateDirect(o, b, a).0 == Ok(c))
  }

  lemma SharedEverAfter(o: Office, a: int, b: int, c: nat, steps: seq<Step>)
    requires Sound(o) && c < |o.conversations| && o.conversations[c].namespace == DIRECT_NAMESPACE
    requires o.conversations[c].key == PairKey(a, b)
    ensures Shared(Run(o, steps), a, b, c)
  {
    RunSound(o, steps);
    var later := Run(o, steps);
    assert ConversationForward(o.conversations[c], later.conversations[c]);
    DirectFinds(later, a, b, c);
    DirectFinds(later, b, a, c);
  }

  lemma DirectSound(o: Office, a: int, b: int)
    requires Sound(o)
    ensures Sound(GetOrCreateDirect(o, a, b).1)
  {
    StepSound(o, OpenDirect(a, b));
  }

  /**
   Two accounts share one direct conversation: whoever asks, and whenever, gets
   that one or an error, and no other is ever opened for them.
   */
  lemma OneDirectConversationPerPair(o: Office, a: int, b: int, steps: seq<Step>)
    requires Sound(o) && GetOrCreateDirect(o, a, b).0.Ok?
    ensures Shared(Run(GetOrCreateDirect(o, a, b).1, steps), a, b, GetOrCreateDirect(o, a, b).0.value)
  {
    DirectOpens(o, a, b);
    DirectSound(o, a, b);
    SharedEverAfter(GetOrCreateDirect(o, a, b).1, a, b, GetOrCreateDirect(o, a, b).0.value, steps);
  }

  // ---- content ----

  lemma {:induction false} LineFeedsLeaveNoReturn(s: string)
    ensures '\r' !in LineFeeds(s)
    decreases |s|
  {
    if s != [] {
      if s[0] == '\r' && |s| > 1 && s[1] == '\n' { LineFeedsLeaveNoReturn(s[2..]); } else {
        LineFeedsLeaveNoReturn(s[1..]);
      }
    }
  }

  lemma {:induction false} LineFeedsKeep(s: string)
    requires '\r' !in s
    ensures LineFeeds(s) == s
  {
    if s != [] { LineFeedsKeep(s[1..]); }
  }

  lemma {:induction false} StripLeftEnds(s: string)
    ensures var t := StripLeft(s); |t| <= |s| && t == s[|s| - |t|..] && (t != [] ==> !IsSpace(t[0]))
  {
    if s != [] && IsSpace(s[0]) { StripLeftEnds(s[1..]); }
  }

  lemma {:induction false} StripRightEnds(s: string)
    ensures var t := StripRight(s); t <= s && (t != [] ==> !IsSpace(t[|t| - 1]))
  {
    if s != [] && IsSpace(s[|s| - 1]) { StripRightEnds(s[..|s| - 1]); }
  }

  /** Normalizing what is stored changes nothing, so sending the stored content again is an identical retry. */
  lemma NormalizedOnce(draft: Draft)
    requires BodyOf(draft).Ok?
    ensures var body := BodyOf(draft).value;
            BodyOf(Draft(body.content, body.kind, body.payload, body.media, true)) == Ok(body)
  {
    var feeds := LineFeeds(draft.content);
    var left := StripLeft(feeds);
    var content := StripRight(left);
    LineFeedsLeaveNoReturn(draft.content);
    StripLeftEnds(feeds);
    StripRightEnds(left);
    assert '\r' !in content;
    LineFeedsKeep(content);
    assert content[0] == left[0];
    StripsNothing(content);
  }

  lemma StripsNothing(s: string)
    requires s != [] && !IsSpace(s[0]) && !IsSpace(s[|s| - 1])
    ensures StripRight(StripLeft(s)) == s
  {
  }
}
