/** The conversations of one organization: sequenced messages, idempotent sends, read cursors and listings. */
module Messaging {
  import opened Wrappers
  import opened Ordering

  datatype AccessKind = OrganizationMember | BusinessParty

  /** An account that was deleted leaves its member without a user. */
  datatype Member = Member(user: Option<int>, kind: AccessKind, lastRead: nat, revoked: bool)

  /** Type, card data and images are compared as wholes. */
  datatype Body = Body(content: string, kind: string, payload: int, media: seq<int>)
  datatype Message = Message(number: nat, sender: nat, clientId: int, body: Body)

  /** A key is free text or the ordered pair of two accounts. */
  datatype ConversationKey = Named(name: int) | Pair(low: int, high: int)

  const DIRECT_NAMESPACE := 0

  datatype Conversation = Conversation(
    namespace: int, key: ConversationKey, context: int, closed: bool, lastNumber: nat, lastMessage: Option<nat>,
    members: seq<Member>, messages: seq<Message>)

  /** The organization, its active accounts, its members, and its conversations by id. */
  datatype Office = Office(active: bool, users: set<int>, staff: set<int>, conversations: seq<Conversation>)

  datatype MessagingError = NotAuthenticated | NotFound | InvalidContent | IdempotencyConflict | ConversationClosed
                          | PeerUnavailable | InvalidPosition | InvalidScope | KeyConflict

  // ---- access ----

  predicate Entitled(o: Office, actor: int, kind: AccessKind) {
    o.active && (kind == OrganizationMember ==> actor in o.staff)
  }

  function MemberFrom(members: seq<Member>, actor: int, kind: AccessKind, from: nat): (m: Option<nat>)
    requires from <= |members|
    ensures m.Some? ==> m.value < |members| && members[m.value].user == Some(actor) && !members[m.value].revoked
                         && members[m.value].kind == kind
    decreases |members| - from
  {
    if from == |members| then None
    else if members[from].user == Some(actor) && members[from].kind == kind && !members[from].revoked then Some(from)
    else MemberFrom(members, actor, kind, from + 1)
  }

  /** The actor's place in a conversation, if the actor may enter it in this role. */
  function Access(o: Office, actor: int, kind: AccessKind, c: nat): (r: Result<nat, MessagingError>)
    ensures r.Ok? ==> c < |o.conversations| && r.value < |o.conversations[c].members|
  {
    if actor !in o.users then Err(NotAuthenticated)
    else if !Entitled(o, actor, kind) || c >= |o.conversations| then Err(NotFound)
    else match MemberFrom(o.conversations[c].members, actor, kind, 0)
      case None => Err(NotFound)
      case Some(m) => Ok(m)
  }

  predicate MemberAvailable(o: Office, m: Member) {
    m.user.Some? && m.user.value in o.users && !m.revoked && (m.kind == OrganizationMember ==> m.user.value in o.staff)
  }

  predicate PeersAvailable(o: Office, members: seq<Member>) {
    |members| == 2 && forall i :: 0 <= i < |members| ==> MemberAvailable(o, members[i])
  }

  // ---- content ----

  const MAX_CONTENT_LENGTH := 2000

  predicate IsSpace(ch: char) {
    ch in " \t\n\r" || ch == 11 as char || ch == 12 as char
    || 28 as char <= ch <= 31 as char
    || ch == 133 as char || ch == 160 as char
    || ch == '\U{1680}' || '\U{2000}' <= ch <= '\U{200a}'
    || ch == '\U{2028}' || ch == '\U{2029}' || ch == '\U{202f}'
    || ch == '\U{205f}' || ch == '\U{3000}'
  }

  /** Carriage returns, alone or before a line feed, become line feeds. */
  function LineFeeds(s: string): string {
    if s == [] then []
    else if s[0] == '\r' then ['\n'] + (if |s| > 1 && s[1] == '\n' then LineFeeds(s[2..]) else LineFeeds(s[1..]))
    else [s[0]] + LineFeeds(s[1..])
  }

  function StripLeft(s: string): string {
    if s != [] && IsSpace(s[0]) then StripLeft(s[1..]) else s
  }

  function StripRight(s: string): string {
    if s != [] && IsSpace(s[|s| - 1]) then StripRight(s[..|s| - 1]) else s
  }

  function Normalized(s: string): string { StripRight(StripLeft(LineFeeds(s))) }

  predicate TypeNameValid(s: string) {
    && 1 <= |s| <= 64 && 'a' <= s[0] <= 'z'
    && forall i :: 1 <= i < |s| ==> 'a' <= s[i] <= 'z' || '0' <= s[i] <= '9' || s[i] == '_' || s[i] == '.'
  }

  /** Card data 0 is empty; fits says that card data and images pass their own checks. */
  datatype Draft = Draft(content: string, kind: string, payload: int, media: seq<int>, fits: bool)

  function BodyOf(draft: Draft): Result<Body, MessagingError> {
    var content := Normalized(draft.content);
    if content == "" || |content| > MAX_CONTENT_LENGTH || 0 as char in content then Err(InvalidContent)
    else if !TypeNameValid(draft.kind) || !draft.fits then Err(InvalidContent)
    else if draft.kind == "text" && (draft.payload != 0 || draft.media != []) then Err(InvalidContent)
    else Ok(Body(content, draft.kind, draft.payload, draft.media))
  }

  // ---- sending ----

  /** The position of the message a member already sent under a client id. */
  function SentFrom(messages: seq<Message>, sender: nat, clientId: int, from: nat): (i: Option<nat>)
    requires from <= |messages|
    ensures i.Some? ==>
              i.value < |messages| && messages[i.value].sender == sender && messages[i.value].clientId == clientId
    ensures i.None? ==> forall k :: from <= k < |messages| ==>
              !(messages[k].sender == sender && messages[k].clientId == clientId)
    decreases |messages| - from
  {
    if from == |messages| then None
    else if messages[from].sender == sender && messages[from].clientId == clientId then Some(from)
    else SentFrom(messages, sender, clientId, from + 1)
  }

  function Appended(c: Conversation, message: Message): Conversation {
    c.(messages := c.messages + [message], lastNumber := message.number, lastMessage := Some(|c.messages|))
  }

  datatype Sent = Sent(message: Message, created: bool)

  function SendMessage(o: Office, actor: int, kind: AccessKind, c: nat, clientId: int,
                       draft: Draft): (Result<Sent, MessagingError>, Office) {
    match BodyOf(draft)
    case Err(e) => (Err(e), o)
    case Ok(body) =>
      match Access(o, actor, kind, c)
      case Err(e) => (Err(e), o)
      case Ok(m) =>
        var conversation := o.conversations[c];
        var existing := SentFrom(conversation.messages, m, clientId, 0);
        if existing.Some? then
          var message := conversation.messages[existing.value];
          (if message.body == body then Ok(Sent(message, false)) else Err(IdempotencyConflict), o)
        else if conversation.closed then (Err(ConversationClosed), o)
        else if !PeersAvailable(o, conversation.members) then (Err(PeerUnavailable), o)
        else
          var message := Message(conversation.lastNumber + 1, m, clientId, body);
          (Ok(Sent(message, true)), o.(conversations := o.conversations[c := Appended(conversation, message)]))
  }

  // ---- reading ----

  /** The messages beyond a member's cursor that others sent. */
  function Unread(messages: seq<Message>, m: nat, cursor: nat): nat {
    if messages == [] then 0
    else
      var last := messages[|messages| - 1];
      Unread(messages[..|messages| - 1], m, cursor) + if last.number > cursor && last.sender != m then 1 else 0
  }

  function UnreadOf(c: Conversation, m: nat): nat
    requires m < |c.members|
  {
    Unread(c.messages, m, c.members[m].lastRead)
  }

  function MarkRead(o: Office, actor: int, kind: AccessKind, c: nat,
                    position: int): (Result<nat, MessagingError>, Office) {
    match Access(o, actor, kind, c)
    case Err(e) => (Err(e), o)
    case Ok(m) =>
      var conversation := o.conversations[c];
      if position < 0 || position > conversation.lastNumber then (Err(InvalidPosition), o)
      else
        var member := conversation.members[m];
        var moved := if position > member.lastRead then member.(lastRead := position) else member;
        var next := conversation.(members := conversation.members[m := moved]);
        (Ok(UnreadOf(next, m)), o.(conversations := o.conversations[c := next]))
  }

  function BySeq(messages: seq<Message>): (sorted: seq<Message>)
  {
    var order := Order(seq(|messages|, i requires 0 <= i < |messages| => Key(messages[i].number, 0, 0)));
    seq(|order|, i requires 0 <= i < |order| => messages[order[i]])
  }

  function Between(messages: seq<Message>, after: int, before: Option<int>): seq<Message> {
    if messages == [] then []
    else
      var front, last := Between(messages[..|messages| - 1], after, before), messages[|messages| - 1];
      if last.number > after && (before.Some? ==> last.number < before.value) then front + [last] else front
  }

  function Reversed(messages: seq<Message>): seq<Message> {
    seq(|messages|, i requires 0 <= i < |messages| => messages[|messages| - 1 - i])
  }

  /** Everything after a number in ascending order, or everything before one, latest first. */
  function ListMessages(o: Office, actor: int, kind: AccessKind, c: nat, before: Option<int>,
                        after: Option<int>): Result<seq<Message>, MessagingError> {
    match Access(o, actor, kind, c)
    case Err(e) => Err(e)
    case Ok(_) =>
      if (before.Some? && (before.value < 1 || after.Some?)) || (after.Some? && after.value < 0)
      then Err(InvalidPosition)
      else if after.Some? then Ok(Between(BySeq(o.conversations[c].messages), after.value, before))
      else Ok(Reversed(Between(BySeq(o.conversations[c].messages), -1, before)))
  }

  const DEFAULT_PAGE_SIZE := 20
  const MAX_PAGE_SIZE := 100

  function PageSize(requested: Option<int>): (n: nat)
    ensures 1 <= n <= MAX_PAGE_SIZE
  {
    var size := if requested.None? || requested.value == 0 then DEFAULT_PAGE_SIZE else requested.value;
    if size > MAX_PAGE_SIZE then MAX_PAGE_SIZE else if size < 1 then 1 else size
  }

  function PageOf<T>(items: seq<T>, page: int, requested: Option<int>): seq<T> {
    var offset := ((if page < 1 then 1 else page) - 1) * PageSize(requested);
    if offset < 0 || offset >= |items| then []
    else if offset + PageSize(requested) <= |items| then items[offset..offset + PageSize(requested)]
    else items[offset..]
  }

  // ---- opening and ending conversations ----

  datatype Participant = Participant(user: int, kind: AccessKind)

  function PairKey(a: int, b: int): ConversationKey {
    if a <= b then Pair(a, b) else Pair(b, a)
  }

  predicate ParticipantsValid(o: Office, actor: int, specs: seq<Participant>) {
    && |specs| == 2 && specs[0].user != specs[1].user && (actor == specs[0].user || actor == specs[1].user)
    && specs[0].user in o.users && specs[1].user in o.users
  }

  predicate DirectValid(key: ConversationKey, context: int, specs: seq<Participant>)
    requires |specs| == 2
  {
    specs[0].kind == OrganizationMember && specs[1].kind == OrganizationMember
    && context == 0
    && key == PairKey(specs[0].user, specs[1].user)
  }

  function FindKey(conversations: seq<Conversation>, namespace: int, key: ConversationKey, from: nat): (c: Option<nat>)
    requires from <= |conversations|
    ensures c.Some? ==>
            c.value < |conversations|
            && conversations[c.value].namespace == namespace
            && conversations[c.value].key == key
    ensures c.None? ==> forall k :: from <= k < |conversations| ==>
              !(conversations[k].namespace == namespace && conversations[k].key == key)
    decreases |conversations| - from
  {
    if from == |conversations| then None
    else if conversations[from].namespace == namespace && conversations[from].key == key then Some(from)
    else FindKey(conversations, namespace, key, from + 1)
  }

  /** The members that still have their account are exactly the two participants, in any order. */
  predicate SameParticipants(members: seq<Member>, specs: seq<Participant>)
    requires |specs| == 2
  {
    && (forall i :: 0 <= i < |members| ==>
          members[i].user.Some? && Participant(members[i].user.value, members[i].kind) in specs)
    && HasAccount(members, specs[0].user) && HasAccount(members, specs[1].user)
  }

  predicate HasAccount(members: seq<Member>, user: int) {
    exists i :: 0 <= i < |members| && members[i].user == Some(user)
  }

  function Opened(namespace: int, key: ConversationKey, context: int, specs: seq<Participant>): Conversation
    requires |specs| == 2
  {
    Conversation(namespace, key, context, false, 0, None,
                 [Member(Some(specs[0].user), specs[0].kind, 0, false),
                  Member(Some(specs[1].user), specs[1].kind, 0, false)], [])
  }

  /**
   The conversation with this key, opened first if there is none; opening stands
   even when the actor cannot see the result.
   */
  function GetOrCreate(o: Office, actor: int, namespace: int, key: ConversationKey, context: int,
                       specs: seq<Participant>)
    : (Result<nat, MessagingError>, Office)
  {
    if actor !in o.users then (Err(NotAuthenticated), o)
    else if !o.active then (Err(NotFound), o)
    else if !ParticipantsValid(o, actor, specs) then (Err(InvalidScope), o)
    else if exists s :: s in specs && s.kind == OrganizationMember && s.user !in o.staff then (Err(NotFound), o)
    else if namespace == DIRECT_NAMESPACE && !DirectValid(key, context, specs) then (Err(InvalidScope), o)
    else
      var found := FindKey(o.conversations, namespace, key, 0);
      if found.Some? && (o.conversations[found.value].context != context
                          || !SameParticipants(o.conversations[found.value].members, specs))
      then (Err(KeyConflict), o)
      else
        var next :=
          if found.Some? then o else o.(conversations := o.conversations + [Opened(namespace, key, context, specs)]);
        var c := if found.Some? then found.value else |o.conversations|;
        var mine := if specs[0].user == actor then specs[0].kind else specs[1].kind;
        (match Access(next, actor, mine, c) case Ok(_) => Ok(c) case Err(e) => Err(e), next)
  }

  function GetOrCreateDirect(o: Office, actor: int, peer: int): (Result<nat, MessagingError>, Office) {
    if actor !in o.users then (Err(NotAuthenticated), o)
    else if !Entitled(o, actor, OrganizationMember) then (Err(NotFound), o)
    else GetOrCreate(o, actor, DIRECT_NAMESPACE, PairKey(actor, peer), 0,
                     [Participant(actor, OrganizationMember), Participant(peer, OrganizationMember)])
  }

  function RevokedMembers(members: seq<Member>, user: int): seq<Member> {
    seq(|members|, i requires 0 <= i < |members| =>
          if members[i].user == Some(user)
          then members[i].(revoked := true)
          else members[i])
  }

  /** How many memberships of the user are still in force. */
  function InForce(members: seq<Member>, user: int): nat {
    if members == [] then 0
    else
      var last := members[|members| - 1];
      InForce(members[..|members| - 1], user) + if last.user == Some(user) && !last.revoked then 1 else 0
  }

  /** Revokes the user's membership, and says how many rows that changed. */
  function RevokeParticipant(o: Office, c: nat, user: int): (Result<nat, MessagingError>, Office) {
    if !o.active || c >= |o.conversations| then (Err(NotFound), o)
    else
      var members := o.conversations[c].members;
      (Ok(InForce(members, user)),
       o.(conversations := o.conversations[c := o.conversations[c].(members := RevokedMembers(members, user))]))
  }

  function ClosedIf(c: Conversation, namespace: int, context: int): Conversation {
    if c.namespace == namespace && c.context == context then c.(closed := true) else c
  }

  function ClosedAll(conversations: seq<Conversation>, namespace: int, context: int): seq<Conversation> {
    seq(|conversations|, i requires 0 <= i < |conversations| => ClosedIf(conversations[i], namespace, context))
  }

  function OpenIn(conversations: seq<Conversation>, namespace: int, context: int): nat {
    if conversations == [] then 0
    else
      var last := conversations[|conversations| - 1];
      OpenIn(conversations[..|conversations| - 1], namespace, context)
      + if last.namespace == namespace && last.context == context && !last.closed then 1 else 0
  }

  /** Closes the conversations of a context, and says how many were open; a blank context is refused. */
  function CloseContext(o: Office, namespace: int, context: int): (Result<nat, MessagingError>, Office) {
    if !o.active then (Err(NotFound), o)
    else if context == 0 then (Err(InvalidScope), o)
    else
      (Ok(OpenIn(o.conversations, namespace, context)),
       o.(conversations := ClosedAll(o.conversations, namespace, context)))
  }

  // ---- runs ----

  /** The account is deleted: its memberships stay without a user. */
  function WithoutUser(c: Conversation, user: int): Conversation {
    c.(members := seq(|c.members|, i requires 0 <= i < |c.members| =>
                        if c.members[i].user == Some(user)
                        then c.members[i].(user := None)
                        else c.members[i]))
  }

  datatype Step =
    | Send(actor: int, kind: AccessKind, c: nat, clientId: int, draft: Draft)
    | Read(actor: int, kind: AccessKind, c: nat, position: int)
    | Open(actor: int, namespace: int, key: ConversationKey, context: int, specs: seq<Participant>)
    | OpenDirect(actor: int, peer: int)
    | Revoke(c: nat, user: int)
    | Close(namespace: int, context: int)
    | ChangeOrganization(active: bool, users: set<int>, staff: set<int>)
    | DeleteUser(user: int)

  function After(o: Office, step: Step): Office {
    match step
    case Send(actor, kind, c, clientId, draft) => SendMessage(o, actor, kind, c, clientId, draft).1
    case Read(actor, kind, c, position) => MarkRead(o, actor, kind, c, position).1
    case Open(actor, namespace, key, context, specs) => GetOrCreate(o, actor, namespace, key, context, specs).1
    case OpenDirect(actor, peer) => GetOrCreateDirect(o, actor, peer).1
    case Revoke(c, user) => RevokeParticipant(o, c, user).1
    case Close(namespace, context) => CloseContext(o, namespace, context).1
    case ChangeOrganization(active, users, staff) => o.(active := active, users := users, staff := staff)
    case DeleteUser(user) =>
      o.(users := o.users - {user}, staff := o.staff - {user},
         conversations := seq(|o.conversations|,
                              i requires 0 <= i < |o.conversations| => WithoutUser(o.conversations[i], user)))
  }

  function Run(o: Office, steps: seq<Step>): Office {
    if steps == [] then o else After(Run(o, steps[..|steps| - 1]), steps[|steps| - 1])
  }

  function Start(active: bool, users: set<int>, staff: set<int>): Office {
    Office(active, users, staff, [])
  }
}
