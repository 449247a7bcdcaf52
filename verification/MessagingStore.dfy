/** The conversations as the messaging services update them in place, each method one transaction. */
module MessagingStore {
  import opened Wrappers
  import opened Messaging

  class Store {
    var active: bool
    var users: set<int>
    var staff: set<int>
    var conversations: seq<Conversation>

    function State(): Office
      reads this
    {
      Office(active, users, staff, conversations)
    }

    constructor (active: bool, users: set<int>, staff: set<int>)
      ensures State() == Start(active, users, staff)
    {
      this.active, this.users, this.staff, conversations := active, users, staff, [];
    }

    method SendMessage(actor: int, kind: AccessKind, c: nat, clientId: int, draft: Draft)
      returns (r: Result<Sent, MessagingError>)
      modifies this`conversations
      ensures (r, State()) == Messaging.SendMessage(old(State()), actor, kind, c, clientId, draft)
    {
      var body := BodyOf(draft);
      if body.Err? { return Err(body.error); }
      var seat := Access(State(), actor, kind, c);
      if seat.Err? { return Err(seat.error); }
      var conversation := conversations[c];
      var existing := SentFrom(conversation.messages, seat.value, clientId, 0);
      if existing.Some? {
        var message := conversation.messages[existing.value];
        return if message.body == body.value then Ok(Sent(message, false)) else Err(IdempotencyConflict);
      }
      if conversation.closed { return Err(ConversationClosed); }
      if !PeersAvailable(State(), conversation.members) { return Err(PeerUnavailable); }
      var message := Message(conversation.lastNumber + 1, seat.value, clientId, body.value);
      var position := |conversation.messages|;
      conversation := conversation.(messages := conversation.messages + [message]);
      conversation := conversation.(lastNumber := message.number, lastMessage := Some(position));
      conversations := conversations[c := conversation];
      r := Ok(Sent(message, true));
    }

    method MarkRead(actor: int, kind: AccessKind, c: nat, position: int) returns (r: Result<nat, MessagingError>)
      modifies this`conversations
      ensures (r, State()) == Messaging.MarkRead(old(State()), actor, kind, c, position)
    {
      var seat := Access(State(), actor, kind, c);
      if seat.Err? { return Err(seat.error); }
      var conversation := conversations[c];
      if position < 0 || position > conversation.lastNumber { return Err(InvalidPosition); }
      var member := conversation.members[seat.value];
      if position > member.lastRead { member := member.(lastRead := position); }
      conversation := conversation.(members := conversation.members[seat.value := member]);
      conversations := conversations[c := conversation];
      r := Ok(Unread(conversation.messages, seat.value, member.lastRead));
    }

    method GetOrCreate(actor: int, namespace: int, key: ConversationKey, context: int, specs: seq<Participant>)
      returns (r: Result<nat, MessagingError>)
      modifies this`conversations
      ensures (r, State()) == Messaging.GetOrCreate(old(State()), actor, namespace, key, context, specs)
    {
      if actor !in users { return Err(NotAuthenticated); }
      if !active { return Err(NotFound); }
      if !ParticipantsValid(State(), actor, specs) { return Err(InvalidScope); }
      if exists s :: s in specs && s.kind == OrganizationMember && s.user !in staff { return Err(NotFound); }
      if namespace == DIRECT_NAMESPACE && !DirectValid(key, context, specs) { return Err(InvalidScope); }
      var found := FindKey(conversations, namespace, key, 0);
      var c := |conversations|;
      if found.None? {
        conversations := conversations + [Opened(namespace, key, context, specs)];
      } else {
        c := found.value;
        if conversations[c].context != context || !SameParticipants(conversations[c].members, specs) {
          return Err(KeyConflict);
        }
      }
      var seat := Access(State(), actor, if specs[0].user == actor then specs[0].kind else specs[1].kind, c);
      r := if seat.Ok? then Ok(c) else Err(seat.error);
    }

    method GetOrCreateDirect(actor: int, peer: int) returns (r: Result<nat, MessagingError>)
      modifies this`conversations
      ensures (r, State()) == Messaging.GetOrCreateDirect(old(State()), actor, peer)
    {
      if actor !in users { return Err(NotAuthenticated); }
      if !Entitled(State(), actor, OrganizationMember) { return Err(NotFound); }
      r := GetOrCreate(actor, DIRECT_NAMESPACE, PairKey(actor, peer), 0,
                       [Participant(actor, OrganizationMember), Participant(peer, OrganizationMember)]);
    }

    method RevokeParticipant(c: nat, user: int) returns (r: Result<nat, MessagingError>)
      modifies this`conversations
      ensures (r, State()) == Messaging.RevokeParticipant(old(State()), c, user)
    {
      if !active || c >= |conversations| { return Err(NotFound); }
      var members := conversations[c].members;
      conversations := conversations[c := conversations[c].(members := RevokedMembers(members, user))];
      r := Ok(InForce(members, user));
    }

    /** Collects the conversations of the context, then closes those that are open. */
    method CloseContext(namespace: int, context: int) returns (r: Result<nat, MessagingError>)
      modifies this`conversations
      ensures (r, State()) == Messaging.CloseContext(old(State()), namespace, context)
    {
      if !active { return Err(NotFound); }
      if context == 0 { return Err(InvalidScope); }
      var before, closed := conversations, 0;
      for c := 0 to |conversations|
        invariant |conversations| == |before|
        invariant State() == old(State()).(conversations := conversations)
        invariant closed == OpenIn(before[..c], namespace, context)
        invariant forall i :: 0 <= i < |conversations| ==>
                    conversations[i] == if i < c then ClosedIf(before[i], namespace, context) else before[i]
      {
        assert before[..c + 1][..c] == before[..c];
        if conversations[c].namespace == namespace && conversations[c].context == context && !conversations[c].closed {
          conversations := conversations[c := conversations[c].(closed := true)];
          closed := closed + 1;
        }
      }
      assert before[..|before|] == before && conversations == ClosedAll(before, namespace, context);
      r := Ok(closed);
    }
  }
}
