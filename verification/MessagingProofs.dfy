/** What every run of the messaging steps keeps. */
module MessagingProofs {
  import opened Wrappers
  import opened Ordering
  import opened Messaging

  // ---- invariants ----

  /** The numbers are exactly 1 to the last one, and the last message is the highest. */
  predicate Gapless(c: Conversation) {
    && c.lastNumber == |c.messages|
    && (forall i :: 0 <= i < |c.messages| ==> c.messages[i].number == i + 1)
    && c.lastMessage == if c.messages == [] then None else Some(|c.messages| - 1)
  }

  predicate OncePerRequest(messages: seq<Message>) {
    forall i, j :: 0 <= i < j < |messages| ==>
        !(messages[i].sender == messages[j].sender && messages[i].clientId == messages[j].clientId)
  }

  /** Two members, with different accounts while they have any, whose cursors stay within the log. */
  predicate MembersSound(c: Conversation) {
    && |c.members| == 2
    && (c.members[0].user == c.members[1].user ==> c.members[0].user.None?)
    && (forall m :: 0 <= m < |c.members| ==> c.members[m].lastRead <= c.lastNumber)
    && (forall i :: 0 <= i < |c.messages| ==> c.messages[i].sender < |c.members|)
  }

  predicate ConversationSound(c: Conversation) {
    Gapless(c) && OncePerRequest(c.messages) && MembersSound(c)
  }

  predicate KeysUnique(conversations: seq<Conversation>) {
    forall i, j :: 0 <= i < j < |conversations| ==>
        !(conversations[i].namespace == conversations[j].namespace && conversations[i].key == conversations[j].key)
  }

  predicate Sound(o: Office) {
    KeysUnique(o.conversations) && forall c :: 0 <= c < |o.conversations| ==> ConversationSound(o.conversations[c])
  }

  predicate MemberForward(a: Member, b: Member) {
    && a.kind == b.kind && a.lastRead <= b.lastRead && (a.revoked ==> b.revoked)
    && (b.user == a.user || b.user.None?)
  }

  /** Messages are only added, cursors only advance, and closing, revoking and losing an account are for good. */
  predicate ConversationForward(a: Conversation, b: Conversation) {
    && a.namespace == b.namespace && a.key == b.key && a.context == b.context && (a.closed ==> b.closed)
    && a.messages <= b.messages && |a.members| == |b.members|
    && forall m :: 0 <= m < |a.members| ==> MemberForward(a.members[m], b.members[m])
  }

  predicate Forward(a: Office, b: Office) {
    && |a.conversations| <= |b.conversations|
    && forall c :: 0 <= c < |a.conversations| ==> ConversationForward(a.conversations[c], b.conversations[c])
  }

  lemma ForwardTransitive(a: Office, b: Office, c: Office)
    requires Forward(a, b) && Forward(b, c)
    ensures Forward(a, c)
  {
    forall k | 0 <= k < |a.conversations| ensures ConversationForward(a.conversations[k], c.conversations[k]) {
      assert ConversationForward(a.conversations[k], b.conversations[k])
             && ConversationForward(b.conversations[k], c.conversations[k]);
      forall m | 0 <= m < |a.conversations[k].members|
        ensures MemberForward(a.conversations[k].members[m], c.conversations[k].members[m])
      {
        assert MemberForward(a.conversations[k].members[m], b.conversations[k].members[m]);
      }
    }
  }

  // ---- steps ----

  /** One conversation was replaced by a later, sound form of itself. */
  lemma Replaced(o: Office, c: nat, next: Conversation)
    requires Sound(o) && c < |o.conversations| && ConversationSound(next)
    requires ConversationForward(o.conversations[c], next)
    ensures var after := o.(conversations := o.conversations[c := next]); Sound(after) && Forward(o, after)
  {
  }

  lemma SendSound(o: Office, actor: int, kind: AccessKind, c: nat, clientId: int, draft: Draft)
    requires Sound(o)
    ensures var after := SendMessage(o, actor, kind, c, clientId, draft).1; Sound(after) && Forward(o, after)
  {
    var (r, after) := SendMessage(o, actor, kind, c, clientId, draft);
    if after != o {
      var next := after.conversations[c];
      assert ConversationSound(o.conversations[c]);
      assert next == Appended(o.conversations[c], r.value.message);
      Replaced(o, c, next);
    }
  }

  lemma ReadSound(o: Office, actor: int, kind: AccessKind, c: nat, position: int)
    requires Sound(o)
    ensures var after := MarkRead(o, actor, kind, c, position).1; Sound(after) && Forward(o, after)
  {
    var after := MarkRead(o, actor, kind, c, position).1;
    if after != o {
      assert ConversationSound(o.conversations[c]);
      Replaced(o, c, after.conversations[c]);
    }
  }

  lemma OpenSound(o: Office, actor: int, namespace: int, key: ConversationKey, context: int, specs: seq<Participant>)
    requires Sound(o)
    ensures var after := GetOrCreate(o, actor, namespace, key, context, specs).1; Sound(after) && Forward(o, after)
  {
    var after := GetOrCreate(o, actor, namespace, key, context, specs).1;
    if after != o { assert ConversationSound(Opened(namespace, key, context, specs)); }
  }

  lemma RevokeSound(o: Office, c: nat, user: int)
    requires Sound(o)
    ensures Sound(RevokeParticipant(o, c, user).1) && Forward(o, RevokeParticipant(o, c, user).1)
  {
    if o.active && c < |o.conversations| {
      assert ConversationSound(o.conversations[c]);
      Replaced(o, c, RevokeParticipant(o, c, user).1.conversations[c]);
    }
  }

  /** Every conversation was replaced by a later, sound form of itself. */
  lemma AllReplaced(o: Office, after: Office)
    requires Sound(o) && |after.conversations| == |o.conversations|
    requires forall c :: 0 <= c < |o.conversations| ==>
               ConversationSound(after.conversations[c])
               && ConversationForward(o.conversations[c], after.conversations[c])
    ensures Sound(after) && Forward(o, after)
  {
    forall i, j | 0 <= i < j < |after.conversations|
      ensures !(after.conversations[i].namespace == after.conversations[j].namespace
                && after.conversations[i].key == after.conversations[j].key)
    {
      assert ConversationForward(o.conversations[i], after.conversations[i])
             && ConversationForward(o.conversations[j], after.conversations[j]);
    }
  }

  lemma CloseSound(o: Office, namespace: int, context: int)
    requires Sound(o)
    ensures Sound(CloseContext(o, namespace, context).1) && Forward(o, CloseContext(o, namespace, context).1)
  {
    var after := CloseContext(o, namespace, context).1;
    forall c | 0 <= c < |o.conversations|
      ensures ConversationSound(after.conversations[c])
      ensures ConversationForward(o.conversations[c], after.conversations[c])
    {
      assert ConversationSound(o.conversations[c]);
    }
    AllReplaced(o, after);
  }

  lemma DeleteSound(o: Office, user: int)
    requires Sound(o)
    ensures Sound(After(o, DeleteUser(user))) && Forward(o, After(o, DeleteUser(user)))
  {
    var after := After(o, DeleteUser(user));
    forall c | 0 <= c < |o.conversations|
      ensures ConversationSound(after.conversations[c])
      ensures ConversationForward(o.conversations[c], after.conversations[c])
    {
      assert ConversationSound(o.conversations[c]);
    }
    AllReplaced(o, after);
  }

  lemma StepSound(o: Office, step: Step)
    requires Sound(o)
    ensures Sound(After(o, step)) && Forward(o, After(o, step))
  {
    match step
    case Send(actor, kind, c, clientId, draft) => SendSound(o, actor, kind, c, clientId, draft);
    case Read(actor, kind, c, position) => ReadSound(o, actor, kind, c, position);
    case Open(actor, namespace, key, context, specs) => OpenSound(o, actor, namespace, key, context, specs);
    case OpenDirect(actor, peer) =>
      OpenSound(o, actor, DIRECT_NAMESPACE, PairKey(actor, peer), 0,
                [Participant(actor, OrganizationMember), Participant(peer, OrganizationMember)]);
    case Revoke(c, user) => RevokeSound(o, c, user);
    case Close(namespace, context) => CloseSound(o, namespace, context);
    case ChangeOrganization(_, _, _) =>
    case DeleteUser(user) => DeleteSound(o, user);
  }

  /** In every run the log stays gapless and free of duplicates, cursors stay within it, and nothing moves backwards. */
  lemma {:induction false} RunSound(o: Office, steps: seq<Step>)
    requires Sound(o)
    ensures Sound(Run(o, steps)) && Forward(o, Run(o, steps))
  {
    if steps != [] {
      var front := steps[..|steps| - 1];
      RunSound(o, front);
      StepSound(Run(o, front), steps[|steps| - 1]);
      ForwardTransitive(o, Run(o, front), Run(o, steps));
    }
  }

  // ---- listings ----

  /** Sorting a gapless log by number changes nothing. */
  lemma GaplessSorted(c: Conversation)
    requires Gapless(c)
    ensures BySeq(c.messages) == c.messages
  {
    var messages := c.messages;
    var keys := seq(|messages|, i requires 0 <= i < |messages| => Key(messages[i].number, 0, 0));
    var order := Order(keys);
    OrderRanked(keys);
    forall i | 0 <= i < |order| ensures order[i] == i { RankIsPlace(keys, order, i); }
  }

  /** When keys ascend with their positions, the ranking lists the positions themselves. */
  lemma {:induction false} RankIsPlace(keys: seq<Key>, order: seq<nat>, i: nat)
    requires InRange(keys, order) && Ranked(keys, order) && |order| == |keys| && i < |order|
    requires forall a, b :: 0 <= a < b < |keys| ==> KeyLess(keys[a], keys[b])
    requires forall p: nat :: p < |keys| ==> p in order
    ensures order[i] == i
  {
    if i > 0 { forall k: nat | k < i ensures order[k] == k { RankIsPlace(keys, order, k); } }
    var p := PositionOf(keys, order, i);
    RankCompare(keys, order, i, p);
    if order[i] < i { RankCompare(keys, order, order[i], i); }
  }

  lemma {:induction false} BetweenAfter(c: Conversation, n: nat, after: nat)
    requires Gapless(c) && n <= |c.messages|
    ensures Between(c.messages[..n], after, None) == if after <= n then c.messages[after..n] else []
  {
    if n > 0 {
      assert c.messages[..n][..n - 1] == c.messages[..n - 1];
      BetweenAfter(c, n - 1, after);
    }
  }

  lemma {:induction false} BetweenBefore(c: Conversation, n: nat, before: int)
    requires Gapless(c) && n <= |c.messages| && before >= 1
    ensures Between(c.messages[..n], -1, Some(before))
              == if before - 1 <= n then c.messages[..before - 1] else c.messages[..n]
  {
    if n > 0 {
      assert c.messages[..n][..n - 1] == c.messages[..n - 1];
      BetweenBefore(c, n - 1, before);
    }
  }
}
