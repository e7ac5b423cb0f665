/** The full outcome of every message operation: each refusal, each field of the message concerned, and what stays. */
module MessageOutcomes {
  import opened Ids
  import opened Lists
  import opened Messages
  import BlockFlags
  import C = Conversations
  import G = GroupRows

  /** The message is there, in that conversation. */
  ghost predicate Here(t: Table, conv: ConvId, id: MessageId) {
    id in t && t[id].conversationId == conv
  }

  /** A reply target that may be replied to. */
  ghost predicate MayReply(t: Table, conv: ConvId, to: Option<MessageId>) {
    to.Some? ==> Here(t, conv, to.value) && t[to.value].deletedForEveryoneAt.None?
  }

  /** Only the one message differs. */
  ghost predicate OnlyMessage(t: Table, next: Table, id: MessageId) {
    next.Keys == t.Keys && forall k :: k in t && k != id ==> next[k] == t[k]
  }

  // ---------------------------------------------------------------- membership and blocks

  /** What the membership check can answer. */
  predicate FromMembership(a: Access) {
    a == Granted || a == Refused(NoConversation) || a == Refused(NotAMember)
  }

  /** Access is granted exactly to active members of conversations that are there. */
  lemma AccessOutcome(chats: C.Table, conv: ConvId, actor: UserId)
    ensures var a := AccessIn(chats, conv, actor);
            var found := conv in chats && !chats[conv].deleted;
            && (a == Refused(NoConversation) <==> !found)
            && (a == Granted <==>
                  found && exists i :: G.ActiveAt(chats[conv].rows, i) && chats[conv].rows[i].userId == actor)
            && FromMembership(a)
  {
  }

  /** In a private chat the peer's block forbids a message and the sender's own withholds it; elsewhere blocks do not
      matter. */
  lemma DeliveryOutcome(chats: C.Table, conv: ConvId, actor: UserId, other: UserId, blocks: seq<BlockFlags.Block>)
    requires conv in chats
    ensures var d := DeliveryIn(chats, conv, actor, blocks);
            && (chats[conv].kind == C.GroupChat ==> d == Delivered)
            && (chats[conv].kind == C.PrivateChat && TheOther(chats[conv].rows, actor, other) ==>
                  && (d == Forbidden <==> BlockFlags.Block(other, actor) in blocks)
                  && (d == Withheld <==> BlockFlags.Block(actor, other) in blocks &&
                                         BlockFlags.Block(other, actor) !in blocks))
            && ((forall i :: G.ActiveAt(chats[conv].rows, i) ==> chats[conv].rows[i].userId == actor) ==>
                  d == Delivered)
  {
    OtherIsFirst(chats[conv].rows, actor);
  }

  /** The first active member who is not the actor. */
  ghost predicate TheOther(rows: seq<G.Row>, actor: UserId, other: UserId) {
    exists i :: G.ActiveAt(rows, i) && rows[i].userId == other && other != actor &&
                forall j :: 0 <= j < i && G.ActiveAt(rows, j) ==> rows[j].userId == actor
  }

  lemma {:induction false} OtherIsFirst(rows: seq<G.Row>, actor: UserId)
    ensures var o := BlockFlags.Other(rows, actor);
            && (o.None? <==> forall i :: G.ActiveAt(rows, i) ==> rows[i].userId == actor)
            && (forall other :: TheOther(rows, actor, other) ==> o == Some(other))
  {
    if rows != [] {
      OtherIsFirst(rows[1..], actor);
      assert forall i :: 0 < i && G.ActiveAt(rows, i) ==> G.ActiveAt(rows[1..], i - 1);
      assert forall i :: G.ActiveAt(rows[1..], i) ==> G.ActiveAt(rows, i + 1);
      forall other | TheOther(rows, actor, other) ensures BlockFlags.Other(rows, actor) == Some(other) {
        var i :| G.ActiveAt(rows, i) && rows[i].userId == other && other != actor &&
                 forall j :: 0 <= j < i && G.ActiveAt(rows, j) ==> rows[j].userId == actor;
        if i > 0 {
          assert G.ActiveAt(rows[1..], i - 1);
          assert TheOther(rows[1..], actor, other);
        }
      }
    }
  }

  // ---------------------------------------------------------------- sending and forwarding

  /** A message as it is first saved. */
  ghost predicate Fresh(m: Message, conv: ConvId, sender: UserId, createdAt: nat) {
    && m.conversationId == conv && m.senderId == sender && m.createdAt == createdAt
    && m.editedAt.None? && m.deletedForEveryoneAt.None? && m.pinnedAt.None? && m.pinnedByUserId.None?
  }

  lemma SendOutcome(t: Table, access: Access, delivery: Delivery, conv: ConvId, sender: UserId, draft: Draft,
                    lifetimeSeconds: nat, createdAt: nat, now: nat)
    requires FromMembership(access)
    ensures var r := Send(t, access, delivery, conv, sender, draft, lifetimeSeconds, createdAt, now);
            var empty := !draft.hasBody && (draft.attachment.None? || (draft.isCall && draft.systemCall));
            var forged := draft.isCall && !draft.systemCall && (draft.hasBody || draft.attachment.Some?);
            && (r == Err(EmptyBody) <==> empty)
            && (r == Err(ForgedCall) <==> forged)
            && (!empty && !forged && access.Refused? ==> r == Err(access.error))
            && (!empty && !forged && access.Granted? ==>
                  && (r == Err(CannotMessage) <==> !draft.isCall && delivery == Forbidden)
                  && (r == Err(BadReply) <==>
                        !draft.isCall && delivery != Forbidden && !MayReply(t, conv, draft.replyTo)))
            && (r.Ok? <==> !empty && !forged && access.Granted? &&
                           (draft.isCall || (delivery != Forbidden && MayReply(t, conv, draft.replyTo))))
            && (r.Ok? ==> Fresh(r.value, conv, sender, createdAt) && r.value.isCall == draft.isCall)
            && (r.Ok? && draft.isCall ==>
                  && r.value.replyTo.None? && r.value.attachmentUrl.None?
                  && !r.value.undelivered && r.value.expiresAt.None?)
            && (r.Ok? && !draft.isCall ==>
                  && r.value.replyTo == draft.replyTo && r.value.attachmentUrl == draft.attachment
                  && (r.value.undelivered <==> delivery == Withheld)
                  && r.value.expiresAt == if lifetimeSeconds == 0 then None else Some(now + lifetimeSeconds * 1000))
  {
  }

  lemma ForwardOutcome(t: Table, accessFrom: Access, accessTo: Access, delivery: Delivery, fromConv: ConvId,
                       id: MessageId, toConv: ConvId, actor: UserId, lifetimeSeconds: nat, createdAt: nat, now: nat)
    ensures var r := Forward(t, accessFrom, accessTo, delivery, fromConv, id, toConv, actor, lifetimeSeconds,
                             createdAt, now);
            var there := Here(t, fromConv, id) && t[id].deletedForEveryoneAt.None?;
            && (accessFrom.Refused? ==> r == Err(accessFrom.error))
            && (accessFrom.Granted? && accessTo.Refused? ==> r == Err(accessTo.error))
            && (accessFrom.Granted? && accessTo.Granted? ==>
                  && (r == Err(NotFound) <==> !there)
                  && (r == Err(CannotMessage) <==> there && delivery == Forbidden))
            && (r.Ok? <==> accessFrom.Granted? && accessTo.Granted? && there && delivery != Forbidden)
            && (r.Ok? ==>
                  && Fresh(r.value, toConv, actor, createdAt) && r.value.replyTo.None?
                  && r.value.isCall == t[id].isCall && r.value.attachmentUrl == t[id].attachmentUrl
                  && (r.value.undelivered <==> delivery == Withheld)
                  && r.value.expiresAt ==
                     if lifetimeSeconds == 0 || t[id].isCall then None else Some(now + lifetimeSeconds * 1000))
  {
  }

  // ---------------------------------------------------------------- editing and pinning

  /** Editing succeeds exactly on a member's own, undeleted message, at most 15 minutes old, with a body; then the edit
      is stamped and nothing else changes. */
  lemma EditOutcome(t: Table, access: Access, conv: ConvId, id: MessageId, actor: UserId, hasBody: bool, now: nat)
    ensures var (next, e) := Edit(t, access, conv, id, actor, hasBody, now);
            && (access.Refused? ==> e == Some(access.error))
            && (access.Granted? ==>
                  && (e == Some(NotFound) <==> !Here(t, conv, id))
                  && (Here(t, conv, id) ==>
                        var m := t[id];
                        var live := m.deletedForEveryoneAt.None?;
                        var late := now > m.createdAt / 1000 + 900000;
                        && (e == Some(NotSender) <==> m.senderId != actor)
                        && (e == Some(Deleted) <==> m.senderId == actor && !live)
                        && (e == Some(TooOld) <==> m.senderId == actor && live && late)
                        && (e == Some(EmptyBody) <==> m.senderId == actor && live && !late && !hasBody)
                        && (e.None? <==> m.senderId == actor && live && !late && hasBody)))
            && (e.Some? ==> next == t)
            && (e.None? ==> Here(t, conv, id) && OnlyMessage(t, next, id) && next[id] == t[id].(editedAt := Some(now)))
  {
  }

  /** Pinning: refused for deleted messages and call history, and when three others are pinned; a pin that is already as
      asked stays; otherwise it is set, with who and when, or taken away. */
  lemma PinOutcome(t: Table, access: Access, conv: ConvId, id: MessageId, actor: UserId, pinned: bool, now: nat)
    ensures var (next, e) := Pin(t, access, conv, id, actor, pinned, now);
            var pins := set k | k in t && t[k].conversationId == conv && t[k].pinnedAt.Some? &&
                              t[k].deletedForEveryoneAt.None?;
            && (access.Refused? ==> e == Some(access.error))
            && (access.Granted? ==>
                  && (e == Some(NotFound) <==> !Here(t, conv, id))
                  && (Here(t, conv, id) ==>
                        var m := t[id];
                        var live := m.deletedForEveryoneAt.None?;
                        var tooMany := pinned && m.pinnedAt.None? && |pins| >= 3;
                        && (e == Some(Deleted) <==> !live)
                        && (e == Some(CallHistory) <==> live && m.isCall)
                        && (e == Some(TooManyPinned) <==> live && !m.isCall && tooMany)
                        && (e.None? <==> live && !m.isCall && !tooMany)))
            && (e.Some? ==> next == t)
            && (e.None? ==>
                  && Here(t, conv, id) && OnlyMessage(t, next, id)
                  && next[id] == t[id].(pinnedAt := next[id].pinnedAt, pinnedByUserId := next[id].pinnedByUserId)
                  && (next[id].pinnedAt.Some? <==> pinned)
                  && (pinned && t[id].pinnedAt.Some? ==> next[id] == t[id])
                  && (pinned && t[id].pinnedAt.None? ==>
                        next[id].pinnedAt == Some(now) && next[id].pinnedByUserId == Some(actor))
                  && (!pinned && t[id].pinnedAt.Some? ==> next[id].pinnedByUserId.None?)
                  && (!pinned && t[id].pinnedAt.None? ==> next[id] == t[id]))
  {
    assert Pinned(t, conv) == set k | k in t && t[k].conversationId == conv && t[k].pinnedAt.Some? &&
                                    t[k].deletedForEveryoneAt.None?;
  }

  // ---------------------------------------------------------------- deleting and expiring

  /** Deleting for everyone succeeds exactly for the sender. A live message is then deleted since now, without file and
      pin, its old file handed out; one deleted before stays as it was. Deleting for oneself leaves the table alone. */
  lemma DeleteOutcome(t: Table, access: Access, conv: ConvId, id: MessageId, actor: UserId, forEveryone: bool, now: nat)
    ensures var (next, r) := Delete(t, access, conv, id, actor, forEveryone, now);
            && (access.Refused? ==> r == Err(access.error))
            && (access.Granted? ==>
                  && (r == Err(NotFound) <==> !Here(t, conv, id))
                  && (Here(t, conv, id) ==>
                        && (r == Err(NotSender) <==> forEveryone && actor != t[id].senderId)
                        && (r.Ok? <==> !forEveryone || actor == t[id].senderId)))
            && (r.Err? || !forEveryone ==> next == t)
            && (r.Ok? ==> r.value.forEveryone == forEveryone && (!forEveryone ==> r.value.removed.None?))
            && (r.Ok? && forEveryone ==>
                  && Here(t, conv, id) && OnlyMessage(t, next, id)
                  && next[id].deletedForEveryoneAt.Some?
                  && if t[id].deletedForEveryoneAt.Some? then next == t && r.value.removed.None?
                     else
                       && r.value.removed == Some(t[id].attachmentUrl)
                       && next[id] == t[id].(deletedForEveryoneAt := Some(now), attachmentUrl := None, pinnedAt := None,
                                             pinnedByUserId := None))
  {
  }

  /** An expiry pass turns the messages of its batch whose conversation is there into tombstones, takes the deadline of
      the others, and leaves every other message alone. */
  lemma ExpireOutcome(t: Table, batch: seq<MessageId>, live: set<ConvId>, now: nat)
    requires ExpiryBatch(t, batch, now)
    ensures var next := ExpireBatch(t, Elems(batch), live, now);
            && next.Keys == t.Keys
            && (forall id :: id in t && id !in batch ==> next[id] == t[id])
            && (forall id :: id in batch ==> id in t && t[id].deletedForEveryoneAt.None? && t[id].expiresAt.Some? &&
                                             t[id].expiresAt.value <= now)
            && (forall id :: id in batch && id in t && t[id].conversationId !in live ==>
                  next[id] == t[id].(expiresAt := None))
            && (forall id :: id in batch && id in t && t[id].conversationId in live ==>
                  next[id] == t[id].(deletedForEveryoneAt := Some(now), attachmentUrl := None, pinnedAt := None,
                                     pinnedByUserId := None, expiresAt := None))
            && |batch| <= 40
  {
    BatchIsStored(t, batch, now);
    NoDupSize(batch);
  }
}
