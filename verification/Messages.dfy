/** Messages: sending, forwarding, editing, pinning, deleting for everyone, hiding, and expiry. */
module Messages {
  import opened DeadlineQueue
  import opened GroupRows
  import opened Ids
  import opened Lists
  import BlockFlags
  import C = Conversations

  type MessageId = RowId
  type Url = nat

  const MAX_PINNED: nat := 3
  const PINNED_PAGE: nat := 10
  const EXPIRE_BATCH: nat := 40
  const EDIT_WINDOW_MS: nat := 15 * 60 * 1000
  const MICROS: nat := 1000

  /** `createdAt` is set by the database, in microseconds; the service sees it cut down to its millisecond, the unit
      of every other time. */
  datatype Message = Message(
    conversationId: ConvId,
    senderId: UserId,
    isCall: bool,
    createdAt: nat,
    replyTo: Option<MessageId>,
    attachmentUrl: Option<Url>,
    undelivered: bool,
    expiresAt: Option<nat>,
    editedAt: Option<nat>,
    deletedForEveryoneAt: Option<nat>,
    pinnedAt: Option<nat>,
    pinnedByUserId: Option<UserId>)

  type Table = map<MessageId, Message>

  /** What a client asks to have sent; `systemCall` marks call history written by the gateway itself. */
  datatype Draft = Draft(
    hasBody: bool,
    attachment: Option<Url>,
    isCall: bool,
    systemCall: bool,
    replyTo: Option<MessageId>)

  datatype MessageError =
    | NoConversation | NotAMember | NotFound | NotSender | Deleted | TooOld | EmptyBody | ForgedCall | CannotMessage
    | BadReply | CallHistory | TooManyPinned

  /** What `requireMembership` finds. */
  datatype Access = Granted | Refused(error: MessageError)

  /** What blocks do to a message in a private chat: the peer's block forbids it, the sender's own withholds it. */
  datatype Delivery = Delivered | Withheld | Forbidden

  /** The outcome of a deletion: for everyone or only for the caller, and the attachment to clean up, if this very
      deletion removed the message. */
  datatype Deletion = Deletion(forEveryone: bool, removed: Option<Option<Url>>)

  function AccessIn(chats: C.Table, conv: ConvId, actor: UserId): Access {
    if conv !in chats || chats[conv].deleted then Refused(NoConversation)
    else if !IsActiveMember(chats[conv].rows, actor) then Refused(NotAMember)
    else Granted
  }

  /** The conversations whose rows are still found. */
  function LiveChats(chats: C.Table): set<ConvId> {
    set c | c in chats.Keys && !chats[c].deleted
  }

  /** `resolvePrivateDelivery`. */
  function DeliveryIn(chats: C.Table, conv: ConvId, actor: UserId, blocks: seq<BlockFlags.Block>): Delivery {
    if conv !in chats || chats[conv].kind != C.PrivateChat then Delivered
    else
      match BlockFlags.Other(chats[conv].rows, actor)
      case None => Delivered
      case Some(other) =>
        if BlockFlags.Block(other, actor) in blocks then Forbidden
        else if BlockFlags.Block(actor, other) in blocks then Withheld
        else Delivered
  }

  predicate IsLive(m: Message) {
    m.deletedForEveryoneAt.None?
  }

  function Pinned(t: Table, conv: ConvId): set<MessageId> {
    set id | id in t.Keys && t[id].conversationId == conv && t[id].pinnedAt.Some? && IsLive(t[id])
  }

  function Expiring(t: Table): Queue {
    map id | id in t.Keys && t[id].expiresAt.Some? && IsLive(t[id]) :: t[id].expiresAt.value
  }

  // ---------------------------------------------------------------- operations on the table

  predicate InConversation(t: Table, conv: ConvId, id: MessageId) {
    id in t && t[id].conversationId == conv
  }

  function Deadline(lifetimeSeconds: nat, now: nat): Option<nat> {
    if lifetimeSeconds > 0 then Some(now + lifetimeSeconds * 1000) else None
  }

  /** `sendMessage`: the message that is saved, or the refusal. */
  function Send(t: Table, access: Access, delivery: Delivery, conv: ConvId, sender: UserId, draft: Draft,
                lifetimeSeconds: nat, createdAt: nat, now: nat): Result<Message, MessageError>
  {
    if !draft.hasBody && draft.attachment.None? then Err(EmptyBody)
    else if draft.isCall then
      if !draft.systemCall then Err(ForgedCall)
      else if !draft.hasBody then Err(EmptyBody)
      else if access.Refused? then Err(access.error)
      else Ok(Message(conv, sender, true, createdAt, None, None, false, None, None, None, None, None))
    else if access.Refused? then Err(access.error)
    else if delivery == Forbidden then Err(CannotMessage)
    else if draft.replyTo.Some? && !(InConversation(t, conv, draft.replyTo.value) && IsLive(t[draft.replyTo.value]))
    then Err(BadReply)
    else Ok(Message(conv, sender, false, createdAt, draft.replyTo, draft.attachment, delivery == Withheld,
                    Deadline(lifetimeSeconds, now), None, None, None, None))
  }

  /** `forwardMessage`: the copy points at the attachment of the original. */
  function Forward(t: Table, accessFrom: Access, accessTo: Access, delivery: Delivery, fromConv: ConvId, id: MessageId,
                   toConv: ConvId, actor: UserId, lifetimeSeconds: nat, createdAt: nat, now: nat)
    : Result<Message, MessageError>
  {
    if accessFrom.Refused? then Err(accessFrom.error)
    else if accessTo.Refused? then Err(accessTo.error)
    else if !InConversation(t, fromConv, id) || !IsLive(t[id]) then Err(NotFound)
    else if delivery == Forbidden then Err(CannotMessage)
    else
      var source := t[id];
      Ok(Message(toConv, actor, source.isCall, createdAt, None, source.attachmentUrl, delivery == Withheld,
                 if source.isCall then None else Deadline(lifetimeSeconds, now), None, None, None, None))
  }

  function Tombstone(m: Message, now: nat): Message {
    m.(deletedForEveryoneAt := Some(now), attachmentUrl := None, pinnedAt := None, pinnedByUserId := None)
  }

  /** A message whose conversation row is gone only loses its deadline. */
  function Expired(m: Message, live: set<ConvId>, now: nat): Message {
    if m.conversationId in live then Tombstone(m, now).(expiresAt := None) else m.(expiresAt := None)
  }

  function Edit(t: Table, access: Access, conv: ConvId, id: MessageId, actor: UserId, hasBody: bool, now: nat)
    : (Table, Option<MessageError>)
  {
    if access.Refused? then (t, Some(access.error))
    else if !InConversation(t, conv, id) then (t, Some(NotFound))
    else if t[id].senderId != actor then (t, Some(NotSender))
    else if !IsLive(t[id]) then (t, Some(Deleted))
    else if now > t[id].createdAt / MICROS + EDIT_WINDOW_MS then (t, Some(TooOld))
    else if !hasBody then (t, Some(EmptyBody))
    else (t[id := t[id].(editedAt := Some(now))], None)
  }

  function Pin(t: Table, access: Access, conv: ConvId, id: MessageId, actor: UserId, pinned: bool, now: nat)
    : (Table, Option<MessageError>)
  {
    if access.Refused? then (t, Some(access.error))
    else if !InConversation(t, conv, id) then (t, Some(NotFound))
    else if !IsLive(t[id]) then (t, Some(Deleted))
    else if t[id].isCall then (t, Some(CallHistory))
    else if pinned == t[id].pinnedAt.Some? then (t, None)
    else if !pinned then (t[id := t[id].(pinnedAt := None, pinnedByUserId := None)], None)
    else if |Pinned(t, conv)| >= MAX_PINNED then (t, Some(TooManyPinned))
    else (t[id := t[id].(pinnedAt := Some(now), pinnedByUserId := Some(actor))], None)
  }

  function Delete(t: Table, access: Access, conv: ConvId, id: MessageId, actor: UserId, forEveryone: bool, now: nat)
    : (Table, Result<Deletion, MessageError>)
  {
    if access.Refused? then (t, Err(access.error))
    else if !InConversation(t, conv, id) then (t, Err(NotFound))
    else if !forEveryone then (t, Ok(Deletion(false, None)))
    else if t[id].senderId != actor then (t, Err(NotSender))
    else if !IsLive(t[id]) then (t, Ok(Deletion(true, None)))
    else (t[id := Tombstone(t[id], now)], Ok(Deletion(true, Some(t[id].attachmentUrl))))
  }

  ghost predicate ExpiryBatch(t: Table, batch: seq<MessageId>, now: nat) {
    NoDup(batch) && IsBatch(Expiring(t), now, EXPIRE_BATCH, Elems(batch))
  }

  ghost function ExpireBatch(t: Table, batch: set<MessageId>, live: set<ConvId>, now: nat): Table {
    map id | id in t :: if id in batch then Expired(t[id], live, now) else t[id]
  }

  /** The clean-up reports of one expiry pass, in batch order. */
  ghost function ExpiryReports(t: Table, batch: seq<MessageId>, live: set<ConvId>): seq<(MessageId, Option<Url>)>
    requires forall id :: id in batch ==> id in t
  {
    if batch == [] then []
    else
      var id := batch[|batch| - 1];
      ExpiryReports(t, batch[..|batch| - 1], live) +
      if t[id].conversationId in live then [(id, t[id].attachmentUrl)] else []
  }

  lemma BatchIsStored(t: Table, batch: seq<MessageId>, now: nat)
    requires ExpiryBatch(t, batch, now)
    ensures forall id :: id in batch ==>
                           id in t && IsLive(t[id]) && t[id].expiresAt.Some? && t[id].expiresAt.value <= now
  {
    forall id | id in batch ensures id in Due(Expiring(t), now) {
      assert id in Elems(batch);
    }
  }

  /** Processing one more row of a batch. */
  lemma ExpireOneMore(t: Table, done: seq<MessageId>, id: MessageId, live: set<ConvId>, now: nat)
    requires id in t && id !in done && forall d :: d in done ==> d in t
    ensures var before := ExpireBatch(t, Elems(done), live, now);
            && before[id] == t[id]
            && ExpireBatch(t, Elems(done + [id]), live, now) == before[id := Expired(t[id], live, now)]
    ensures ExpiryReports(t, done + [id], live) ==
            ExpiryReports(t, done, live) + if t[id].conversationId in live then [(id, t[id].attachmentUrl)] else []
  {
    assert Elems(done + [id]) == Elems(done) + {id};
    assert (done + [id])[..|done|] == done;
  }

  // ---------------------------------------------------------------- the service

  class MessageService {
    const conversations: C.ConversationService
    var messages: Table
    var hides: set<(MessageId, UserId)>

    constructor (conversations: C.ConversationService)
      ensures this.conversations == conversations && messages == map[] && hides == {}
    {
      this.conversations, messages, hides := conversations, map[], {};
    }

    method RequireMembership(conv: ConvId, actor: UserId) returns (access: Access)
      ensures access == AccessIn(conversations.conversations, conv, actor)
    {
      var found := conversations.RequireMembership(conv, actor);
      access := if found.Ok? then Granted
                else if found.error == C.NotFound then Refused(NoConversation)
                else Refused(NotAMember);
    }

    /** `id`, `createdAt` and `lifetimeSeconds` come from the database. */
    method SendMessage(id: MessageId, conv: ConvId, sender: UserId, draft: Draft, blocks: seq<BlockFlags.Block>,
                       lifetimeSeconds: nat, createdAt: nat, now: nat)
      returns (r: Result<Message, MessageError>)
      requires id !in messages
      modifies this`messages
      ensures var chats := conversations.conversations;
              r == Send(old(messages), AccessIn(chats, conv, sender), DeliveryIn(chats, conv, sender, blocks),
                        conv, sender, draft, lifetimeSeconds, createdAt, now)
      ensures messages == if r.Ok? then old(messages)[id := r.value] else old(messages)
    {
      if !draft.hasBody && draft.attachment.None? {
        return Err(EmptyBody);
      }
      if draft.isCall {
        if !draft.systemCall {
          return Err(ForgedCall);
        }
        if !draft.hasBody {
          return Err(EmptyBody);
        }
        var access := RequireMembership(conv, sender);
        if access.Refused? {
          return Err(access.error);
        }
        var line := Message(conv, sender, true, createdAt, None, None, false, None, None, None, None, None);
        messages := messages[id := line];
        return Ok(line);
      }
      var access := RequireMembership(conv, sender);
      if access.Refused? {
        return Err(access.error);
      }
      var delivery := DeliveryIn(conversations.conversations, conv, sender, blocks);
      if delivery == Forbidden {
        return Err(CannotMessage);
      }
      if draft.replyTo.Some? {
        if draft.replyTo.value !in messages || messages[draft.replyTo.value].conversationId != conv {
          return Err(BadReply);
        }
        if messages[draft.replyTo.value].deletedForEveryoneAt.Some? {
          return Err(BadReply);
        }
      }
      var m := Message(conv, sender, false, createdAt, draft.replyTo, draft.attachment, delivery == Withheld, None,
                       None, None, None, None);
      if lifetimeSeconds > 0 {
        m := m.(expiresAt := Some(now + lifetimeSeconds * 1000));
      }
      messages := messages[id := m];
      return Ok(m);
    }

    method ForwardMessage(newId: MessageId, fromConv: ConvId, id: MessageId, toConv: ConvId, actor: UserId,
                          blocks: seq<BlockFlags.Block>, lifetimeSeconds: nat, createdAt: nat, now: nat)
      returns (r: Result<Message, MessageError>)
      requires newId !in messages
      modifies this`messages
      ensures var chats := conversations.conversations;
              r == Forward(old(messages), AccessIn(chats, fromConv, actor), AccessIn(chats, toConv, actor),
                           DeliveryIn(chats, toConv, actor, blocks), fromConv, id, toConv, actor, lifetimeSeconds,
                           createdAt, now)
      ensures messages == if r.Ok? then old(messages)[newId := r.value] else old(messages)
    {
      var accessFrom := RequireMembership(fromConv, actor);
      if accessFrom.Refused? {
        return Err(accessFrom.error);
      }
      var accessTo := RequireMembership(toConv, actor);
      if accessTo.Refused? {
        return Err(accessTo.error);
      }
      if id !in messages || messages[id].conversationId != fromConv || messages[id].deletedForEveryoneAt.Some? {
        return Err(NotFound);
      }
      var source := messages[id];
      var delivery := Delivered;
      if conversations.conversations[toConv].kind == C.PrivateChat {
        delivery := DeliveryIn(conversations.conversations, toConv, actor, blocks);
        if delivery == Forbidden {
          return Err(CannotMessage);
        }
      }
      var expiresAt := None;
      if lifetimeSeconds > 0 && !source.isCall {
        expiresAt := Some(now + lifetimeSeconds * 1000);
      }
      var m := Message(toConv, actor, source.isCall, createdAt, None, source.attachmentUrl, delivery == Withheld,
                       expiresAt, None, None, None, None);
      messages := messages[newId := m];
      return Ok(m);
    }

    method EditMessage(conv: ConvId, id: MessageId, actor: UserId, hasBody: bool, now: nat)
      returns (e: Option<MessageError>)
      modifies this`messages
      ensures (messages, e) ==
              Edit(old(messages), AccessIn(conversations.conversations, conv, actor), conv, id, actor, hasBody, now)
    {
      var access := RequireMembership(conv, actor);
      if access.Refused? {
        return Some(access.error);
      }
      if id !in messages || messages[id].conversationId != conv {
        return Some(NotFound);
      }
      var m := messages[id];
      if m.senderId != actor {
        return Some(NotSender);
      }
      if m.deletedForEveryoneAt.Some? {
        return Some(Deleted);
      }
      var age := now - m.createdAt / MICROS;
      if age > EDIT_WINDOW_MS {
        return Some(TooOld);
      }
      if !hasBody {
        return Some(EmptyBody);
      }
      messages := messages[id := m.(editedAt := Some(now))];
      return None;
    }

    method PinMessage(conv: ConvId, id: MessageId, actor: UserId, pinned: bool, now: nat)
      returns (e: Option<MessageError>)
      modifies this`messages
      ensures (messages, e) ==
              Pin(old(messages), AccessIn(conversations.conversations, conv, actor), conv, id, actor, pinned, now)
    {
      var access := RequireMembership(conv, actor);
      if access.Refused? {
        return Some(access.error);
      }
      if id !in messages || messages[id].conversationId != conv {
        return Some(NotFound);
      }
      var m := messages[id];
      if m.deletedForEveryoneAt.Some? {
        return Some(Deleted);
      }
      if m.isCall {
        return Some(CallHistory);
      }
      if pinned {
        if m.pinnedAt.None? {
          var currentlyPinned := |Pinned(messages, conv)|;
          if currentlyPinned >= MAX_PINNED {
            return Some(TooManyPinned);
          }
          messages := messages[id := m.(pinnedAt := Some(now), pinnedByUserId := Some(actor))];
        }
      } else if m.pinnedAt.Some? {
        messages := messages[id := m.(pinnedAt := None, pinnedByUserId := None)];
      }
      return None;
    }

    method DeleteMessage(conv: ConvId, id: MessageId, actor: UserId, forEveryone: bool, now: nat)
      returns (r: Result<Deletion, MessageError>)
      modifies this
      ensures (messages, r) ==
              Delete(old(messages), AccessIn(conversations.conversations, conv, actor), conv, id, actor, forEveryone,
                     now)
      ensures hides == if r.Ok? && !forEveryone then old(hides) + {(id, actor)} else old(hides)
    {
      var access := RequireMembership(conv, actor);
      if access.Refused? {
        return Err(access.error);
      }
      if id !in messages || messages[id].conversationId != conv {
        return Err(NotFound);
      }
      var m := messages[id];
      if forEveryone {
        if m.senderId != actor {
          return Err(NotSender);
        }
        if m.deletedForEveryoneAt.Some? {
          return Ok(Deletion(true, None));
        }
        var removedAttachmentUrl := m.attachmentUrl;
        m := m.(deletedForEveryoneAt := Some(now), attachmentUrl := None);
        m := m.(pinnedAt := None, pinnedByUserId := None);
        messages := messages[id := m];
        return Ok(Deletion(true, Some(removedAttachmentUrl)));
      }
      if (id, actor) !in hides {
        hides := hides + {(id, actor)};
      }
      return Ok(Deletion(false, None));
    }

    /** One expiry pass. */
    method ExpireDueMessages(now: nat)
      returns (batch: seq<MessageId>, reports: seq<(MessageId, Option<Url>)>)
      modifies this`messages
      ensures ExpiryBatch(old(messages), batch, now)
      ensures messages == ExpireBatch(old(messages), Elems(batch), LiveChats(conversations.conversations), now)
      ensures forall id :: id in batch ==> id in old(messages)
      ensures reports == ExpiryReports(old(messages), batch, LiveChats(conversations.conversations))
    {
      batch := TakeEarliest(Expiring(messages), now, EXPIRE_BATCH);
      BatchIsStored(messages, batch, now);
      reports := ExpireRows(batch, LiveChats(conversations.conversations), now);
    }

    /** The loop over one batch. */
    method ExpireRows(batch: seq<MessageId>, live: set<ConvId>, now: nat)
      returns (reports: seq<(MessageId, Option<Url>)>)
      requires NoDup(batch) && forall id :: id in batch ==> id in messages
      modifies this`messages
      ensures messages == ExpireBatch(old(messages), Elems(batch), live, now)
      ensures reports == ExpiryReports(old(messages), batch, live)
    {
      reports := [];
      for i := 0 to |batch|
        invariant messages == ExpireBatch(old(messages), Elems(batch[..i]), live, now)
        invariant forall id :: id in batch[..i] ==> id in old(messages)
        invariant reports == ExpiryReports(old(messages), batch[..i], live)
      {
        var id := batch[i];
        assert batch[..i + 1] == batch[..i] + [id];
        assert id !in batch[..i];
        ExpireOneMore(old(messages), batch[..i], id, live, now);
        var m := messages[id];
        if m.conversationId !in live {
          messages := messages[id := m.(expiresAt := None)];
          continue;
        }
        var removedAttachmentUrl := m.attachmentUrl;
        messages := messages[id := m.(deletedForEveryoneAt := Some(now), attachmentUrl := None, pinnedAt := None,
                                      pinnedByUserId := None, expiresAt := None)];
        reports := reports + [(id, removedAttachmentUrl)];
      }
      assert batch[..|batch|] == batch;
    }
  }
}
