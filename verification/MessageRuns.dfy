/** Runs over messages: the tombstone law, the drain of expiring messages, and attachments cleaned up too early. */
module MessageRuns {
  import opened DeadlineQueue
  import opened Ids
  import opened Lists
  import opened Messages

  /** The table, the clean-up reports handed out so far, and what every message was created with. */
  datatype Ledger = Ledger(table: Table, reports: seq<(MessageId, Option<Url>)>, sentWith: map<MessageId, Option<Url>>)

  const EMPTY_LEDGER := Ledger(map[], [], map[])

  /** Whatever conversations, blocks and disappearing times say enters as a parameter. */
  datatype Deed =
    | DoSend(id: MessageId, access: Access, delivery: Delivery, conv: ConvId, sender: UserId, draft: Draft,
             lifetimeSeconds: nat, createdAt: nat, now: nat)
    | DoForward(id: MessageId, accessFrom: Access, accessTo: Access, delivery: Delivery, fromConv: ConvId,
                source: MessageId, toConv: ConvId, actor: UserId, lifetimeSeconds: nat, createdAt: nat, now: nat)
    | DoEdit(access: Access, conv: ConvId, id: MessageId, actor: UserId, hasBody: bool, now: nat)
    | DoPin(access: Access, conv: ConvId, id: MessageId, actor: UserId, pinned: bool, now: nat)
    | DoDelete(access: Access, conv: ConvId, id: MessageId, actor: UserId, forEveryone: bool, now: nat)
    | DoExpire(batch: seq<MessageId>, live: set<ConvId>, now: nat)

  /** The message a deed saves under its id, if any. */
  function Created(t: Table, d: Deed): Result<Message, MessageError>
    requires d.DoSend? || d.DoForward?
  {
    match d
    case DoSend(_, access, delivery, conv, sender, draft, lifetime, createdAt, now) =>
      Send(t, access, delivery, conv, sender, draft, lifetime, createdAt, now)
    case DoForward(_, accessFrom, accessTo, delivery, fromConv, source, toConv, actor, lifetime, createdAt, now) =>
      Forward(t, accessFrom, accessTo, delivery, fromConv, source, toConv, actor, lifetime, createdAt, now)
  }

  predicate Creates(t: Table, d: Deed) {
    (d.DoSend? || d.DoForward?) && d.id !in t && Created(t, d).Ok?
  }

  ghost predicate Expires(t: Table, d: Deed) {
    d.DoExpire? && ExpiryBatch(t, d.batch, d.now)
  }

  /** The message is deleted for everyone by this deed of its sender. */
  predicate Removes(t: Table, d: Deed) {
    d.DoDelete? &&
    var r := Delete(t, d.access, d.conv, d.id, d.actor, d.forEveryone, d.now).1;
    r.Ok? && r.value.removed.Some?
  }

  ghost function Enact(l: Ledger, d: Deed): Ledger {
    match d
    case DoEdit(access, conv, id, actor, hasBody, now) =>
      l.(table := Edit(l.table, access, conv, id, actor, hasBody, now).0)
    case DoPin(access, conv, id, actor, pinned, now) =>
      l.(table := Pin(l.table, access, conv, id, actor, pinned, now).0)
    case DoDelete(access, conv, id, actor, forEveryone, now) =>
      if !Removes(l.table, d) then l
      else
        var (next, r) := Delete(l.table, access, conv, id, actor, forEveryone, now);
        l.(table := next, reports := l.reports + [(id, r.value.removed.value)])
    case DoExpire(batch, live, now) =>
      if !Expires(l.table, d) then l
      else
        BatchIsStored(l.table, batch, now);
        l.(table := ExpireBatch(l.table, Elems(batch), live, now),
           reports := l.reports + ExpiryReports(l.table, batch, live))
    case _ =>
      if !Creates(l.table, d) then l
      else
        var m := Created(l.table, d).value;
        l.(table := l.table[d.id := m], sentWith := l.sentWith[d.id := m.attachmentUrl])
  }

  ghost function EnactAll(l: Ledger, ds: seq<Deed>): Ledger {
    if ds == [] then l else Enact(EnactAll(l, ds[..|ds| - 1]), ds[|ds| - 1])
  }

  // ---------------------------------------------------------------- the invariant

  ghost predicate MessageOk(m: Message) {
    && (!IsLive(m) ==> m.attachmentUrl.None? && m.pinnedAt.None?)
    && (m.pinnedAt.Some? <==> m.pinnedByUserId.Some?)
    && (m.isCall ==> m.pinnedAt.None? && m.attachmentUrl.None? && m.expiresAt.None?)
  }

  ghost predicate ReplyOk(t: Table, m: Message) {
    m.replyTo.Some? ==> InConversation(t, m.conversationId, m.replyTo.value)
  }

  ghost predicate ReportedOnce(reports: seq<(MessageId, Option<Url>)>) {
    forall i, j :: 0 <= i < j < |reports| ==> reports[i].0 != reports[j].0
  }

  ghost predicate LedgerOk(l: Ledger) {
    && l.sentWith.Keys == l.table.Keys
    && (forall id :: id in l.table ==> MessageOk(l.table[id]) && ReplyOk(l.table, l.table[id]))
    && (forall conv :: |Pinned(l.table, conv)| <= MAX_PINNED)
    && (forall id :: id in l.table && IsLive(l.table[id]) ==> l.table[id].attachmentUrl == l.sentWith[id])
    && ReportedOnce(l.reports)
    && (forall r :: r in l.reports ==> r.0 in l.table && r.1 == l.sentWith[r.0] && !IsLive(l.table[r.0]))
    && (forall id :: id in l.table && !IsLive(l.table[id]) ==> (id, l.sentWith[id]) in l.reports)
  }

  /** Messages stay, in their conversation and with their sender; what was deleted for everyone stays so, since the
      same moment; a deadline can only be lost. */
  ghost predicate Absorbs(t: Table, next: Table) {
    && t.Keys <= next.Keys
    && forall id :: id in t ==>
         && next[id].conversationId == t[id].conversationId && next[id].senderId == t[id].senderId
         && next[id].replyTo == t[id].replyTo && next[id].isCall == t[id].isCall
         && (next[id].expiresAt == t[id].expiresAt || next[id].expiresAt.None?)
         && (!IsLive(t[id]) ==> next[id].deletedForEveryoneAt == t[id].deletedForEveryoneAt)
  }

  // ---------------------------------------------------------------- what each deed keeps

  lemma PinsStayFew(t: Table, next: Table)
    requires forall conv :: |Pinned(t, conv)| <= MAX_PINNED
    requires forall conv :: Pinned(next, conv) <= Pinned(t, conv)
    ensures forall conv :: |Pinned(next, conv)| <= MAX_PINNED
  {
    forall conv ensures |Pinned(next, conv)| <= MAX_PINNED {
      SubsetSize(Pinned(next, conv), Pinned(t, conv));
    }
  }

  /** The pinned messages after a change of pins. */
  lemma PinnedAfter(t: Table, access: Access, conv: ConvId, id: MessageId, actor: UserId, pinned: bool, now: nat,
                    v: ConvId)
    ensures var (next, e) := Pin(t, access, conv, id, actor, pinned, now);
            Pinned(next, v) ==
            if e.Some? || v != conv then Pinned(t, v)
            else if pinned then Pinned(t, v) + {id} else Pinned(t, v) - {id}
  {
  }

  lemma PinKeepsFew(t: Table, access: Access, conv: ConvId, id: MessageId, actor: UserId, pinned: bool, now: nat)
    requires forall v :: |Pinned(t, v)| <= MAX_PINNED
    ensures forall v :: |Pinned(Pin(t, access, conv, id, actor, pinned, now).0, v)| <= MAX_PINNED
  {
    var next := Pin(t, access, conv, id, actor, pinned, now).0;
    forall v ensures |Pinned(next, v)| <= MAX_PINNED {
      PinnedAfter(t, access, conv, id, actor, pinned, now, v);
      assert |Pinned(t, v)| <= MAX_PINNED;
    }
  }

  lemma CreateKeepsLedgerOk(l: Ledger, d: Deed)
    requires LedgerOk(l) && Creates(l.table, d)
    ensures LedgerOk(Enact(l, d)) && Absorbs(l.table, Enact(l, d).table)
  {
    CreatedOk(l.table, d);
    AddKeepsLedgerOk(l, d.id, Created(l.table, d).value);
  }

  lemma CreatedOk(t: Table, d: Deed)
    requires Creates(t, d) && forall id :: id in t ==> MessageOk(t[id])
    ensures var m := Created(t, d).value;
            MessageOk(m) && ReplyOk(t, m) && m.pinnedAt.None? && IsLive(m)
  {
  }

  lemma AddKeepsLedgerOk(l: Ledger, id: MessageId, m: Message)
    requires LedgerOk(l) && id !in l.table && MessageOk(m) && ReplyOk(l.table, m) && m.pinnedAt.None? && IsLive(m)
    ensures LedgerOk(l.(table := l.table[id := m], sentWith := l.sentWith[id := m.attachmentUrl]))
    ensures Absorbs(l.table, l.table[id := m])
  {
    var t := l.table[id := m];
    assert forall conv :: Pinned(t, conv) <= Pinned(l.table, conv);
    PinsStayFew(l.table, t);
  }

  /** One message changes in place: no attachment appears and nothing is deleted or undeleted. */
  ghost predicate Retouched(t: Table, next: Table, id: MessageId) {
    && id in t && next.Keys == t.Keys
    && (forall k :: k in t && k != id ==> next[k] == t[k])
    && IsLive(t[id]) && next[id] == t[id].(editedAt := next[id].editedAt, pinnedAt := next[id].pinnedAt,
                                           pinnedByUserId := next[id].pinnedByUserId)
  }

  lemma RetouchKeepsLedgerOk(l: Ledger, next: Table, id: MessageId)
    requires LedgerOk(l) && Retouched(l.table, next, id) && MessageOk(next[id])
    requires forall conv :: |Pinned(next, conv)| <= MAX_PINNED
    ensures LedgerOk(l.(table := next)) && Absorbs(l.table, next)
  {
  }

  lemma PinKeepsLedgerOk(l: Ledger, d: Deed)
    requires LedgerOk(l) && d.DoPin?
    ensures LedgerOk(Enact(l, d)) && Absorbs(l.table, Enact(l, d).table)
  {
    var next := Pin(l.table, d.access, d.conv, d.id, d.actor, d.pinned, d.now).0;
    PinKeepsFew(l.table, d.access, d.conv, d.id, d.actor, d.pinned, d.now);
    if next != l.table {
      RetouchKeepsLedgerOk(l, next, d.id);
    }
  }

  lemma EditKeepsLedgerOk(l: Ledger, d: Deed)
    requires LedgerOk(l) && d.DoEdit?
    ensures LedgerOk(Enact(l, d)) && Absorbs(l.table, Enact(l, d).table)
  {
    var next := Edit(l.table, d.access, d.conv, d.id, d.actor, d.hasBody, d.now).0;
    assert forall conv :: Pinned(next, conv) <= Pinned(l.table, conv);
    PinsStayFew(l.table, next);
    if next != l.table {
      RetouchKeepsLedgerOk(l, next, d.id);
    }
  }

  /** A message becomes a tombstone and its attachment is reported. */
  lemma TombstoneKeepsLedgerOk(l: Ledger, id: MessageId, now: nat)
    requires LedgerOk(l) && id in l.table && IsLive(l.table[id])
    ensures var t := l.table[id := Tombstone(l.table[id], now)];
            LedgerOk(l.(table := t, reports := l.reports + [(id, l.table[id].attachmentUrl)])) && Absorbs(l.table, t)
  {
    var t := l.table[id := Tombstone(l.table[id], now)];
    assert forall conv :: Pinned(t, conv) <= Pinned(l.table, conv);
    PinsStayFew(l.table, t);
    var report := (id, l.table[id].attachmentUrl);
    assert forall q :: q in l.reports ==> q.0 != id;
    assert forall q :: q in l.reports + [report] <==> q in l.reports || q == report;
  }

  lemma {:induction false} ExpiryReportsOnce(t: Table, batch: seq<MessageId>, live: set<ConvId>)
    requires NoDup(batch) && forall id :: id in batch ==> id in t
    ensures var rs := ExpiryReports(t, batch, live);
            && ReportedOnce(rs)
            && forall r :: r in rs <==> r.0 in batch && t[r.0].conversationId in live && r.1 == t[r.0].attachmentUrl
  {
    if batch != [] {
      var init, last := batch[..|batch| - 1], batch[|batch| - 1];
      assert batch == init + [last];
      assert last !in init;
      ExpiryReportsOnce(t, init, live);
    }
  }

  /** Reports come in the order of the batch. */
  lemma {:induction false} ExpiryReportsInOrder(t: Table, batch: seq<MessageId>, live: set<ConvId>)
    requires NoDup(batch) && forall id :: id in batch ==> id in t
    ensures var rs := ExpiryReports(t, batch, live);
            forall i, j, k :: 0 <= i < j < |rs| && 0 <= k < |batch| && batch[k] == rs[j].0 ==> rs[i].0 in batch[..k]
  {
    if batch != [] {
      var init, last := batch[..|batch| - 1], batch[|batch| - 1];
      assert batch == init + [last] && last !in init;
      ExpiryReportsInOrder(t, init, live);
      ExpiryReportsOnce(t, init, live);
      var rs, before := ExpiryReports(t, batch, live), ExpiryReports(t, init, live);
      forall i, j, k | 0 <= i < j < |rs| && 0 <= k < |batch| && batch[k] == rs[j].0 ensures rs[i].0 in batch[..k] {
        assert rs[i] in before;
        assert batch[..k] == init[..k];
        if j < |before| {
          assert rs[j] in before;
        }
      }
    }
  }

  lemma AppendReports(a: seq<(MessageId, Option<Url>)>, b: seq<(MessageId, Option<Url>)>)
    requires ReportedOnce(a) && ReportedOnce(b)
    requires forall r, q :: r in a && q in b ==> r.0 != q.0
    ensures ReportedOnce(a + b)
  {
  }

  lemma ExpireKeepsPins(t: Table, batch: set<MessageId>, live: set<ConvId>, now: nat)
    requires forall conv :: |Pinned(t, conv)| <= MAX_PINNED
    ensures forall conv :: |Pinned(ExpireBatch(t, batch, live, now), conv)| <= MAX_PINNED
  {
    var next := ExpireBatch(t, batch, live, now);
    assert forall conv :: Pinned(next, conv) <= Pinned(t, conv);
    PinsStayFew(t, next);
  }

  lemma ExpireKeepsMessages(t: Table, batch: set<MessageId>, live: set<ConvId>, now: nat)
    requires forall id :: id in t ==> MessageOk(t[id]) && ReplyOk(t, t[id])
    ensures var next := ExpireBatch(t, batch, live, now);
            forall id :: id in next ==> MessageOk(next[id]) && ReplyOk(next, next[id])
  {
    var next := ExpireBatch(t, batch, live, now);
    forall id | id in next ensures MessageOk(next[id]) && ReplyOk(next, next[id]) {
      assert MessageOk(t[id]) && ReplyOk(t, t[id]);
    }
  }

  /** An expiry pass deletes exactly the messages of its batch whose conversation is there. */
  lemma ExpireTable(t: Table, batch: seq<MessageId>, live: set<ConvId>, now: nat)
    requires ExpiryBatch(t, batch, now)
    ensures var next := ExpireBatch(t, Elems(batch), live, now);
            && Absorbs(t, next)
            && (forall id :: id in next && IsLive(next[id]) ==>
                  IsLive(t[id]) && next[id].attachmentUrl == t[id].attachmentUrl)
            && (forall id :: id in next && !IsLive(next[id]) <==>
                  id in t && (!IsLive(t[id]) || (id in batch && t[id].conversationId in live)))
  {
    BatchIsStored(t, batch, now);
  }

  /** The reports of an expiry pass are new, and complete for what it deleted. */
  lemma ExpireReports(l: Ledger, batch: seq<MessageId>, live: set<ConvId>, now: nat)
    requires LedgerOk(l) && ExpiryBatch(l.table, batch, now) && forall id :: id in batch ==> id in l.table
    ensures var rs := ExpiryReports(l.table, batch, live);
            && ReportedOnce(l.reports + rs)
            && (forall r :: r in rs ==> r.0 in batch && l.table[r.0].conversationId in live && r.1 == l.sentWith[r.0])
            && (forall id :: id in batch && l.table[id].conversationId in live ==> (id, l.sentWith[id]) in rs)
  {
    BatchIsStored(l.table, batch, now);
    ExpiryReportsOnce(l.table, batch, live);
    var rs := ExpiryReports(l.table, batch, live);
    assert forall r, q :: r in l.reports && q in rs ==> r.0 != q.0;
    AppendReports(l.reports, rs);
    forall id | id in batch && l.table[id].conversationId in live ensures (id, l.sentWith[id]) in rs {
      var r := (id, l.sentWith[id]);
      assert r.0 == id && r.1 == l.table[id].attachmentUrl;
    }
  }

  lemma ExpireKeepsLedgerOk(l: Ledger, d: Deed)
    requires LedgerOk(l) && Expires(l.table, d)
    ensures LedgerOk(Enact(l, d)) && Absorbs(l.table, Enact(l, d).table)
  {
    BatchIsStored(l.table, d.batch, d.now);
    ExpireTable(l.table, d.batch, d.live, d.now);
    ExpireKeepsPins(l.table, Elems(d.batch), d.live, d.now);
    ExpireKeepsMessages(l.table, Elems(d.batch), d.live, d.now);
    ExpireReports(l, d.batch, d.live, d.now);
    var rs := ExpiryReports(l.table, d.batch, d.live);
    assert forall r :: r in l.reports + rs <==> r in l.reports || r in rs;
  }

  lemma EnactKeepsLedgerOk(l: Ledger, d: Deed)
    requires LedgerOk(l)
    ensures LedgerOk(Enact(l, d)) && Absorbs(l.table, Enact(l, d).table)
  {
    match d
    case DoEdit(_, _, _, _, _, _) => EditKeepsLedgerOk(l, d);
    case DoPin(_, _, _, _, _, _) => PinKeepsLedgerOk(l, d);
    case DoDelete(_, _, _, _, _, _) => if Removes(l.table, d) { TombstoneKeepsLedgerOk(l, d.id, d.now); }
    case DoExpire(_, _, _) => if Expires(l.table, d) { ExpireKeepsLedgerOk(l, d); }
    case _ => if Creates(l.table, d) { CreateKeepsLedgerOk(l, d); }
  }

  /** A message is deleted for everyone only by its sender, or by expiry once its deadline has passed and while its
      conversation is still there. */
  lemma OnlySenderOrExpiryDeletes(l: Ledger, d: Deed, id: MessageId)
    requires LedgerOk(l) && id in l.table && IsLive(l.table[id])
    requires id in Enact(l, d).table && !IsLive(Enact(l, d).table[id])
    ensures || (Removes(l.table, d) && d.id == id && d.forEveryone && d.actor == l.table[id].senderId)
            || (Expires(l.table, d) && id in d.batch && l.table[id].conversationId in d.live
                && l.table[id].expiresAt.Some? && l.table[id].expiresAt.value <= d.now)
    ensures Enact(l, d).reports == l.reports + [(id, l.table[id].attachmentUrl)] || d.DoExpire?
  {
    if Expires(l.table, d) {
      BatchIsStored(l.table, d.batch, d.now);
      assert id in Elems(d.batch);
    }
  }

  lemma EmptyLedgerOk()
    ensures LedgerOk(EMPTY_LEDGER)
  {
    assert forall conv :: Pinned(EMPTY_LEDGER.table, conv) == {};
  }

  /** Over any further deeds tombstones are absorbing. */
  lemma {:induction false} TombstonesAbsorb(l: Ledger, ds: seq<Deed>)
    requires LedgerOk(l)
    ensures LedgerOk(EnactAll(l, ds)) && Absorbs(l.table, EnactAll(l, ds).table)
  {
    if ds != [] {
      TombstonesAbsorb(l, ds[..|ds| - 1]);
      EnactKeepsLedgerOk(EnactAll(l, ds[..|ds| - 1]), ds[|ds| - 1]);
    }
  }

  /** In every run: a message's attachment is reported for clean-up exactly once if it was deleted for everyone and
      never otherwise, always with the URL it was created with; tombstones keep neither attachment nor pin; replies
      stay within their conversation; and a conversation has at most three pinned messages, so a page of ten shows
      them all. */
  lemma MessageSafety(ds: seq<Deed>)
    ensures var l := EnactAll(EMPTY_LEDGER, ds);
            && ReportedOnce(l.reports)
            && (forall id, url :: (id, url) in l.reports <==>
                  id in l.table && l.table[id].deletedForEveryoneAt.Some? && id in l.sentWith && url == l.sentWith[id])
            && (forall id :: id in l.table && l.table[id].deletedForEveryoneAt.Some? ==>
                  l.table[id].attachmentUrl.None? && l.table[id].pinnedAt.None? && l.table[id].pinnedByUserId.None?)
            && (forall id :: id in l.table && l.table[id].replyTo.Some? ==>
                  var to := l.table[id].replyTo.value;
                  to in l.table && l.table[to].conversationId == l.table[id].conversationId)
            && (forall conv :: |Pinned(l.table, conv)| <= MAX_PINNED <= PINNED_PAGE)
  {
    EmptyLedgerOk();
    TombstonesAbsorb(EMPTY_LEDGER, ds);
    var l := EnactAll(EMPTY_LEDGER, ds);
    forall id, url | (id, url) in l.reports
      ensures id in l.table && l.table[id].deletedForEveryoneAt.Some? && url == l.sentWith[id]
    {
      var r := (id, url);
      assert r in l.reports && r.0 == id && r.1 == url;
    }
  }

  // ---------------------------------------------------------------- the drain

  /** What a deed is to the queue of expiring messages. */
  ghost function EventOf(l: Ledger, d: Deed): Option<Event> {
    if Creates(l.table, d) && Created(l.table, d).value.expiresAt.Some?
    then Some(File(d.now, d.id, Created(l.table, d).value.expiresAt.value))
    else if Removes(l.table, d) then Some(Withdraw(d.now, d.id))
    else if Expires(l.table, d) then Some(Serve(d.now, Elems(d.batch)))
    else None
  }

  lemma CreationIsFiling(l: Ledger, d: Deed)
    requires Creates(l.table, d)
    ensures var m, q, next := Created(l.table, d).value, Expiring(l.table), Expiring(Enact(l, d).table);
            if m.expiresAt.None? then next == q
            else d.now < m.expiresAt.value && d.id !in q && next == q[d.id := m.expiresAt.value]
  {
    var m, next := Created(l.table, d).value, Enact(l, d).table;
    assert next == l.table[d.id := m] && IsLive(m);
  }

  lemma RemovalIsWithdrawal(l: Ledger, d: Deed)
    requires Removes(l.table, d)
    ensures Expiring(Enact(l, d).table) == Expiring(l.table) - {d.id}
  {
    assert Enact(l, d).table == l.table[d.id := Tombstone(l.table[d.id], d.now)];
  }

  lemma PassIsServing(l: Ledger, d: Deed)
    requires Expires(l.table, d)
    ensures Expiring(Enact(l, d).table) == Expiring(l.table) - Elems(d.batch)
  {
    BatchIsStored(l.table, d.batch, d.now);
    assert Enact(l, d).table == ExpireBatch(l.table, Elems(d.batch), d.live, d.now);
  }

  lemma OtherDeedsLeaveQueue(l: Ledger, d: Deed)
    requires !Creates(l.table, d) && !Removes(l.table, d) && !Expires(l.table, d)
    ensures Expiring(Enact(l, d).table) == Expiring(l.table)
  {
  }

  /** Sending and forwarding with a lifetime file a message, deleting it withdraws it, an expiry pass serves a batch,
      and nothing else touches the queue. */
  lemma DeedIsEvent(l: Ledger, d: Deed)
    ensures var q, next := Expiring(l.table), Expiring(Enact(l, d).table);
            match EventOf(l, d)
            case None => next == q
            case Some(e) => e.now == d.now && Enabled(q, EXPIRE_BATCH, e) && next == Apply(q, e)
  {
    if Creates(l.table, d) {
      CreationIsFiling(l, d);
    } else if Removes(l.table, d) {
      RemovalIsWithdrawal(l, d);
    } else if Expires(l.table, d) {
      PassIsServing(l, d);
    } else {
      OtherDeedsLeaveQueue(l, d);
    }
  }

  ghost function EventsOf(l: Ledger, ds: seq<Deed>): seq<Event> {
    if ds == [] then []
    else
      var init, last := ds[..|ds| - 1], ds[|ds| - 1];
      match EventOf(EnactAll(l, init), last)
      case None => EventsOf(l, init)
      case Some(e) => EventsOf(l, init) + [e]
  }

  /** How many expiry passes a run holds. */
  ghost function Passes(l: Ledger, ds: seq<Deed>): nat {
    if ds == [] then 0
    else
      var init, last := ds[..|ds| - 1], ds[|ds| - 1];
      Passes(l, init) + if Expires(EnactAll(l, init).table, last) then 1 else 0
  }

  ghost predicate NotBefore(ds: seq<Deed>, t: nat) {
    forall d :: d in ds ==> t <= d.now
  }

  /** A run over messages is a run of their queue. */
  lemma {:induction false} DeedsAreQueueRun(l: Ledger, ds: seq<Deed>, t: nat)
    requires NotBefore(ds, t)
    ensures var q, es := Expiring(l.table), EventsOf(l, ds);
            && IsRun(q, EXPIRE_BATCH, t, es)
            && After(q, es) == Expiring(EnactAll(l, ds).table)
            && Serves(es) == Passes(l, ds)
  {
    if ds != [] {
      var init, last := ds[..|ds| - 1], ds[|ds| - 1];
      assert last in ds && forall d :: d in init ==> d in ds;
      DeedsAreQueueRun(l, init, t);
      DeedIsEvent(EnactAll(l, init), last);
      var e := EventOf(EnactAll(l, init), last);
      if e.Some? {
        RunSnoc(Expiring(l.table), EXPIRE_BATCH, t, EventsOf(l, init), e.value);
      }
    }
  }

  /** An undeleted message keeps its deadline until it is deleted or its conversation is found missing. */
  lemma DeadlineStands(l: Ledger, d: Deed, id: MessageId)
    requires id in l.table && IsLive(l.table[id])
    requires d.DoExpire? ==> l.table[id].conversationId in d.live
    ensures id in Enact(l, d).table
    ensures IsLive(Enact(l, d).table[id]) ==> Enact(l, d).table[id].expiresAt == l.table[id].expiresAt
  {
    if Expires(l.table, d) {
      BatchIsStored(l.table, d.batch, d.now);
      ExpireTable(l.table, d.batch, d.live, d.now);
    }
  }

  lemma {:induction false} DeadlinesStand(l: Ledger, ds: seq<Deed>, id: MessageId)
    requires LedgerOk(l) && id in l.table
    requires forall d :: d in ds && d.DoExpire? ==> l.table[id].conversationId in d.live
    ensures id in EnactAll(l, ds).table
    ensures IsLive(EnactAll(l, ds).table[id]) ==> EnactAll(l, ds).table[id].expiresAt == l.table[id].expiresAt
  {
    if ds != [] {
      var init, last := ds[..|ds| - 1], ds[|ds| - 1];
      assert last in ds && forall d :: d in init ==> d in ds;
      DeadlinesStand(l, init, id);
      TombstonesAbsorb(l, init);
      EnactKeepsLedgerOk(EnactAll(l, init), last);
      if IsLive(EnactAll(l, init).table[id]) {
        DeadlineStands(EnactAll(l, init), last, id);
      }
    }
  }

  /** Every message due at `t` is deleted, or has lost its deadline because its conversation is gone, after
      ceil(n / 40) expiry passes, n being the messages due at `t`, whatever else is sent, forwarded, edited, pinned
      and deleted in between. */
  lemma EveryDueMessageGoes(l: Ledger, ds: seq<Deed>, t: nat, id: MessageId)
    requires LedgerOk(l) && NotBefore(ds, t)
    requires id in l.table && IsLive(l.table[id]) && l.table[id].expiresAt.Some? && l.table[id].expiresAt.value <= t
    requires |Due(Expiring(l.table), t)| <= 40 * Passes(l, ds)
    ensures var after := EnactAll(l, ds).table;
            && id in after
            && (IsLive(after[id]) ==> after[id].expiresAt.None?)
            && ((forall d :: d in ds && d.DoExpire? ==> l.table[id].conversationId in d.live) ==> !IsLive(after[id]))
  {
    TombstonesAbsorb(l, ds);
    DeedsAreQueueRun(l, ds, t);
    EveryDueRowIsServed(Expiring(l.table), EXPIRE_BATCH, t, EventsOf(l, ds), id);
    var after := EnactAll(l, ds).table;
    if forall d :: d in ds && d.DoExpire? ==> l.table[id].conversationId in d.live {
      DeadlinesStand(l, ds, id);
    }
    assert id !in Due(Expiring(after), t);
  }

  // ---------------------------------------------------------------- attachments still in use

  /** An undeleted message, other than those in `apart`, points at the file. */
  ghost predicate InUse(t: Table, url: Url, apart: set<MessageId>) {
    exists id :: id !in apart && id in t && IsLive(t[id]) && t[id].attachmentUrl == Some(url)
  }

  /** No file that was reported for clean-up is still pointed at. */
  ghost predicate Clean(l: Ledger) {
    forall r :: r in l.reports && r.1.Some? ==> !InUse(l.table, r.1.value, {})
  }

  ghost predicate Reported(l: Ledger, url: Url) {
    exists r :: r in l.reports && r.1 == Some(url)
  }

  /** Messages an expiry pass turns into tombstones. */
  ghost function Swept(t: Table, d: Deed): set<MessageId>
    requires d.DoExpire?
  {
    set id | id in t && id in d.batch && t[id].conversationId in d.live
  }

  /** A deletion or expiry reports a file that another undeleted message points at, or a client sends the URL of a file
      already reported. */
  ghost predicate Spoils(l: Ledger, d: Deed) {
    || (Removes(l.table, d) && l.table[d.id].attachmentUrl.Some? &&
        InUse(l.table, l.table[d.id].attachmentUrl.value, {d.id}))
    || (Expires(l.table, d) && exists id :: id in Swept(l.table, d) && l.table[id].attachmentUrl.Some? &&
                                            InUse(l.table, l.table[id].attachmentUrl.value, Swept(l.table, d)))
    || (d.DoSend? && Creates(l.table, d) && Created(l.table, d).value.attachmentUrl.Some? &&
        Reported(l, Created(l.table, d).value.attachmentUrl.value))
  }

  lemma CreatingCleanly(l: Ledger, d: Deed)
    requires LedgerOk(l) && Clean(l) && Creates(l.table, d)
    ensures Clean(Enact(l, d)) <==> !Spoils(l, d)
  {
    var m, next := Created(l.table, d).value, Enact(l, d);
    assert next.table == l.table[d.id := m] && next.reports == l.reports;
    if m.attachmentUrl.Some? {
      var url := m.attachmentUrl.value;
      assert InUse(next.table, url, {}) by { assert d.id in next.table; }
      if d.DoForward? {
        assert InUse(l.table, url, {}) by { assert d.source in l.table && IsLive(l.table[d.source]); }
      }
    }
    forall url: Url | InUse(next.table, url, {}) ensures InUse(l.table, url, {}) || m.attachmentUrl == Some(url) {
    }
  }

  /** Tombstones for a set of messages, each reported. */
  lemma SweepingCleanly(l: Ledger, next: Ledger, swept: set<MessageId>, rs: seq<(MessageId, Option<Url>)>)
    requires Clean(l) && next.reports == l.reports + rs && next.table.Keys == l.table.Keys
    requires forall id :: id in swept ==> id in l.table && IsLive(l.table[id]) && !IsLive(next.table[id])
    requires forall id :: id in l.table && id !in swept ==>
                            IsLive(next.table[id]) == IsLive(l.table[id]) &&
                            next.table[id].attachmentUrl == l.table[id].attachmentUrl
    requires forall r :: r in rs <==> r.0 in swept && r.1 == l.table[r.0].attachmentUrl
    ensures Clean(next) <==> !exists id :: id in swept && l.table[id].attachmentUrl.Some? &&
                                           InUse(l.table, l.table[id].attachmentUrl.value, swept)
  {
    forall url: Url ensures InUse(next.table, url, {}) <==> InUse(l.table, url, swept) {
      if InUse(l.table, url, swept) {
        var id :| id !in swept && id in l.table && IsLive(l.table[id]) && l.table[id].attachmentUrl == Some(url);
        assert id in next.table && IsLive(next.table[id]);
      }
      if InUse(next.table, url, {}) {
        var id :| id in next.table && IsLive(next.table[id]) && next.table[id].attachmentUrl == Some(url);
        assert id !in swept && id in l.table;
      }
    }
    forall url: Url | InUse(l.table, url, swept) ensures InUse(l.table, url, {}) {
    }
    forall id | id in swept && l.table[id].attachmentUrl.Some?
      ensures (id, l.table[id].attachmentUrl) in next.reports
    {
      var r := (id, l.table[id].attachmentUrl);
      assert r.0 == id && r.1 == l.table[id].attachmentUrl;
      assert r in rs;
    }
    forall r | r in next.reports ensures r in l.reports || r in rs {
    }
  }

  lemma RemovingCleanly(l: Ledger, d: Deed)
    requires LedgerOk(l) && Clean(l) && Removes(l.table, d)
    ensures Clean(Enact(l, d)) <==> !Spoils(l, d)
  {
    SweepingCleanly(l, Enact(l, d), {d.id}, [(d.id, l.table[d.id].attachmentUrl)]);
    assert d.id in {d.id};
  }

  lemma ExpiringCleanly(l: Ledger, d: Deed)
    requires LedgerOk(l) && Clean(l) && Expires(l.table, d)
    ensures Clean(Enact(l, d)) <==> !Spoils(l, d)
  {
    BatchIsStored(l.table, d.batch, d.now);
    ExpireTable(l.table, d.batch, d.live, d.now);
    ExpiryReportsOnce(l.table, d.batch, d.live);
    SweepingCleanly(l, Enact(l, d), Swept(l.table, d), ExpiryReports(l.table, d.batch, d.live));
  }

  lemma RetouchingCleanly(l: Ledger, d: Deed)
    requires Clean(l) && !Creates(l.table, d) && !Removes(l.table, d) && !Expires(l.table, d)
    ensures Clean(Enact(l, d)) && !Spoils(l, d)
  {
    var next := Enact(l, d);
    assert next.reports == l.reports && next.table.Keys == l.table.Keys;
    assert forall id :: id in l.table ==> IsLive(next.table[id]) == IsLive(l.table[id]) &&
                                          next.table[id].attachmentUrl == l.table[id].attachmentUrl;
    forall url: Url | InUse(next.table, url, {}) ensures InUse(l.table, url, {}) {
      var id :| id in next.table && IsLive(next.table[id]) && next.table[id].attachmentUrl == Some(url);
      assert id in l.table && IsLive(l.table[id]);
    }
  }

  lemma DeedCleanly(l: Ledger, d: Deed)
    requires LedgerOk(l) && Clean(l)
    ensures Clean(Enact(l, d)) <==> !Spoils(l, d)
  {
    if Creates(l.table, d) {
      CreatingCleanly(l, d);
    } else if Removes(l.table, d) {
      RemovingCleanly(l, d);
    } else if Expires(l.table, d) {
      ExpiringCleanly(l, d);
    } else {
      RetouchingCleanly(l, d);
    }
  }

  ghost predicate NeverSpoils(l: Ledger, ds: seq<Deed>) {
    ds != [] ==> NeverSpoils(l, ds[..|ds| - 1]) && !Spoils(EnactAll(l, ds[..|ds| - 1]), ds[|ds| - 1])
  }

  /** Clean at the end of the run and at every moment before. */
  ghost predicate AlwaysClean(l: Ledger, ds: seq<Deed>) {
    Clean(EnactAll(l, ds)) && (ds != [] ==> AlwaysClean(l, ds[..|ds| - 1]))
  }

  /** Files cleaned up are out of use throughout a run if and only if no deletion or expiry in it reports a file that
      another undeleted message points at, and no client sends the URL of a file already reported. */
  lemma {:induction false} CleanExactly(l: Ledger, ds: seq<Deed>)
    requires LedgerOk(l) && Clean(l)
    ensures AlwaysClean(l, ds) <==> NeverSpoils(l, ds)
  {
    if ds != [] {
      var init, last := ds[..|ds| - 1], ds[|ds| - 1];
      CleanExactly(l, init);
      if AlwaysClean(l, init) {
        TombstonesAbsorb(l, init);
        DeedCleanly(EnactAll(l, init), last);
      }
    }
  }

  // ---------------------------------------------------------------- where shared attachments come from

  /** No two messages were created with the same file. */
  ghost predicate Unshared(l: Ledger) {
    forall i, j ::
      i in l.sentWith && j in l.sentWith && l.sentWith[i].Some? && l.sentWith[i] == l.sentWith[j] ==> i == j
  }

  /** Every file is sent once, and no message with a file is forwarded. */
  ghost predicate UploadsOnly(l: Ledger, ds: seq<Deed>) {
    ds != [] ==>
      var before, d := EnactAll(l, ds[..|ds| - 1]), ds[|ds| - 1];
      && UploadsOnly(l, ds[..|ds| - 1])
      && (Creates(before.table, d) && Created(before.table, d).value.attachmentUrl.Some? ==>
            forall id :: id in before.sentWith ==> before.sentWith[id] != Created(before.table, d).value.attachmentUrl)
  }

  lemma UnsharedNeverSpoils(l: Ledger, d: Deed)
    requires LedgerOk(l) && Unshared(l)
    requires Creates(l.table, d) && Created(l.table, d).value.attachmentUrl.Some? ==>
               forall id :: id in l.sentWith ==> l.sentWith[id] != Created(l.table, d).value.attachmentUrl
    ensures !Spoils(l, d) && Unshared(Enact(l, d))
  {
    forall url: Url, apart, id |
        id in apart && id in l.table && IsLive(l.table[id]) && l.table[id].attachmentUrl == Some(url)
      ensures !InUse(l.table, url, apart)
    {
    }
    if Expires(l.table, d) {
      BatchIsStored(l.table, d.batch, d.now);
    }
  }

  /** Without forwarding or resending files the clean-up is always right. */
  lemma {:induction false} UploadsOnlyStaysClean(l: Ledger, ds: seq<Deed>)
    requires LedgerOk(l) && Clean(l) && Unshared(l) && UploadsOnly(l, ds)
    ensures NeverSpoils(l, ds) && Unshared(EnactAll(l, ds))
  {
    if ds != [] {
      UploadsOnlyStaysClean(l, ds[..|ds| - 1]);
      TombstonesAbsorb(l, ds[..|ds| - 1]);
      UnsharedNeverSpoils(EnactAll(l, ds[..|ds| - 1]), ds[|ds| - 1]);
    }
  }

  /** A message with a file is sent, forwarded to another conversation, and deleted by its sender: the file is reported
      for clean-up while the copy still points at it. */
  lemma ForwardedFileIsLost()
    ensures var u := UserId("a");
            var ds := [DoSend(1, Granted, Delivered, 1, u, Draft(true, Some(7), false, false, None), 0, 0, 0),
                       DoForward(2, Granted, Granted, Delivered, 1, 1, 2, u, 0, 0, 0),
                       DoDelete(Granted, 1, 1, u, true, 0)];
            var l := EnactAll(EMPTY_LEDGER, ds);
            && l.reports == [(1, Some(7))] && 2 in l.table && IsLive(l.table[2]) && l.table[2].attachmentUrl == Some(7)
            && !Clean(l)
  {
    var u := UserId("a");
    var send := DoSend(1, Granted, Delivered, 1, u, Draft(true, Some(7), false, false, None), 0, 0, 0);
    var forward := DoForward(2, Granted, Granted, Delivered, 1, 1, 2, u, 0, 0, 0);
    var delete := DoDelete(Granted, 1, 1, u, true, 0);
    var ds := [send, forward, delete];
    assert ds[..2] == [send, forward] && ds[..2][..1] == [send] && [send][..0] == [];
    var l1 := Enact(EMPTY_LEDGER, send);
    assert EnactAll(EMPTY_LEDGER, [send]) == l1;
    var l2 := Enact(l1, forward);
    assert EnactAll(EMPTY_LEDGER, ds[..2]) == l2;
    var l := Enact(l2, delete);
    assert (1, Some(7)) in l.reports;
    assert InUse(l.table, 7, {}) by { assert 2 in l.table && IsLive(l.table[2]); }
  }
}
