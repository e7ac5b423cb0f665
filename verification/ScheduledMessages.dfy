/** Scheduled messages: filing, cancelling, the dispatcher, and the claim protocol between concurrent dispatchers. */
module ScheduledMessages {
  import opened DeadlineQueue
  import opened Ids
  import opened Lists
  import BlockFlags
  import M = Messages

  const SCHEDULE_MIN_DELAY_MS: nat := 60 * 1000
  const SCHEDULE_MAX_AHEAD_MS: nat := 30 * 24 * 60 * 60 * 1000
  const MAX_PENDING_SCHEDULED_PER_CHAT: nat := 20
  const DISPATCH_BATCH: nat := 25

  datatype Status = Pending | Sending | Sent | Cancelled | Failed

  datatype Row = Row(
    conversationId: ConvId,
    senderId: UserId,
    scheduledFor: nat,
    status: Status,
    sentMessageId: Option<M.MessageId>)

  type Rows = map<RowId, Row>

  datatype ScheduleError =
    | EmptyBody | CallMessage | InvalidTime | TooSoon | TooFarAhead | NoAccess(error: M.MessageError) | CannotMessage
    | TooManyPending | BadReply | NotFound | NotPending

  function PendingQueue(rows: Rows): Queue {
    map r | r in rows.Keys && rows[r].status == Pending :: rows[r].scheduledFor
  }

  function PendingOf(rows: Rows, conv: ConvId, sender: UserId): set<RowId> {
    set r | r in rows.Keys && rows[r].conversationId == conv && rows[r].senderId == sender && rows[r].status == Pending
  }

  /** `scheduleMessage`: the row that is saved, or the refusal. A time that cannot be parsed is `None`. */
  function Schedule(rows: Rows, messages: M.Table, access: M.Access, delivery: M.Delivery, conv: ConvId, sender: UserId,
                    draft: M.Draft, scheduledFor: Option<nat>, now: nat): Result<Row, ScheduleError>
  {
    if !draft.hasBody && draft.attachment.None? then Err(EmptyBody)
    else if draft.isCall then Err(CallMessage)
    else if scheduledFor.None? then Err(InvalidTime)
    else if scheduledFor.value < now + SCHEDULE_MIN_DELAY_MS then Err(TooSoon)
    else if scheduledFor.value > now + SCHEDULE_MAX_AHEAD_MS then Err(TooFarAhead)
    else if access.Refused? then Err(NoAccess(access.error))
    else if delivery == M.Forbidden then Err(CannotMessage)
    else if |PendingOf(rows, conv, sender)| >= MAX_PENDING_SCHEDULED_PER_CHAT then Err(TooManyPending)
    else if draft.replyTo.Some? && !(M.InConversation(messages, conv, draft.replyTo.value) &&
                                     M.IsLive(messages[draft.replyTo.value]))
    then Err(BadReply)
    else Ok(Row(conv, sender, scheduledFor.value, Pending, None))
  }

  /** `cancelScheduledMessage` without interruption. */
  function Cancel(rows: Rows, access: M.Access, id: RowId, conv: ConvId, sender: UserId)
    : (Rows, Result<Row, ScheduleError>)
  {
    if access.Refused? then (rows, Err(NoAccess(access.error)))
    else if id !in rows || rows[id].conversationId != conv || rows[id].senderId != sender then (rows, Err(NotFound))
    else if rows[id].status != Pending then (rows, Err(NotPending))
    else
      var cancelled := rows[id].(status := Cancelled);
      (rows[id := cancelled], Ok(cancelled))
  }

  /** The row after `sendMessage` returned a message id or threw. */
  function Settled(row: Row, outcome: Option<M.MessageId>): Row {
    match outcome
    case Some(id) => row.(status := Sent, sentMessageId := Some(id))
    case None => row.(status := Failed)
  }

  /** The table after every row of the batch was settled. */
  ghost function Dispatched(rows: Rows, batch: set<RowId>, outcomes: map<RowId, M.MessageId>): Rows {
    map r | r in rows ::
      if r in batch then Settled(rows[r], if r in outcomes then Some(outcomes[r]) else None) else rows[r]
  }

  /** Settling one more row of a batch. */
  lemma DispatchOneMore(rows: Rows, done: seq<RowId>, id: RowId, outcomes: map<RowId, M.MessageId>)
    requires id in rows && id !in done
    ensures Elems(done + [id]) == Elems(done) + {id}
    ensures var before := Dispatched(rows, Elems(done), outcomes);
            && before[id] == rows[id]
            && Dispatched(rows, Elems(done + [id]), outcomes) ==
               before[id := Settled(rows[id], if id in outcomes then Some(outcomes[id]) else None)]
  {
    assert Elems(done + [id]) == Elems(done) + {id};
  }

  // ---------------------------------------------------------------- runs and their drain

  /** Operations on the table, one at a time; what conversations, blocks and messages say enters as a parameter. */
  datatype Operation =
    | DoSchedule(id: RowId, messages: M.Table, access: M.Access, delivery: M.Delivery, conv: ConvId, sender: UserId,
                 draft: M.Draft, scheduledFor: Option<nat>, now: nat)
    | DoCancel(access: M.Access, id: RowId, conv: ConvId, sender: UserId, now: nat)
    | DoDispatch(batch: set<RowId>, outcomes: map<RowId, M.MessageId>, now: nat)

  predicate Files(rows: Rows, o: Operation) {
    o.DoSchedule? && o.id !in rows &&
    Schedule(rows, o.messages, o.access, o.delivery, o.conv, o.sender, o.draft, o.scheduledFor, o.now).Ok?
  }

  predicate Cancels(rows: Rows, o: Operation) {
    o.DoCancel? && Cancel(rows, o.access, o.id, o.conv, o.sender).1.Ok?
  }

  ghost predicate Dispatches(rows: Rows, o: Operation) {
    o.DoDispatch? && IsBatch(PendingQueue(rows), o.now, DISPATCH_BATCH, o.batch)
  }

  ghost function Operate(rows: Rows, o: Operation): Rows {
    match o
    case DoSchedule(id, messages, access, delivery, conv, sender, draft, at, now) =>
      if Files(rows, o)
      then rows[id := Schedule(rows, messages, access, delivery, conv, sender, draft, at, now).value] else rows
    case DoCancel(access, id, conv, sender, _) => Cancel(rows, access, id, conv, sender).0
    case DoDispatch(batch, outcomes, _) => if Dispatches(rows, o) then Dispatched(rows, batch, outcomes) else rows
  }

  ghost function OperateAll(rows: Rows, ops: seq<Operation>): Rows {
    if ops == [] then rows else Operate(OperateAll(rows, ops[..|ops| - 1]), ops[|ops| - 1])
  }

  /** What an operation is to the queue of pending rows. */
  ghost function EventOf(rows: Rows, o: Operation): Option<Event> {
    if Files(rows, o) then Some(File(o.now, o.id, o.scheduledFor.value))
    else if Cancels(rows, o) then Some(Withdraw(o.now, o.id))
    else if Dispatches(rows, o) then Some(Serve(o.now, o.batch))
    else None
  }

  lemma OperationIsEvent(rows: Rows, o: Operation)
    ensures var q, next := PendingQueue(rows), PendingQueue(Operate(rows, o));
            match EventOf(rows, o)
            case None => next == q
            case Some(e) => e.now == o.now && Enabled(q, DISPATCH_BATCH, e) && next == Apply(q, e)
  {
    var q, next := PendingQueue(rows), PendingQueue(Operate(rows, o));
    if Files(rows, o) {
      assert next == q[o.id := o.scheduledFor.value];
    } else if Cancels(rows, o) {
      assert next == q - {o.id};
    } else if Dispatches(rows, o) {
      assert next == q - o.batch;
    }
  }

  ghost function EventsOf(rows: Rows, ops: seq<Operation>): seq<Event> {
    if ops == [] then []
    else
      var init, last := ops[..|ops| - 1], ops[|ops| - 1];
      match EventOf(OperateAll(rows, init), last)
      case None => EventsOf(rows, init)
      case Some(e) => EventsOf(rows, init) + [e]
  }

  /** How many dispatcher ticks a run holds. */
  ghost function Ticks(rows: Rows, ops: seq<Operation>): nat {
    if ops == [] then 0
    else
      var init, last := ops[..|ops| - 1], ops[|ops| - 1];
      Ticks(rows, init) + if Dispatches(OperateAll(rows, init), last) then 1 else 0
  }

  /** Rows stay and keep their time. */
  lemma {:induction false} RowsKeepTheirTime(rows: Rows, ops: seq<Operation>)
    ensures var after := OperateAll(rows, ops);
            forall r :: r in rows ==> r in after && after[r].scheduledFor == rows[r].scheduledFor
  {
    if ops != [] {
      RowsKeepTheirTime(rows, ops[..|ops| - 1]);
    }
  }

  /** A run over the table is a run of its queue. */
  lemma {:induction false} OperationsAreQueueRun(rows: Rows, ops: seq<Operation>, t: nat)
    requires forall o :: o in ops ==> t <= o.now
    ensures var q, es, after := PendingQueue(rows), EventsOf(rows, ops), OperateAll(rows, ops);
            && IsRun(q, DISPATCH_BATCH, t, es)
            && After(q, es) == PendingQueue(after)
            && Serves(es) == Ticks(rows, ops)
  {
    if ops != [] {
      var init, last := ops[..|ops| - 1], ops[|ops| - 1];
      assert last in ops && forall o :: o in init ==> o in ops;
      OperationsAreQueueRun(rows, init, t);
      OperationIsEvent(OperateAll(rows, init), last);
      var e := EventOf(OperateAll(rows, init), last);
      if e.Some? {
        RunSnoc(PendingQueue(rows), DISPATCH_BATCH, t, EventsOf(rows, init), e.value);
      }
    }
  }

  /** Every row due at `t` is settled or cancelled after ceil(n / 25) ticks, n being the rows due at `t`, whatever is
      scheduled and cancelled in between. */
  lemma EveryDueRowIsSettled(rows: Rows, ops: seq<Operation>, t: nat, r: RowId)
    requires forall o :: o in ops ==> t <= o.now
    requires r in rows && rows[r].status == Pending && rows[r].scheduledFor <= t
    requires |Due(PendingQueue(rows), t)| <= 25 * Ticks(rows, ops)
    ensures r in OperateAll(rows, ops) && OperateAll(rows, ops)[r].status != Pending
  {
    RowsKeepTheirTime(rows, ops);
    OperationsAreQueueRun(rows, ops, t);
    EveryDueRowIsServed(PendingQueue(rows), DISPATCH_BATCH, t, EventsOf(rows, ops), r);
    assert r !in Due(PendingQueue(OperateAll(rows, ops)), t);
  }

  // ---------------------------------------------------------------- what each operation achieves

  /** The refusals of scheduling, in their order, and the row that is filed otherwise. */
  lemma ScheduleOutcome(rows: Rows, messages: M.Table, access: M.Access, delivery: M.Delivery, conv: ConvId,
                        sender: UserId, draft: M.Draft, at: Option<nat>, now: nat)
    ensures var r := Schedule(rows, messages, access, delivery, conv, sender, draft, at, now);
            var empty := !draft.hasBody && draft.attachment.None?;
            var sound := !empty && !draft.isCall && at.Some? && now + 60000 <= at.value <= now + 2592000000;
            var mine := set id | id in rows && rows[id].conversationId == conv && rows[id].senderId == sender &&
                                 rows[id].status == Pending;
            var replyOk := draft.replyTo.Some? ==>
                             draft.replyTo.value in messages && messages[draft.replyTo.value].conversationId == conv &&
                             messages[draft.replyTo.value].deletedForEveryoneAt.None?;
            && (r == Err(EmptyBody) <==> empty)
            && (r == Err(CallMessage) <==> !empty && draft.isCall)
            && (r == Err(InvalidTime) <==> !empty && !draft.isCall && at.None?)
            && (r == Err(TooSoon) <==> !empty && !draft.isCall && at.Some? && at.value < now + 60000)
            && (r == Err(TooFarAhead) <==> !empty && !draft.isCall && at.Some? && at.value > now + 2592000000)
            && (access.Refused? ==> (r == Err(NoAccess(access.error)) <==> sound))
            && (access.Granted? && sound ==>
                  && (r == Err(CannotMessage) <==> delivery == M.Forbidden)
                  && (r == Err(TooManyPending) <==> delivery != M.Forbidden && |mine| >= 20)
                  && (r == Err(BadReply) <==> delivery != M.Forbidden && |mine| < 20 && !replyOk))
            && (r.Ok? <==> sound && access.Granted? && delivery != M.Forbidden && |mine| < 20 && replyOk)
            && (r.Ok? ==> r.value.conversationId == conv && r.value.senderId == sender &&
                          Some(r.value.scheduledFor) == at && r.value.status == Pending && r.value.sentMessageId.None?)
  {
    assert PendingOf(rows, conv, sender) ==
           set id | id in rows && rows[id].conversationId == conv && rows[id].senderId == sender &&
                    rows[id].status == Pending;
  }

  /** Cancelling succeeds exactly on a member's own pending row, which is then cancelled and otherwise as before, like
      every other row. */
  lemma CancelOutcome(rows: Rows, access: M.Access, id: RowId, conv: ConvId, sender: UserId)
    ensures var (next, r) := Cancel(rows, access, id, conv, sender);
            var own := id in rows && rows[id].conversationId == conv && rows[id].senderId == sender;
            && (r.Ok? <==> access.Granted? && own && rows[id].status == Pending)
            && (r == Err(NotFound) <==> access.Granted? && !own)
            && (r == Err(NotPending) <==> access.Granted? && own && rows[id].status != Pending)
            && (access.Refused? ==> r == Err(NoAccess(access.error)))
            && (r.Err? ==> next == rows)
            && (r.Ok? ==> next == rows[id := rows[id].(status := Cancelled)] && r.value == next[id])
  {
  }

  /** What one tick does to the table: a row of its batch is sent, with the message's id, exactly if `sendMessage`
      returned one, and failed otherwise; everything else stays. */
  ghost predicate TickDone(rows: Rows, next: Rows, batch: set<RowId>, outcomes: map<RowId, M.MessageId>) {
    && next.Keys == rows.Keys
    && (forall r :: r in batch && r in rows ==>
          && next[r] == rows[r].(status := next[r].status, sentMessageId := next[r].sentMessageId)
          && (next[r].status == Sent <==> r in outcomes)
          && (r in outcomes ==> next[r].sentMessageId == Some(outcomes[r]))
          && (r !in outcomes ==> next[r].status == Failed && next[r].sentMessageId == rows[r].sentMessageId))
    && (forall r :: r in rows && r !in batch ==> next[r] == rows[r])
  }

  lemma TickOutcome(rows: Rows, batch: set<RowId>, outcomes: map<RowId, M.MessageId>, now: nat)
    requires Dispatches(rows, DoDispatch(batch, outcomes, now))
    ensures TickDone(rows, Operate(rows, DoDispatch(batch, outcomes, now)), batch, outcomes)
    ensures forall r :: r in batch ==> r in rows && rows[r].status == Pending && rows[r].scheduledFor <= now
    ensures |batch| <= 25
  {
    forall r | r in batch ensures r in rows && rows[r].status == Pending && rows[r].scheduledFor <= now {
      assert r in Due(PendingQueue(rows), now);
    }
  }

  /** Some tick of the run took the row, with this outcome. */
  ghost predicate Took(rows: Rows, ops: seq<Operation>, r: RowId, outcome: Option<M.MessageId>) {
    ops != [] &&
    var init, last := ops[..|ops| - 1], ops[|ops| - 1];
    || Took(rows, init, r, outcome)
    || (Dispatches(OperateAll(rows, init), last) && r in last.batch &&
        outcome == if r in last.outcomes then Some(last.outcomes[r]) else None)
  }

  /** Some cancellation of the run hit the row. */
  ghost predicate WasCancelled(rows: Rows, ops: seq<Operation>, r: RowId) {
    ops != [] &&
    var init, last := ops[..|ops| - 1], ops[|ops| - 1];
    || WasCancelled(rows, init, r)
    || (last.DoCancel? && last.id == r && last.access.Granted? && r in OperateAll(rows, init) &&
        var row := OperateAll(rows, init)[r];
        row.status == Pending && row.conversationId == last.conv && row.senderId == last.sender)
  }

  /** How a row stands. */
  ghost predicate Stands(rows: Rows, r: RowId, status: Status, sent: Option<M.MessageId>) {
    r in rows && rows[r].status == status && rows[r].sentMessageId == sent
  }

  /** A row that is settled or cancelled stays so; a pending one is settled by the tick that takes it, cancelled by a
      cancellation of its own, and otherwise left. */
  lemma RowStep(rows: Rows, o: Operation, r: RowId)
    requires r in rows && (rows[r].status == Pending ==> rows[r].sentMessageId.None?)
    ensures r in Operate(rows, o)
    ensures var row := Operate(rows, o)[r];
            if rows[r].status != Pending then row == rows[r]
            else if Dispatches(rows, o) && r in o.batch then
              if r in o.outcomes then row.status == Sent && row.sentMessageId == Some(o.outcomes[r])
              else row.status == Failed && row.sentMessageId.None?
            else if Cancels(rows, o) && o.id == r then row.status == Cancelled && row.sentMessageId.None?
            else row == rows[r]
  {
    if Dispatches(rows, o) {
      TickOutcome(rows, o.batch, o.outcomes, o.now);
    } else if o.DoCancel? {
      CancelOutcome(rows, o.access, o.id, o.conv, o.sender);
    }
  }

  lemma NewRow(rows: Rows, o: Operation, r: RowId)
    requires r !in rows && r in Operate(rows, o)
    ensures Operate(rows, o)[r].status == Pending && Operate(rows, o)[r].sentMessageId.None?
  {
    if o.DoSchedule? {
      ScheduleOutcome(rows, o.messages, o.access, o.delivery, o.conv, o.sender, o.draft, o.scheduledFor, o.now);
    }
  }

  lemma OnlyStoredRowsAreTaken(rows: Rows, o: Operation, r: RowId)
    requires Dispatches(rows, o) && r in o.batch
    ensures r in rows && rows[r].status == Pending
  {
    TickOutcome(rows, o.batch, o.outcomes, o.now);
  }

  /** In every run from the empty table: a row is sent, as message `m`, exactly if a tick took it and `sendMessage`
      returned `m`; failed exactly if a tick took it and `sendMessage` threw; cancelled exactly if its sender cancelled
      it while it was pending. */
  lemma {:induction false} StatusTellsHistory(ops: seq<Operation>, r: RowId, m: M.MessageId)
    ensures var rows := OperateAll(map[], ops);
            && (Stands(rows, r, Sent, Some(m)) <==> Took(map[], ops, r, Some(m)))
            && (Stands(rows, r, Failed, None) <==> Took(map[], ops, r, None))
            && (Stands(rows, r, Cancelled, None) <==> WasCancelled(map[], ops, r))
            && (r in rows ==> rows[r].status != Sending && (rows[r].status == Sent <==> rows[r].sentMessageId.Some?))
  {
    if ops != [] {
      var init, last := ops[..|ops| - 1], ops[|ops| - 1];
      StatusTellsHistory(init, r, m);
      StatusStep(OperateAll(map[], init), last, r, m);
    }
  }

  lemma StatusStep(rows: Rows, o: Operation, r: RowId, m: M.MessageId)
    requires r in rows ==> rows[r].status != Sending && (rows[r].status == Sent <==> rows[r].sentMessageId.Some?)
    ensures var next := Operate(rows, o);
            && (Stands(next, r, Sent, Some(m)) <==>
                  Stands(rows, r, Sent, Some(m)) ||
                  (Dispatches(rows, o) && r in o.batch && r in o.outcomes && o.outcomes[r] == m))
            && (Stands(next, r, Failed, None) <==>
                  Stands(rows, r, Failed, None) || (Dispatches(rows, o) && r in o.batch && r !in o.outcomes))
            && (Stands(next, r, Cancelled, None) <==>
                  Stands(rows, r, Cancelled, None) || (Cancels(rows, o) && o.id == r))
            && (r in next ==> next[r].status != Sending && (next[r].status == Sent <==> next[r].sentMessageId.Some?))
  {
    if Dispatches(rows, o) && r in o.batch {
      OnlyStoredRowsAreTaken(rows, o, r);
    }
    if r in rows {
      RowStep(rows, o, r);
    } else if r in Operate(rows, o) {
      NewRow(rows, o, r);
    }
  }

  // ---------------------------------------------------------------- the service

  class ScheduledTable {
    const chat: M.MessageService
    var rows: Rows

    constructor (chat: M.MessageService)
      ensures this.chat == chat && rows == map[]
    {
      this.chat, rows := chat, map[];
    }

    method ScheduleMessage(id: RowId, conv: ConvId, sender: UserId, draft: M.Draft, blocks: seq<BlockFlags.Block>,
                           scheduledFor: Option<nat>, now: nat)
      returns (r: Result<Row, ScheduleError>)
      requires id !in rows
      modifies this
      ensures var chats := chat.conversations.conversations;
              r == Schedule(old(rows), chat.messages, M.AccessIn(chats, conv, sender),
                            M.DeliveryIn(chats, conv, sender, blocks), conv, sender, draft, scheduledFor, now)
      ensures rows == if r.Ok? then old(rows)[id := r.value] else old(rows)
    {
      if !draft.hasBody && draft.attachment.None? {
        return Err(EmptyBody);
      }
      if draft.isCall {
        return Err(CallMessage);
      }
      if scheduledFor.None? {
        return Err(InvalidTime);
      }
      if scheduledFor.value < now + SCHEDULE_MIN_DELAY_MS {
        return Err(TooSoon);
      }
      if scheduledFor.value > now + SCHEDULE_MAX_AHEAD_MS {
        return Err(TooFarAhead);
      }
      var access := chat.RequireMembership(conv, sender);
      if access.Refused? {
        return Err(NoAccess(access.error));
      }
      if M.DeliveryIn(chat.conversations.conversations, conv, sender, blocks) == M.Forbidden {
        return Err(CannotMessage);
      }
      if |PendingOf(rows, conv, sender)| >= MAX_PENDING_SCHEDULED_PER_CHAT {
        return Err(TooManyPending);
      }
      if draft.replyTo.Some? {
        var to := draft.replyTo.value;
        if !M.InConversation(chat.messages, conv, to) || chat.messages[to].deletedForEveryoneAt.Some? {
          return Err(BadReply);
        }
      }
      var row := Row(conv, sender, scheduledFor.value, Pending, None);
      rows := rows[id := row];
      return Ok(row);
    }

    method CancelScheduledMessage(id: RowId, conv: ConvId, sender: UserId) returns (r: Result<Row, ScheduleError>)
      modifies this
      ensures (rows, r) ==
              Cancel(old(rows), M.AccessIn(chat.conversations.conversations, conv, sender), id, conv, sender)
    {
      var access := chat.RequireMembership(conv, sender);
      if access.Refused? {
        return Err(NoAccess(access.error));
      }
      if id !in rows || rows[id].conversationId != conv || rows[id].senderId != sender {
        return Err(NotFound);
      }
      if rows[id].status != Pending {
        return Err(NotPending);
      }
      rows := rows[id := rows[id].(status := Cancelled)];
      return Ok(rows[id]);
    }

    /** The conditional update `pending -> sending`; tells whether it hit. */
    method Claim(id: RowId) returns (claimed: bool)
      modifies this
      ensures claimed <==> id in old(rows) && old(rows)[id].status == Pending
      ensures rows == if claimed then old(rows)[id := old(rows)[id].(status := Sending)] else old(rows)
    {
      claimed := id in rows && rows[id].status == Pending;
      if claimed {
        rows := rows[id := rows[id].(status := Sending)];
      }
    }

    /** One dispatcher tick that nobody interferes with. `outcomes` tells what `sendMessage` does with each row. */
    method DispatchDueScheduled(now: nat, outcomes: map<RowId, M.MessageId>)
      returns (delivered: seq<RowId>, ghost batch: set<RowId>)
      modifies this
      ensures Dispatches(old(rows), DoDispatch(batch, outcomes, now))
      ensures rows == Operate(old(rows), DoDispatch(batch, outcomes, now))
      ensures TickDone(old(rows), rows, batch, outcomes)
      ensures Elems(delivered) == batch * outcomes.Keys && NoDup(delivered)
    {
      var due := TakeEarliest(PendingQueue(rows), now, DISPATCH_BATCH);
      batch := Elems(due);
      forall r | r in due ensures r in Due(PendingQueue(rows), now) {
        assert r in Elems(due);
      }
      delivered := DispatchRows(due, outcomes);
    }

    /** The dispatcher's loop over its batch. */
    method DispatchRows(due: seq<RowId>, outcomes: map<RowId, M.MessageId>) returns (delivered: seq<RowId>)
      requires NoDup(due) && forall r :: r in due ==> r in rows && rows[r].status == Pending
      modifies this
      ensures rows == Dispatched(old(rows), Elems(due), outcomes)
      ensures Elems(delivered) == Elems(due) * outcomes.Keys && NoDup(delivered)
    {
      delivered := [];
      for i := 0 to |due|
        invariant rows == Dispatched(old(rows), Elems(due[..i]), outcomes)
        invariant Elems(delivered) == Elems(due[..i]) * outcomes.Keys && NoDup(delivered)
      {
        var id := due[i];
        assert due[..i + 1] == due[..i] + [id];
        DispatchOneMore(old(rows), due[..i], id, outcomes);
        var claimed := Claim(id);
        if !claimed {
          continue;
        }
        if id in outcomes {
          rows := rows[id := rows[id].(status := Sent, sentMessageId := Some(outcomes[id]))];
          assert Elems(delivered + [id]) == Elems(delivered) + {id};
          delivered := delivered + [id];
        } else {
          rows := rows[id := rows[id].(status := Failed)];
        }
      }
      assert due[..|due|] == due;
    }
  }

  // ---------------------------------------------------------------- concurrent dispatchers and cancellers

  type WorkerId = nat

  /** Where a dispatcher stands: between ticks; about to claim the next row of its batch; holding a claimed row it
      is about to pass to `sendMessage`; or about to save the outcome. */
  datatype Phase =
    | Idle
    | Claiming(batch: seq<RowId>)
    | Holding(row: RowId, rest: seq<RowId>)
    | Saving(row: RowId, sent: bool, rest: seq<RowId>)

  /** The table, the dispatchers, the cancellers that have read a pending row and are about to save it as
      cancelled, and every row passed to `sendMessage`, in order. */
  datatype Pool = Pool(
    rows: Rows,
    workers: map<WorkerId, Phase>,
    cancels: map<nat, RowId>,
    sends: seq<RowId>)

  datatype Move =
    | FileRow(o: Operation)
    | ReadBatch(w: WorkerId, now: nat, batch: seq<RowId>)
    | ClaimNext(w: WorkerId)
    | SendHeld(w: WorkerId, ok: bool)
    | SaveOutcome(w: WorkerId)
    | Crash(w: WorkerId)
    | CancelRead(k: nat, id: RowId)
    | CancelSave(k: nat)

  const EMPTY_POOL := Pool(map[], map[], map[], [])

  function PhaseOf(p: Pool, w: WorkerId): Phase {
    if w in p.workers then p.workers[w] else Idle
  }

  function WithPhase(p: Pool, w: WorkerId, phase: Phase): Pool {
    p.(workers := p.workers[w := phase])
  }

  function WithStatus(p: Pool, id: RowId, status: Status): Pool {
    if id in p.rows then p.(rows := p.rows[id := p.rows[id].(status := status)]) else p
  }

  /** A move that is not enabled changes nothing. */
  ghost function MoveOn(p: Pool, m: Move): Pool {
    match m
    case FileRow(o) => if Files(p.rows, o) then p.(rows := Operate(p.rows, o)) else p
    case ReadBatch(w, now, batch) =>
      if PhaseOf(p, w) == Idle && NoDup(batch) && IsBatch(PendingQueue(p.rows), now, DISPATCH_BATCH, Elems(batch))
      then WithPhase(p, w, Claiming(batch)) else p
    case ClaimNext(w) =>
      var phase := PhaseOf(p, w);
      if !phase.Claiming? then p
      else if phase.batch == [] then WithPhase(p, w, Idle)
      else
        var id, rest := phase.batch[0], phase.batch[1..];
        if id in p.rows && p.rows[id].status == Pending then WithPhase(WithStatus(p, id, Sending), w, Holding(id, rest))
        else WithPhase(p, w, Claiming(rest))
    case SendHeld(w, ok) =>
      var phase := PhaseOf(p, w);
      if !phase.Holding? then p
      else WithPhase(p.(sends := p.sends + [phase.row]), w, Saving(phase.row, ok, phase.rest))
    case SaveOutcome(w) =>
      var phase := PhaseOf(p, w);
      if !phase.Saving? then p
      else WithPhase(WithStatus(p, phase.row, if phase.sent then Sent else Failed), w, Claiming(phase.rest))
    case Crash(w) => WithPhase(p, w, Idle)
    case CancelRead(k, id) =>
      if id in p.rows && p.rows[id].status == Pending then p.(cancels := p.cancels[k := id]) else p
    case CancelSave(k) =>
      // an unconditional save of the row that was read, whatever became of it since
      if k !in p.cancels then p else WithStatus(p, p.cancels[k], Cancelled).(cancels := p.cancels - {k})
  }

  ghost function MoveAll(p: Pool, ms: seq<Move>): Pool
    decreases |ms|
  {
    if ms == [] then p else MoveAll(MoveOn(p, ms[0]), ms[1..])
  }

  ghost predicate HoldsRow(p: Pool, w: WorkerId, id: RowId) {
    w in p.workers && p.workers[w].Holding? && p.workers[w].row == id
  }

  /** The row is claimed and not yet passed on, or already passed to `sendMessage`. */
  ghost predicate Taken(p: Pool, id: RowId) {
    id in p.sends || exists w :: HoldsRow(p, w, id)
  }

  /** Statuses only leave `pending`; a held row has one holder and was never passed on. */
  ghost predicate PoolInv(p: Pool) {
    && NoDup(p.sends)
    && (forall id :: id in p.sends ==> id in p.rows && p.rows[id].status != Pending)
    && (forall w, id :: HoldsRow(p, w, id) ==> id in p.rows && p.rows[id].status != Pending && id !in p.sends)
    && (forall w, v, id :: HoldsRow(p, w, id) && HoldsRow(p, v, id) ==> w == v)
    && (forall w :: w in p.workers && p.workers[w].Saving? ==> p.workers[w].row in p.sends)
  }

  /** A claimed row is passed on once and saved with what came of it. */
  lemma HeldRowIsSettled(p: Pool, w: WorkerId, ok: bool)
    requires PhaseOf(p, w).Holding? && PhaseOf(p, w).row in p.rows
    ensures var row := PhaseOf(p, w).row;
            var q := MoveOn(MoveOn(p, SendHeld(w, ok)), SaveOutcome(w));
            && q.sends == p.sends + [row] && q.cancels == p.cancels && q.rows.Keys == p.rows.Keys
            && (q.rows[row].status == Sent <==> ok) && (q.rows[row].status == Failed <==> !ok)
            && (forall r :: r in p.rows && r != row ==> q.rows[r] == p.rows[r])
            && PhaseOf(q, w) == Claiming(PhaseOf(p, w).rest)
  {
    var mid := MoveOn(p, SendHeld(w, ok));
    assert PhaseOf(mid, w) == Saving(PhaseOf(p, w).row, ok, PhaseOf(p, w).rest);
  }

  /** A dispatcher takes the next row of its batch only if it is still pending, and it is then marked as being sent; a
      crash forgets what the dispatcher was doing and leaves the table, the sends and everybody else alone. */
  lemma ClaimOrCrash(p: Pool, w: WorkerId, id: RowId, rest: seq<RowId>)
    requires PhaseOf(p, w) == Claiming([id] + rest)
    ensures var q := MoveOn(p, ClaimNext(w));
            var pending := id in p.rows && p.rows[id].status == Pending;
            && PhaseOf(q, w) == (if pending then Holding(id, rest) else Claiming(rest))
            && q.rows == (if pending then p.rows[id := p.rows[id].(status := Sending)] else p.rows)
            && q.sends == p.sends && q.cancels == p.cancels
            && forall v :: v != w ==> PhaseOf(q, v) == PhaseOf(p, v)
    ensures var q := MoveOn(p, Crash(w));
            && PhaseOf(q, w) == Idle && q.rows == p.rows && q.sends == p.sends && q.cancels == p.cancels
            && forall v :: v != w ==> PhaseOf(q, v) == PhaseOf(p, v)
  {
    assert ([id] + rest)[1..] == rest;
  }

  lemma ClaimKeepsPoolInv(p: Pool, w: WorkerId)
    requires PoolInv(p)
    ensures PoolInv(MoveOn(p, ClaimNext(w)))
  {
    var q := MoveOn(p, ClaimNext(w));
    if PhaseOf(p, w).Claiming? {
      forall v, id | HoldsRow(q, v, id)
        ensures id in q.rows && q.rows[id].status != Pending && id !in q.sends
        ensures v != w ==> HoldsRow(p, v, id)
        ensures v == w ==> id in p.rows && p.rows[id].status == Pending
      {
        assert v != w ==> HoldsRow(p, v, id);
      }
    }
  }

  lemma SendKeepsPoolInv(p: Pool, w: WorkerId, ok: bool)
    requires PoolInv(p)
    ensures PoolInv(MoveOn(p, SendHeld(w, ok)))
  {
    var q := MoveOn(p, SendHeld(w, ok));
    if PhaseOf(p, w).Holding? {
      assert HoldsRow(p, w, PhaseOf(p, w).row);
      forall v, id | HoldsRow(q, v, id) ensures v != w && HoldsRow(p, v, id) {
      }
    }
  }

  lemma MoveKeepsPoolInv(p: Pool, m: Move)
    requires PoolInv(p)
    ensures PoolInv(MoveOn(p, m))
  {
    match m
    case ClaimNext(w) => ClaimKeepsPoolInv(p, w);
    case SendHeld(w, ok) => SendKeepsPoolInv(p, w, ok);
    case _ =>
      forall v, id | HoldsRow(MoveOn(p, m), v, id) ensures HoldsRow(p, v, id) {
      }
  }

  /** Any number of dispatchers and cancellers, any interleaving, crashes included: no scheduled row is passed to
      `sendMessage` twice. */
  lemma {:induction false} AtMostOnce(p: Pool, ms: seq<Move>)
    requires PoolInv(p)
    ensures PoolInv(MoveAll(p, ms)) && NoDup(MoveAll(p, ms).sends)
    decreases |ms|
  {
    if ms != [] {
      MoveKeepsPoolInv(p, ms[0]);
      AtMostOnce(MoveOn(p, ms[0]), ms[1..]);
    }
  }

  lemma EveryDispatchRunSendsAtMostOnce(ms: seq<Move>, i: nat, j: nat)
    requires i < j < |MoveAll(EMPTY_POOL, ms).sends|
    ensures MoveAll(EMPTY_POOL, ms).sends[i] != MoveAll(EMPTY_POOL, ms).sends[j]
  {
    AtMostOnce(EMPTY_POOL, ms);
  }

  // ---------------------------------------------------------------- what a cancellation is worth

  lemma UntakenStep(p: Pool, m: Move, id: RowId)
    requires id in p.rows && p.rows[id].status != Pending && !Taken(p, id)
    ensures !Taken(MoveOn(p, m), id)
  {
    var q := MoveOn(p, m);
    forall w ensures !HoldsRow(q, w, id) {
      assert !HoldsRow(p, w, id);
    }
    if m.SendHeld? {
      assert !HoldsRow(p, m.w, id);
    }
  }

  /** A row that left `pending` untaken is never taken. */
  lemma {:induction false} UntakenStaysUntaken(p: Pool, ms: seq<Move>, id: RowId)
    requires PoolInv(p) && id in p.rows && p.rows[id].status != Pending && !Taken(p, id)
    ensures id !in MoveAll(p, ms).sends
    decreases |ms|
  {
    if ms != [] {
      var q := MoveOn(p, ms[0]);
      MoveKeepsPoolInv(p, ms[0]);
      UntakenStep(p, ms[0], id);
      UntakenStaysUntaken(q, ms[1..], id);
    }
  }

  /** The moment a canceller saves decides: its row is kept from being sent, in every continuation, exactly when
      no dispatcher had taken the row by then. */
  lemma CancelHoldsExactlyWhenUntaken(p: Pool, k: nat)
    requires PoolInv(p) && k in p.cancels && p.cancels[k] in p.rows
    ensures (forall ms :: p.cancels[k] !in MoveAll(MoveOn(p, CancelSave(k)), ms).sends) <==> !Taken(p, p.cancels[k])
  {
    var id, q := p.cancels[k], MoveOn(p, CancelSave(k));
    MoveKeepsPoolInv(p, CancelSave(k));
    assert forall w :: HoldsRow(q, w, id) <==> HoldsRow(p, w, id);
    if id in p.sends {
      assert id in MoveAll(q, []).sends;
    } else if Taken(p, id) {
      var w :| HoldsRow(p, w, id);
      var ms := [] + [SendHeld(w, true)];
      MoveAllSnoc(q, [], SendHeld(w, true));
      assert MoveAll(q, ms) == MoveOn(q, SendHeld(w, true));
      assert id in MoveAll(q, ms).sends;
    } else {
      forall ms ensures id !in MoveAll(q, ms).sends {
        UntakenStaysUntaken(q, ms, id);
      }
    }
  }

  /** A row still pending when the canceller saves, as when the cancellation is atomic, is never sent. */
  lemma AtomicCancelHolds(p: Pool, k: nat, ms: seq<Move>)
    requires PoolInv(p) && k in p.cancels && p.cancels[k] in p.rows && p.rows[p.cancels[k]].status == Pending
    ensures p.cancels[k] !in MoveAll(MoveOn(p, CancelSave(k)), ms).sends
  {
    var id := p.cancels[k];
    assert forall w :: !HoldsRow(p, w, id);
    CancelHoldsExactlyWhenUntaken(p, k);
  }

  /** If a dispatcher gets between the two halves of a cancellation, the row ends up both cancelled and sent. */
  lemma RacedCancelIsSent(p: Pool, k: nat, w: WorkerId)
    requires k in p.cancels && p.cancels[k] in p.rows && p.rows[p.cancels[k]].status == Pending
    requires PhaseOf(p, w).Claiming? && PhaseOf(p, w).batch != [] && PhaseOf(p, w).batch[0] == p.cancels[k]
    ensures var q := MoveOn(MoveOn(MoveOn(MoveOn(p, ClaimNext(w)), SendHeld(w, true)), SaveOutcome(w)), CancelSave(k));
            p.cancels[k] in q.sends && p.cancels[k] in q.rows && q.rows[p.cancels[k]].status == Cancelled
  {
    var p1 := MoveOn(p, ClaimNext(w));
    assert PhaseOf(p1, w) == Holding(p.cancels[k], PhaseOf(p, w).batch[1..]);
    var p2 := MoveOn(p1, SendHeld(w, true));
    assert p2.sends == p.sends + [p.cancels[k]];
    var p3 := MoveOn(p2, SaveOutcome(w));
    assert p3.cancels == p.cancels && p3.sends == p2.sends;
  }

  /** And that race is reachable. */
  lemma RaceIsReachable()
    ensures exists ms, k, w ::
              var p := MoveAll(EMPTY_POOL, ms);
              && k in p.cancels && p.cancels[k] in p.rows && p.rows[p.cancels[k]].status == Pending
              && PhaseOf(p, w).Claiming? && PhaseOf(p, w).batch != [] && PhaseOf(p, w).batch[0] == p.cancels[k]
  {
    var draft := M.Draft(true, None, false, false, None);
    var file := FileRow(DoSchedule(3, map[], M.Granted, M.Delivered, 1, UserId("a"), draft, Some(60000), 0));
    var ms1 := [file];
    assert ms1 == [] + [file];
    MoveAllSnoc(EMPTY_POOL, [], file);
    var p1 := MoveAll(EMPTY_POOL, ms1);
    assert PendingOf(map[], 1, UserId("a")) == {};
    assert p1 == EMPTY_POOL.(rows := map[3 := Row(1, UserId("a"), 60000, Pending, None)]);
    var ms2 := ms1 + [CancelRead(0, 3)];
    MoveAllSnoc(EMPTY_POOL, ms1, CancelRead(0, 3));
    var p2 := MoveAll(EMPTY_POOL, ms2);
    DueAlone(p2.rows, 3, 60000);
    var ms3 := ms2 + [ReadBatch(0, 60000, [3])];
    MoveAllSnoc(EMPTY_POOL, ms2, ReadBatch(0, 60000, [3]));
    var p := MoveAll(EMPTY_POOL, ms3);
    assert PhaseOf(p, 0) == Claiming([3]);
    assert p.cancels[0] == 3;
  }

  /** A single due row is a batch. */
  lemma DueAlone(rows: Rows, id: RowId, now: nat)
    requires rows.Keys == {id} && rows[id].status == Pending && rows[id].scheduledFor <= now
    ensures NoDup([id]) && IsBatch(PendingQueue(rows), now, DISPATCH_BATCH, Elems([id]))
  {
    assert Due(PendingQueue(rows), now) == {id};
    assert Elems([id]) == {id};
  }

  lemma {:induction false} MoveAllSnoc(p: Pool, ms: seq<Move>, m: Move)
    ensures MoveAll(p, ms + [m]) == MoveOn(MoveAll(p, ms), m)
    decreases |ms|
  {
    if ms == [] {
      assert ([] + [m])[1..] == [];
    } else {
      assert (ms + [m])[1..] == ms[1..] + [m];
      MoveAllSnoc(MoveOn(p, ms[0]), ms[1..], m);
    }
  }
}
