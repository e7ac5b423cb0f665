/** Unread counts, computed by SQL, against `seenBy` lists, computed in the service.

    `createdAt` is a database timestamp in microseconds; a read cursor is a JavaScript date in milliseconds. SQL
    compares the two exactly, whereas the service sees `createdAt` cut down to its millisecond. */
module ReadReceipts {
  import opened GroupRows
  import opened Ids
  import opened Lists
  import opened Messages
  import C = Conversations

  /** A message of the thread with its id. */
  datatype Post = Post(id: MessageId, message: Message)

  type Hides = set<(MessageId, UserId)>

  /** At most one active row per user. */
  ghost predicate UniqueActive(rows: seq<Row>) {
    forall i, j :: ActiveAt(rows, i) && ActiveAt(rows, j) && rows[i].userId == rows[j].userId ==> i == j
  }

  lemma SoundRowsAreUnique(c: C.Conversation)
    requires C.ConversationOk(c)
    ensures UniqueActive(c.rows)
  {
    match c.kind
    case PrivateChat => assert C.PrivateOk(c);
    case GroupChat => assert GroupOk(c.rows);
  }

  /** As in every conversation that can come about. */
  lemma ThreadsAreUniqueActive(acts: seq<C.Action>, conv: ConvId)
    requires conv in C.ActAll(map[], acts)
    ensures UniqueActive(C.ActAll(map[], acts)[conv].rows)
  {
    C.EveryTableIsOk(map[], acts);
    SoundRowsAreUnique(C.ActAll(map[], acts)[conv]);
  }

  /** The WHERE clause of `unreadCounts`, for the active row of the reader. */
  predicate IsUnread(row: Row, m: Post, hides: Hides) {
    && row.leftAt.None?
    && m.message.senderId != row.userId
    && (row.lastReadAt.None? || m.message.createdAt > row.lastReadAt.value * MICROS)
    && IsLive(m.message)
    && (!m.message.undelivered || m.message.senderId == row.userId)
    && (m.id, row.userId) !in hides
  }

  function UnreadCount(row: Row, messages: seq<Post>, hides: Hides): nat {
    if messages == [] then 0
    else (if IsUnread(row, messages[0], hides) then 1 else 0) + UnreadCount(row, messages[1..], hides)
  }

  /** The filter of `toMessageView`. */
  predicate HasSeen(row: Row, m: Post) {
    && row.leftAt.None?
    && row.userId != m.message.senderId
    && row.lastReadAt.Some? && row.lastReadAt.value >= m.message.createdAt / MICROS
  }

  function SeenBy(m: Post, rows: seq<Row>): (r: seq<UserId>) {
    if m.message.undelivered || rows == [] then []
    else (if HasSeen(rows[0], m) then [rows[0].userId] else []) + SeenBy(m, rows[1..])
  }

  /** Messages that count at all: delivered and not deleted. */
  predicate Counts(m: Post) {
    IsLive(m.message) && !m.message.undelivered
  }

  /** An active member other than the sender who has not hidden the message. */
  predicate IsAudience(row: Row, m: Post, hides: Hides) {
    row.leftAt.None? && row.userId != m.message.senderId && (m.id, row.userId) !in hides
  }

  function Audience(m: Post, rows: seq<Row>, hides: Hides): seq<Row> {
    if rows == [] then []
    else (if IsAudience(rows[0], m, hides) then [rows[0]] else []) + Audience(m, rows[1..], hides)
  }

  /** The read cursor stands in the very millisecond of the message, which came a fraction later. */
  predicate SameMillisecond(row: Row, m: Post) {
    row.lastReadAt.Some? && row.lastReadAt.value == m.message.createdAt / MICROS && m.message.createdAt % MICROS != 0
  }

  function Stragglers(m: Post, rows: seq<Row>): nat {
    if rows == [] then 0 else (if SameMillisecond(rows[0], m) then 1 else 0) + Stragglers(m, rows[1..])
  }

  // ---------------------------------------------------------------- one reader, one message

  lemma {:induction false} SeenByHas(m: Post, rows: seq<Row>, u: UserId)
    requires !m.message.undelivered
    ensures u in SeenBy(m, rows) <==> exists i :: 0 <= i < |rows| && rows[i].userId == u && HasSeen(rows[i], m)
  {
    if rows != [] {
      SeenByHas(m, rows[1..], u);
      if exists i :: 0 <= i < |rows| && rows[i].userId == u && HasSeen(rows[i], m) {
        var i :| 0 <= i < |rows| && rows[i].userId == u && HasSeen(rows[i], m);
        assert i > 0 ==> rows[1..][i - 1] == rows[i];
      }
    }
  }

  /** Who is listed as having seen a message: active members other than its sender whose cursor has reached its
      millisecond, and nobody for a message that was withheld. */
  lemma SeenByOutcome(m: Post, rows: seq<Row>, u: UserId)
    ensures u in SeenBy(m, rows) <==>
            && !m.message.undelivered && u != m.message.senderId
            && exists i :: ActiveAt(rows, i) && rows[i].userId == u && rows[i].lastReadAt.Some? &&
                           rows[i].lastReadAt.value >= m.message.createdAt / 1000
  {
    if !m.message.undelivered {
      SeenByHas(m, rows, u);
    }
  }

  /** Which messages count as unread for a row: live ones of others, not withheld and not hidden by the reader, that
      came after the cursor. */
  lemma UnreadOne(row: Row, m: Post, hides: Hides)
    ensures UnreadCount(row, [m], hides) ==
            if && row.leftAt.None? && m.message.senderId != row.userId && m.message.deletedForEveryoneAt.None?
               && !m.message.undelivered && (m.id, row.userId) !in hides
               && (row.lastReadAt.Some? ==> m.message.createdAt > row.lastReadAt.value * 1000)
            then 1 else 0
  {
    assert [m][1..] == [];
  }

  /** Each message is counted by itself. */
  lemma {:induction false} UnreadConcat(row: Row, a: seq<Post>, b: seq<Post>, hides: Hides)
    ensures UnreadCount(row, a + b, hides) == UnreadCount(row, a, hides) + UnreadCount(row, b, hides)
  {
    if a == [] {
      assert a + b == b;
    } else {
      assert (a + b)[1..] == a[1..] + b;
      UnreadConcat(row, a[1..], b, hides);
    }
  }

  /** For a message that counts and a reader in its audience, "unread" and "listed in seenBy" are opposites
      exactly when the cursor does not stand in the message's own millisecond. */
  lemma UnreadIsNotSeen(rows: seq<Row>, i: nat, m: Post, hides: Hides)
    requires UniqueActive(rows) && i < |rows|
    requires Counts(m) && IsAudience(rows[i], m, hides)
    ensures (IsUnread(rows[i], m, hides) <==> rows[i].userId !in SeenBy(m, rows)) <==> !SameMillisecond(rows[i], m)
  {
    SeenByHas(m, rows, rows[i].userId);
    if rows[i].lastReadAt.Some? {
      CursorCompare(rows[i], m);
    }
    assert rows[i].userId in SeenBy(m, rows) <==> HasSeen(rows[i], m);
  }

  /** Comparing exactly and comparing milliseconds differ only within one millisecond. */
  lemma CursorCompare(row: Row, m: Post)
    requires row.lastReadAt.Some?
    ensures m.message.createdAt > row.lastReadAt.value * MICROS <==>
            row.lastReadAt.value < m.message.createdAt / MICROS || SameMillisecond(row, m)
  {
    assert m.message.createdAt == MICROS * (m.message.createdAt / MICROS) + m.message.createdAt % MICROS;
  }

  // ---------------------------------------------------------------- the double count

  function UnreadTotal(rows: seq<Row>, messages: seq<Post>, hides: Hides): nat {
    if rows == [] then 0 else UnreadCount(rows[0], messages, hides) + UnreadTotal(rows[1..], messages, hides)
  }

  /** How many members have the message unread. */
  function Readers(m: Post, rows: seq<Row>, hides: Hides): nat {
    if rows == [] then 0 else (if IsUnread(rows[0], m, hides) then 1 else 0) + Readers(m, rows[1..], hides)
  }

  function ReadersTotal(messages: seq<Post>, rows: seq<Row>, hides: Hides): nat {
    if messages == [] then 0 else Readers(messages[0], rows, hides) + ReadersTotal(messages[1..], rows, hides)
  }

  lemma {:induction false} TotalsAgree(rows: seq<Row>, messages: seq<Post>, hides: Hides)
    ensures UnreadTotal(rows, messages, hides) == ReadersTotal(messages, rows, hides)
    decreases |rows| + |messages|
  {
    if rows == [] {
      NoReaders(messages, hides);
    } else {
      TotalsAgree(rows[1..], messages, hides);
      AddReader(rows, messages, hides);
    }
  }

  lemma {:induction false} NoReaders(messages: seq<Post>, hides: Hides)
    ensures ReadersTotal(messages, [], hides) == 0
  {
    if messages != [] {
      NoReaders(messages[1..], hides);
    }
  }

  lemma {:induction false} AddReader(rows: seq<Row>, messages: seq<Post>, hides: Hides)
    requires rows != []
    ensures ReadersTotal(messages, rows, hides) ==
            UnreadCount(rows[0], messages, hides) + ReadersTotal(messages, rows[1..], hides)
  {
    if messages != [] {
      AddReader(rows, messages[1..], hides);
    }
  }

  /** Who has the message unread: the audience, less those listed in seenBy, plus the stragglers. */
  lemma {:induction false} ReadersOfMessage(m: Post, rows: seq<Row>, hides: Hides)
    ensures var audience := Audience(m, rows, hides);
            Readers(m, rows, hides) ==
            if Counts(m) then |audience| - |SeenBy(m, audience)| + Stragglers(m, audience) else 0
  {
    if rows != [] {
      ReadersOfMessage(m, rows[1..], hides);
      var rest := Audience(m, rows[1..], hides);
      if IsAudience(rows[0], m, hides) {
        assert Audience(m, rows, hides) == [rows[0]] + rest;
        assert ([rows[0]] + rest)[1..] == rest;
        if rows[0].lastReadAt.Some? {
          CursorCompare(rows[0], m);
        }
      } else {
        assert Audience(m, rows, hides) == rest;
      }
    }
  }

  /** What the messages contribute to the sum of unread counts. */
  function Outstanding(messages: seq<Post>, rows: seq<Row>, hides: Hides): int {
    if messages == [] then 0
    else
      var m := messages[0];
      var audience := Audience(m, rows, hides);
      (if Counts(m) then |audience| - |SeenBy(m, audience)| + Stragglers(m, audience) else 0)
      + Outstanding(messages[1..], rows, hides)
  }

  /** The sum of all unread counts, for any members, messages, cursors and hides. */
  lemma {:induction false} UnreadSum(rows: seq<Row>, messages: seq<Post>, hides: Hides)
    ensures UnreadTotal(rows, messages, hides) == Outstanding(messages, rows, hides)
  {
    TotalsAgree(rows, messages, hides);
    ReadersAreOutstanding(messages, rows, hides);
  }

  lemma {:induction false} ReadersAreOutstanding(messages: seq<Post>, rows: seq<Row>, hides: Hides)
    ensures ReadersTotal(messages, rows, hides) == Outstanding(messages, rows, hides)
  {
    if messages != [] {
      ReadersOfMessage(messages[0], rows, hides);
      ReadersAreOutstanding(messages[1..], rows, hides);
    }
  }

  /** Without hides and stragglers a message contributes its active non-senders less its seenBy list. */
  lemma {:induction false} PlainContribution(m: Post, rows: seq<Row>)
    requires Counts(m) && forall i :: 0 <= i < |rows| ==> !SameMillisecond(rows[i], m)
    ensures Readers(m, rows, {}) == |Audience(m, rows, {})| - |SeenBy(m, rows)|
  {
    if rows != [] {
      PlainContribution(m, rows[1..]);
      if rows[0].lastReadAt.Some? {
        CursorCompare(rows[0], m);
      }
    }
  }

  // ---------------------------------------------------------------- marking a thread as seen

  datatype SeenError = NoMembership | NoSuchMessage

  function Advanced(cursor: Option<nat>, now: nat): Option<nat> {
    if cursor.None? || now > cursor.value then Some(now) else cursor
  }

  /** The rows after user `u` marked the thread as seen. */
  function MarkedSeen(rows: seq<Row>, u: UserId, now: nat): (r: seq<Row>)
    ensures |r| == |rows|
    ensures forall i :: 0 <= i < |rows| ==>
              r[i] == if rows[i].userId == u && rows[i].leftAt.None?
                      then rows[i].(lastReadAt := Advanced(rows[i].lastReadAt, now)) else rows[i]
  {
    if rows == [] then []
    else
      var row := rows[0];
      [if row.userId == u && row.leftAt.None? then row.(lastReadAt := Advanced(row.lastReadAt, now)) else row]
      + MarkedSeen(rows[1..], u, now)
  }

  class Thread {
    var rows: seq<Row>
    var messages: seq<Post>
    var hides: Hides

    ghost predicate Valid()
      reads this
    {
      UniqueActive(rows)
    }

    constructor (rows: seq<Row>, messages: seq<Post>, hides: Hides)
      requires UniqueActive(rows)
      ensures Valid() && this.rows == rows && this.messages == messages && this.hides == hides
    {
      this.rows, this.messages, this.hides := rows, messages, hides;
    }

    method FindActive(u: UserId) returns (k: nat)
      ensures k <= |rows|
      ensures k < |rows| ==> ActiveAt(rows, k) && rows[k].userId == u
      ensures k == |rows| ==> forall i :: ActiveAt(rows, i) ==> rows[i].userId != u
    {
      k := 0;
      while k < |rows|
        invariant k <= |rows|
        invariant forall i :: 0 <= i < k ==> !(rows[i].userId == u && rows[i].leftAt.None?)
      {
        if rows[k].userId == u && rows[k].leftAt.None? {
          return;
        }
        k := k + 1;
      }
    }

    method MarkSeen(u: UserId, messageId: Option<MessageId>, now: nat) returns (r: Result<nat, SeenError>)
      requires Valid()
      modifies this`rows
      ensures Valid()
      ensures r == Err(NoMembership) <==> forall i :: ActiveAt(old(rows), i) ==> old(rows)[i].userId != u
      ensures r.Err? ==> rows == old(rows)
      ensures r.Ok? ==> rows == MarkedSeen(old(rows), u, now) && r.value >= now
      ensures r.Ok? <==> && (exists i :: ActiveAt(old(rows), i) && old(rows)[i].userId == u)
                         && (messageId.Some? ==> exists m :: m in messages && m.id == messageId.value)
    {
      var k := FindActive(u);
      if k == |rows| {
        return Err(NoMembership);
      }
      if messageId.Some? {
        var found := false;
        for i := 0 to |messages|
          invariant found <==> exists j :: 0 <= j < i && messages[j].id == messageId.value
        {
          if messages[i].id == messageId.value {
            found := true;
          }
        }
        if !found {
          return Err(NoSuchMessage);
        }
      }
      if rows[k].lastReadAt.None? || now > rows[k].lastReadAt.value {
        rows := rows[k := rows[k].(lastReadAt := Some(now))];
      }
      assert rows == MarkedSeen(old(rows), u, now);
      return Ok(rows[k].lastReadAt.value);
    }
  }

  /** Marking as seen never moves a cursor back and never takes anybody off a seenBy list. */
  lemma {:induction false} SeenOnlyGrows(m: Post, rows: seq<Row>, u: UserId, now: nat)
    ensures forall i :: 0 <= i < |rows| && rows[i].lastReadAt.Some? ==>
              MarkedSeen(rows, u, now)[i].lastReadAt.Some? &&
              rows[i].lastReadAt.value <= MarkedSeen(rows, u, now)[i].lastReadAt.value
    ensures forall v :: v in SeenBy(m, rows) ==> v in SeenBy(m, MarkedSeen(rows, u, now))
  {
    if rows != [] {
      SeenOnlyGrows(m, rows[1..], u, now);
      var marked := MarkedSeen(rows, u, now);
      assert marked[1..] == MarkedSeen(rows[1..], u, now);
    }
  }

  lemma {:induction false} CountIsZero(row: Row, messages: seq<Post>, hides: Hides)
    ensures UnreadCount(row, messages, hides) == 0 <==> forall m :: m in messages ==> !IsUnread(row, m, hides)
  {
    if messages != [] {
      CountIsZero(row, messages[1..], hides);
      assert messages == [messages[0]] + messages[1..];
    }
  }

  /** What is left unread by marking at the clock's millisecond: messages of that very millisecond, a fraction later. */
  predicate CutOff(row: Row, m: Post, hides: Hides, now: nat) {
    && Counts(m) && IsAudience(row, m, hides)
    && m.message.createdAt / MICROS == now && m.message.createdAt % MICROS != 0
  }

  lemma LeftUnread(row: Row, m: Post, hides: Hides, now: nat, nowMicros: nat)
    requires row.leftAt.None? && now == nowMicros / MICROS && m.message.createdAt <= nowMicros
    requires row.lastReadAt.Some? ==> row.lastReadAt.value <= now
    ensures IsUnread(row.(lastReadAt := Advanced(row.lastReadAt, now)), m, hides) <==> CutOff(row, m, hides, now)
  {
    var marked := row.(lastReadAt := Advanced(row.lastReadAt, now));
    assert marked.lastReadAt == Some(now);
    CursorCompare(marked, m);
    assert nowMicros == MICROS * (nowMicros / MICROS) + nowMicros % MICROS;
  }

  /** A cursor that another clock has set further on leaves nothing unread. */
  lemma CursorAheadClears(row: Row, messages: seq<Post>, hides: Hides, now: nat, nowMicros: nat)
    requires now == nowMicros / MICROS && row.lastReadAt.Some? && row.lastReadAt.value > now
    requires forall m :: m in messages ==> m.message.createdAt <= nowMicros
    ensures UnreadCount(row, messages, hides) == 0
  {
    CountIsZero(row, messages, hides);
    assert nowMicros == MICROS * (nowMicros / MICROS) + nowMicros % MICROS;
  }

  /** Marking a thread as seen, at a clock that no message is ahead of, zeroes the caller's unread count if and only if
      no countable message of others falls in the clock's own millisecond, a fraction after its start - unless another
      clock had set the cursor further on already. */
  lemma MarkSeenClears(row: Row, messages: seq<Post>, hides: Hides, now: nat, nowMicros: nat)
    requires row.leftAt.None? && now == nowMicros / MICROS
    requires forall m :: m in messages ==> m.message.createdAt <= nowMicros
    ensures UnreadCount(row.(lastReadAt := Advanced(row.lastReadAt, now)), messages, hides) == 0 <==>
            (row.lastReadAt.Some? && row.lastReadAt.value > now) ||
            forall m :: m in messages ==> !CutOff(row, m, hides, now)
  {
    var marked := row.(lastReadAt := Advanced(row.lastReadAt, now));
    if row.lastReadAt.Some? && row.lastReadAt.value > now {
      CursorAheadClears(row, messages, hides, now, nowMicros);
    } else {
      CountIsZero(marked, messages, hides);
      forall m | m in messages ensures IsUnread(marked, m, hides) <==> CutOff(row, m, hides, now) {
        LeftUnread(row, m, hides, now, nowMicros);
      }
    }
  }

  // ---------------------------------------------------------------- a message both unread and seen

  /** A message sent to user `a` by user `b` at 1.5 ms. */
  function LateFraction(): Post {
    Post(1, Message(1, UserId("b"), false, 1500, None, None, false, None, None, None, None, None))
  }

  /** User `a` marks the thread as seen at 1.7 ms, that is 1 ms: the message counts as unread and lists `a` as seen. */
  lemma SeenYetUnread()
    ensures var rows := [NewRow(UserId("a"), Member, 0), NewRow(UserId("b"), Member, 0)];
            var marked := MarkedSeen(rows, UserId("a"), 1700 / MICROS);
            && UnreadCount(marked[0], [LateFraction()], {}) == 1
            && SeenBy(LateFraction(), marked) == [UserId("a")]
  {
    var rows := [NewRow(UserId("a"), Member, 0), NewRow(UserId("b"), Member, 0)];
    var marked := MarkedSeen(rows, UserId("a"), 1);
    assert UserId("a") != UserId("b") by { assert UserId("a").text[0] == 'a'; }
    assert IsUnread(marked[0], LateFraction(), {}) && HasSeen(marked[0], LateFraction());
    assert !HasSeen(marked[1], LateFraction());
    assert marked[1..][0] == marked[1] && marked[1..][1..] == [];
    assert SeenBy(LateFraction(), marked[1..][1..]) == [] && SeenBy(LateFraction(), marked[1..]) == [];
  }

  /** The same through the service. */
  method MarkedButUnread() returns (thread: Thread, unread: nat, seenBy: seq<UserId>)
    ensures unread == 1 && seenBy == [UserId("a")]
  {
    var rows := [NewRow(UserId("a"), Member, 0), NewRow(UserId("b"), Member, 0)];
    assert UserId("a") != UserId("b") by { assert UserId("a").text[0] == 'a'; }
    thread := new Thread(rows, [LateFraction()], {});
    assert ActiveAt(rows, 0) && rows[0].userId == UserId("a");
    var _ := thread.MarkSeen(UserId("a"), None, 1700 / MICROS);
    SeenYetUnread();
    assert thread.rows == MarkedSeen(rows, UserId("a"), 1700 / MICROS);
    unread := UnreadCount(thread.rows[0], thread.messages, thread.hides);
    seenBy := SeenBy(LateFraction(), thread.rows);
  }
}
