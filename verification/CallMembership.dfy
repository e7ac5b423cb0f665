/** Calls beside the conversations they belong to: membership changes first, the eviction from the call follows
    as a separate, later step. */
module CallMembership {
  import opened Calls
  import opened CallInvariant
  import opened CallRuns
  import opened CallService
  import opened Ids
  import opened Lists
  import B = BlockFlags
  import C = Conversations
  import G = GroupRows

  datatype PrepareError = ConversationNotFound | NotAMember | TooFew | TooMany | Blocked | NobodyAvailable
  datatype Prepared = Prepared(kind: Kind, memberIds: seq<UserId>, peerIds: seq<UserId>)

  function KindOf(c: C.Conversation): Kind {
    if c.kind == C.GroupChat then Group else Private
  }

  /** `activeMembers.map((member) => member.userId)`. */
  function ActiveIds(rows: seq<G.Row>): seq<UserId> {
    if rows == [] then []
    else
      ActiveIds(rows[..|rows| - 1]) +
      if rows[|rows| - 1].leftAt.None? then [rows[|rows| - 1].userId] else []
  }

  lemma {:induction false} ActiveIdsAt(rows: seq<G.Row>, u: UserId)
    ensures u in ActiveIds(rows) <==> exists i :: G.ActiveAt(rows, i) && rows[i].userId == u
  {
    if rows != [] {
      var n := |rows| - 1;
      ActiveIdsAt(rows[..n], u);
      assert forall i :: G.ActiveAt(rows[..n], i) ==> G.ActiveAt(rows, i);
      if exists i :: G.ActiveAt(rows, i) && rows[i].userId == u {
        var i :| G.ActiveAt(rows, i) && rows[i].userId == u;
        assert i < n ==> G.ActiveAt(rows[..n], i);
      }
      if rows[n].leftAt.None? {
        assert G.ActiveAt(rows, n);
      }
    }
  }

  /** The list holds exactly the active members. */
  lemma ActiveIdsAreMembers(rows: seq<G.Row>, u: UserId)
    ensures u in ActiveIds(rows) <==> G.IsActiveMember(rows, u)
  {
    ActiveIdsAt(rows, u);
    if G.IsActiveMember(rows, u) {
      assert G.ActiveAt(rows, G.ActiveIndex(rows, u));
    }
  }

  lemma {:induction false} ActiveIdsAreDistinct(rows: seq<G.Row>)
    requires forall i, j :: G.ActiveAt(rows, i) && G.ActiveAt(rows, j) && rows[i].userId == rows[j].userId ==> i == j
    ensures NoDup(ActiveIds(rows))
  {
    if rows != [] {
      var n := |rows| - 1;
      assert forall i :: G.ActiveAt(rows[..n], i) ==> G.ActiveAt(rows, i);
      ActiveIdsAreDistinct(rows[..n]);
      if rows[n].leftAt.None? {
        assert G.ActiveAt(rows, n);
        ActiveIdsAt(rows[..n], rows[n].userId);
        assert rows[n].userId !in ActiveIds(rows[..n]);
      }
    }
  }

  lemma SoundActiveIds(c: C.Conversation)
    requires C.ConversationOk(c)
    ensures NoDup(ActiveIds(c.rows))
  {
    match c.kind {
      case PrivateChat => assert C.PrivateOk(c);
      case GroupChat => assert G.GroupOk(c.rows);
    }
    ActiveIdsAreDistinct(c.rows);
  }

  predicate BlockedEitherWay(blocks: seq<B.Block>, a: UserId, b: UserId) {
    B.Block(a, b) in blocks || B.Block(b, a) in blocks
  }

  /** The active members other than the actor whom no block separates from the actor. */
  function Reachable(active: seq<UserId>, blocks: seq<B.Block>, actor: UserId): (r: seq<UserId>)
    ensures forall u :: u in r <==> u in active && u != actor && !BlockedEitherWay(blocks, actor, u)
  {
    Filter(active, (u: UserId) => u != actor && !BlockedEitherWay(blocks, actor, u))
  }

  /** `prepareVoiceCall`: membership and blocks are checked; every active member is listed all the same. */
  ghost function Prepare(table: C.Table, conv: ConvId, blocks: seq<B.Block>, actor: UserId)
    : (r: Result<Prepared, PrepareError>)
    ensures r.Ok? ==> conv in table && G.IsActiveMember(table[conv].rows, actor) && r.value.kind == KindOf(table[conv])
    ensures r.Ok? ==> r.value.memberIds == ActiveIds(table[conv].rows)
    ensures r.Ok? && r.value.kind == Group ==> |r.value.memberIds| <= MAX_GROUP_CALL
  {
    if conv !in table || table[conv].deleted then Err(ConversationNotFound)
    else if !G.IsActiveMember(table[conv].rows, actor) then Err(NotAMember)
    else
      var kind, active := KindOf(table[conv]), ActiveIds(table[conv].rows);
      var peers := Reachable(active, blocks, actor);
      if |active| < 2 then Err(TooFew)
      else if kind == Group && |active| > MAX_GROUP_CALL then Err(TooMany)
      else if kind == Private && exists u :: u in active && u != actor && BlockedEitherWay(blocks, actor, u)
      then Err(Blocked)
      else if peers == [] then Err(NobodyAvailable)
      else Ok(Prepared(kind, active, peers))
  }

  lemma ReachableSnoc(active: seq<UserId>, blocks: seq<B.Block>, actor: UserId, u: UserId)
    ensures Reachable(active + [u], blocks, actor) ==
            Reachable(active, blocks, actor) +
            if u != actor && !BlockedEitherWay(blocks, actor, u) then [u] else []
  {
    assert (active + [u])[..|active|] == active;
  }

  /** The loop over the active members: a block ends it in a private chat, and passes the member by in a group. */
  method PeersLoop(kind: Kind, active: seq<UserId>, blocks: seq<B.Block>, actor: UserId)
    returns (r: Result<seq<UserId>, PrepareError>)
    ensures r == if kind == Private && exists u :: u in active && u != actor && BlockedEitherWay(blocks, actor, u)
                 then Err(Blocked) else Ok(Reachable(active, blocks, actor))
  {
    var peers := [];
    for i := 0 to |active|
      invariant peers == Reachable(active[..i], blocks, actor)
      invariant kind == Private ==>
                  forall j :: 0 <= j < i && active[j] != actor ==> !BlockedEitherWay(blocks, actor, active[j])
    {
      var u := active[i];
      assert active[..i + 1] == active[..i] + [u];
      ReachableSnoc(active[..i], blocks, actor, u);
      if u == actor {
        continue;
      }
      if BlockedEitherWay(blocks, actor, u) {
        if kind == Private {
          return Err(Blocked);
        }
        continue;
      }
      peers := peers + [u];
    }
    assert active[..|active|] == active;
    return Ok(peers);
  }

  /** `prepareVoiceCall`. */
  method PrepareVoiceCall(conversations: C.ConversationService, conv: ConvId, blocks: seq<B.Block>, actor: UserId)
    returns (r: Result<Prepared, PrepareError>)
    ensures r == Prepare(conversations.conversations, conv, blocks, actor)
  {
    var found := conversations.RequireMembership(conv, actor);
    if found.Err? {
      return Err(if found.error == C.NotFound then ConversationNotFound else NotAMember);
    }
    var kind, active := KindOf(found.value), ActiveIds(found.value.rows);
    if |active| < 2 {
      return Err(TooFew);
    }
    if kind == Group && |active| > MAX_GROUP_CALL {
      return Err(TooMany);
    }
    var peers := PeersLoop(kind, active, blocks, actor);
    if peers.Err? {
      return Err(peers.error);
    }
    if |peers.value| == 0 {
      return Err(NobodyAvailable);
    }
    return Ok(Prepared(kind, active, peers.value));
  }

  /** The member has an active row and is not the actor. */
  ghost predicate OtherMember(rows: seq<G.Row>, actor: UserId, u: UserId) {
    u != actor && exists i :: G.ActiveAt(rows, i) && rows[i].userId == u
  }

  /** One of the two has blocked the other. */
  ghost predicate Apart(blocks: seq<B.Block>, a: UserId, b: UserId) {
    exists k :: k in blocks && ((k.blockerId == a && k.blockedId == b) || (k.blockerId == b && k.blockedId == a))
  }

  lemma ApartMeans(blocks: seq<B.Block>, a: UserId, b: UserId)
    ensures Apart(blocks, a, b) <==> BlockedEitherWay(blocks, a, b)
  {
    if BlockedEitherWay(blocks, a, b) {
      var k := if B.Block(a, b) in blocks then B.Block(a, b) else B.Block(b, a);
      assert k in blocks;
    }
    if Apart(blocks, a, b) {
      var k :| k in blocks && ((k.blockerId == a && k.blockedId == b) || (k.blockerId == b && k.blockedId == a));
      assert k == B.Block(a, b) || k == B.Block(b, a);
    }
  }

  /** Who may start a call, and with whom: every refusal in its order; everybody active is listed, and everybody active
      but the actor, and those a block separates from the actor, is rung. */
  lemma PrepareOutcome(table: C.Table, conv: ConvId, blocks: seq<B.Block>, actor: UserId)
    requires C.TableOk(table)
    ensures var r := Prepare(table, conv, blocks, actor);
            var there := conv in table && !table[conv].deleted;
            && (r == Err(ConversationNotFound) <==> !there)
            && (r == Err(NotAMember) <==> there && !G.IsActiveMember(table[conv].rows, actor))
            && (there && G.IsActiveMember(table[conv].rows, actor) ==> Admitted(table[conv], blocks, actor, r))
  {
    if conv in table && G.IsActiveMember(table[conv].rows, actor) {
      SoundActiveIds(table[conv]);
      ReachableMembers(table[conv].rows, blocks, actor);
      forall u ensures Apart(blocks, actor, u) <==> BlockedEitherWay(blocks, actor, u) {
        ApartMeans(blocks, actor, u);
      }
    }
  }

  lemma ReachableMembers(rows: seq<G.Row>, blocks: seq<B.Block>, actor: UserId)
    ensures var active := ActiveIds(rows);
            var peers := Reachable(active, blocks, actor);
            && |active| == G.ActiveCount(rows)
            && (forall u :: u in active <==> exists i :: G.ActiveAt(rows, i) && rows[i].userId == u)
            && (forall u :: u in peers <==> OtherMember(rows, actor, u) && !Apart(blocks, actor, u))
            && (peers == [] <==> forall u :: OtherMember(rows, actor, u) ==> Apart(blocks, actor, u))
  {
    ActiveIdsCount(rows);
    forall u ensures Apart(blocks, actor, u) <==> BlockedEitherWay(blocks, actor, u) {
      ApartMeans(blocks, actor, u);
    }
    var active := ActiveIds(rows);
    forall u ensures u in active <==> exists i :: G.ActiveAt(rows, i) && rows[i].userId == u {
      ActiveIdsAt(rows, u);
    }
    var peers := Reachable(active, blocks, actor);
    assert forall u :: u in active && u != actor <==> OtherMember(rows, actor, u);
    assert peers != [] ==> peers[0] in peers;
  }

  /** The answer to a member. */
  ghost predicate Admitted(c: C.Conversation, blocks: seq<B.Block>, actor: UserId, r: Result<Prepared, PrepareError>) {
    var n := G.ActiveCount(c.rows);
    var fits := n >= 2 && (c.kind == C.PrivateChat || n <= 8);
    var cut := c.kind == C.PrivateChat &&
               exists u :: OtherMember(c.rows, actor, u) && Apart(blocks, actor, u);
    var alone := forall u :: OtherMember(c.rows, actor, u) ==> Apart(blocks, actor, u);
    && (r == Err(TooFew) <==> n < 2)
    && (r == Err(TooMany) <==> c.kind == C.GroupChat && n > 8)
    && (r == Err(Blocked) <==> fits && cut)
    && (r == Err(NobodyAvailable) <==> fits && !cut && alone)
    && (r.Ok? <==> fits && !cut && !alone)
    && (r.Ok? ==>
          && (r.value.kind == Group <==> c.kind == C.GroupChat)
          && NoDup(r.value.memberIds) && NoDup(r.value.peerIds)
          && (forall u :: u in r.value.memberIds <==> exists i :: G.ActiveAt(c.rows, i) && c.rows[i].userId == u)
          && (forall u :: u in r.value.peerIds <==>
                OtherMember(c.rows, actor, u) && !Apart(blocks, actor, u)))
  }

  lemma {:induction false} ActiveIdsCount(rows: seq<G.Row>)
    ensures |ActiveIds(rows)| == G.ActiveCount(rows)
  {
    if rows != [] {
      ActiveIdsCount(rows[..|rows| - 1]);
    }
  }

  /** The calls, the conversations, and the evictions that are still to run. */
  datatype Chamber = Chamber(call: World, table: C.Table, pending: set<(ConvId, UserId)>)

  datatype Event =
    /** Any call operation other than the two that bring people in. */
    | Call(op: Op)
    | StartCall(conv: ConvId, actor: UserId, media: Media, id: CallId, blocks: seq<B.Block>)
    | InviteToCall(c: CallId, actor: UserId, userIds: seq<UserId>, blocks: seq<B.Block>)
    /** Anything the conversation service does; whoever leaves or is removed is evicted later. */
    | Chat(a: C.Action)
    | Evict(conv: ConvId, u: UserId)

  const EMPTY_CHAMBER := Chamber(EMPTY_WORLD, map[], {})

  /** The evictions the gateway starts after a successful request. */
  function Unseats(t: C.Table, a: C.Action): set<(ConvId, UserId)> {
    if a.DoRequest? && C.Perform(t, a.id, a.actor, a.q, a.now).1.Ok? then
      match a.q
      case RemoveMember(target) => {(a.id, target)}
      case LeaveGroup => {(a.id, a.actor)}
      case _ => {}
    else {}
  }

  /** Evicted is exactly who has just lost a seat, unless the whole group went. */
  lemma EvictedLostTheirSeat(t: C.Table, a: C.Action, conv: ConvId, u: UserId)
    requires C.TableOk(t)
    ensures (conv, u) in Unseats(t, a) <==>
            && a.DoRequest? && a.id == conv && !a.q.DeleteGroup? && conv in t
            && G.IsActiveMember(t[conv].rows, u) && !G.IsActiveMember(C.Act(t, a)[conv].rows, u)
  {
    if a.DoRequest? && C.Perform(t, a.id, a.actor, a.q, a.now).1.Ok? {
      C.SeatsChangeOnlyByRight(t[a.id], a.actor, a.q, a.now, u);
    }
  }

  /** An event that is not enabled changes nothing. */
  ghost function React(m: Chamber, e: Event): Chamber {
    match e
    case Call(op) =>
      if op.OpCreate? || op.OpInviteMore? then m else m.(call := Step(m.call, op))
    case StartCall(conv, actor, media, id, blocks) =>
      (match Prepare(m.table, conv, blocks, actor)
       case Err(_) => m
       case Ok(p) => m.(call := Step(m.call, OpCreate(conv, p.kind, actor, p.memberIds, media, id))))
    case InviteToCall(c, actor, userIds, blocks) =>
      if c !in m.call.store.sessions then m
      else
        (match Prepare(m.table, m.call.store.sessions[c].value.conversationId, blocks, actor)
         case Err(_) => m
         case Ok(p) => m.(call := Step(m.call, OpInviteMore(c, actor, userIds, p.memberIds))))
    case Chat(a) => m.(table := C.Act(m.table, a), pending := m.pending + Unseats(m.table, a))
    case Evict(conv, u) =>
      m.(call := Step(m.call, OpRevoke(conv, u)), pending := m.pending - {(conv, u)})
  }

  ghost function ReactAll(m: Chamber, es: seq<Event>): Chamber {
    if es == [] then m else React(ReactAll(m, es[..|es| - 1]), es[|es| - 1])
  }

  /** The call belongs to a conversation of its kind, is not oversized, and holds only active members and
      users whose eviction is pending. */
  ghost predicate Covered(m: Chamber, s: Session) {
    && s.conversationId in m.table
    && s.kind == KindOf(m.table[s.conversationId])
    && |s.memberIds| <= MAX_GROUP_CALL
    && forall u :: u in s.memberIds ==>
         G.IsActiveMember(m.table[s.conversationId].rows, u) || (s.conversationId, u) in m.pending
  }

  ghost predicate CallsCovered(m: Chamber) {
    forall c :: c in m.call.store.sessions ==> Covered(m, m.call.store.sessions[c].value)
  }

  ghost predicate ChamberInv(m: Chamber) {
    WorldInv(m.call) && C.TableOk(m.table) && CallsCovered(m)
  }

  // ---------------------------------------------------------------- steps

  /** A roster that grows only by active members stays covered. */
  lemma ContinuingCallsStayCovered(m: Chamber, next: World, seating: set<CallId>, adds: set<(CallId, UserId)>)
    requires CallsCovered(m) && Continues(m.call.store, next.store, seating, adds)
    requires forall c, u :: (c, u) in adds && c in m.call.store.sessions ==>
                              G.IsActiveMember(m.table[m.call.store.sessions[c].value.conversationId].rows, u)
    requires forall c :: c in m.call.store.sessions ==> m.call.store.sessions[c].value.callId == c
    ensures CallsCovered(m.(call := next))
  {
    forall c | c in next.store.sessions ensures Covered(m.(call := next), next.store.sessions[c].value) {
      assert Covered(m, m.call.store.sessions[c].value);
    }
  }

  lemma StoredIds(st: Store)
    requires Inv(st)
    ensures forall c :: c in st.sessions ==> st.sessions[c].value.callId == c
  {
    forall c | c in st.sessions ensures st.sessions[c].value.callId == c {
      StoredUnderItsId(st, c);
    }
  }

  lemma QuietCallCovered(m: Chamber, op: Op)
    requires ChamberInv(m) && !op.OpCreate? && !op.OpInviteMore?
    ensures CallsCovered(m.(call := Step(m.call, op)))
  {
    StoredIds(m.call.store);
    match op
    case OpAccept(c, u) =>
      AcceptContinues(m.call.store, c, u, m.call.now);
      ContinuingCallsStayCovered(m, Step(m.call, op), if Seats(m.call.store, c, u, m.call.now) then {c} else {}, {});
    case _ =>
      QuietStep(m.call, op);
      ContinuingCallsStayCovered(m, Step(m.call, op), {}, {});
  }

  lemma InvitedCallCovered(m: Chamber, c: CallId, actor: UserId, userIds: seq<UserId>, blocks: seq<B.Block>)
    requires ChamberInv(m) && c in m.call.store.sessions
    requires Prepare(m.table, m.call.store.sessions[c].value.conversationId, blocks, actor).Ok?
    ensures CallsCovered(React(m, InviteToCall(c, actor, userIds, blocks)))
  {
    StoredIds(m.call.store);
    var p := Prepare(m.table, m.call.store.sessions[c].value.conversationId, blocks, actor).value;
    var op := OpInviteMore(c, actor, userIds, p.memberIds);
    QuietStep(m.call, op);
    forall d, u | (d, u) in Adds(op)
      ensures G.IsActiveMember(m.table[m.call.store.sessions[c].value.conversationId].rows, u)
    {
      ActiveIdsAreMembers(m.table[m.call.store.sessions[c].value.conversationId].rows, u);
    }
    ContinuingCallsStayCovered(m, Step(m.call, op), {}, Adds(op));
  }

  /** The members of a new call are those it was created with. */
  lemma StartedRoster(st: Store, conv: ConvId, kind: Kind, host: UserId, memberIds: seq<UserId>, media: Media,
                      id: CallId, now: nat)
    requires id !in st.sessions && NoDup(memberIds) && host in memberIds
    ensures var next := Start(st, conv, kind, host, memberIds, media, id, now).0;
            id in next.sessions ==> next.sessions[id].value == FreshSession(conv, kind, host, memberIds, media, id, now)
  {
    assert CallMembers(memberIds, host) == memberIds;
  }

  lemma CreatedRoster(st: Store, conv: ConvId, kind: Kind, host: UserId, memberIds: seq<UserId>, media: Media,
                      id: CallId, now: nat)
    requires Inv(st) && id !in st.sessions && NoDup(memberIds) && host in memberIds
    ensures var next := Create(st, conv, kind, host, memberIds, media, id, now).0;
            id in next.sessions ==> next.sessions[id].value == FreshSession(conv, kind, host, memberIds, media, id, now)
  {
    var released := HostReleased(st, host, now);
    FewerLocksKeepInv(st, released);
    IndexAgreesWithSearch(released, conv, now);
    ClearedHasNoCall(released, conv, now);
    StartedRoster(Cleared(released, conv, now), conv, kind, host, memberIds, media, id, now);
  }

  lemma StartedCallCovered(m: Chamber, conv: ConvId, actor: UserId, media: Media, id: CallId,
                           blocks: seq<B.Block>)
    requires ChamberInv(m) && id !in m.call.issued
    requires Prepare(m.table, conv, blocks, actor).Ok?
    ensures CallsCovered(React(m, StartCall(conv, actor, media, id, blocks)))
  {
    var p := Prepare(m.table, conv, blocks, actor).value;
    var st, rows := m.call.store, m.table[conv].rows;
    assert C.ConversationOk(m.table[conv]);
    SoundActiveIds(m.table[conv]);
    ActiveIdsAreMembers(rows, actor);
    if p.kind == Private {
      assert C.PrivateOk(m.table[conv]);
      TwoActiveIds(rows);
    }
    CreateContinues(st, conv, p.kind, actor, p.memberIds, media, id, m.call.now);
    CreatedRoster(st, conv, p.kind, actor, p.memberIds, media, id, m.call.now);
    var after := React(m, StartCall(conv, actor, media, id, blocks));
    forall c | c in after.call.store.sessions ensures Covered(after, after.call.store.sessions[c].value) {
      if c != id {
        assert Covered(m, st.sessions[c].value);
      } else {
        forall u | u in p.memberIds ensures G.IsActiveMember(rows, u) {
          ActiveIdsAreMembers(rows, u);
        }
      }
    }
  }

  lemma TwoActiveIds(rows: seq<G.Row>)
    requires |rows| == 2
    ensures |ActiveIds(rows)| <= 2
  {
    assert |rows[..1]| == 1 && |rows[..1][..0]| == 0;
    assert |ActiveIds(rows[..1])| <= 1;
  }

  /** The point of the eviction: afterwards no call of the conversation lists the user. This rests on there being
      only one such call and on its being found whatever the index says. */
  lemma RevokeEvicts(st: Store, conv: ConvId, u: UserId, now: nat)
    requires Inv(st)
    ensures forall c :: LiveFor(Revoke(st, conv, u, now).0, conv, c) ==>
                          u !in Revoke(st, conv, u, now).0.sessions[c].value.memberIds
  {
    FoundIsStored(st, conv);
    IndexAgreesWithSearch(st, conv, now);
    var next := Revoke(st, conv, u, now).0;
    forall c | LiveFor(next, conv, c) ensures u !in next.sessions[c].value.memberIds {
      RevokeContinues(st, conv, u, now);
      assert Outgrows(st.sessions[c].value, next.sessions[c].value, false, {});
      assert LiveFor(st, conv, c);
    }
  }

  lemma EvictedCovered(m: Chamber, conv: ConvId, u: UserId)
    requires ChamberInv(m)
    ensures CallsCovered(React(m, Evict(conv, u)))
  {
    QuietCallCovered(m, OpRevoke(conv, u));
    RevokeEvicts(m.call.store, conv, u, m.call.now);
    var next := Step(m.call, OpRevoke(conv, u));
    var after := React(m, Evict(conv, u));
    forall c | c in next.store.sessions ensures Covered(after, next.store.sessions[c].value) {
      assert Covered(m.(call := next), next.store.sessions[c].value);
      assert next.store.sessions[c].value.conversationId == conv ==> LiveFor(next.store, conv, c);
    }
  }

  // ---------------------------------------------------------------- membership changes

  /** A successful deletion of a group whose call is live with somebody who does not await eviction. */
  ghost predicate Strands(m: Chamber, e: Event) {
    && e.Chat? && e.a.DoRequest? && e.a.q == C.DeleteGroup
    && C.Perform(m.table, e.a.id, e.a.actor, e.a.q, e.a.now).1.Ok?
    && match Found(m.call.store, e.a.id)
       case None => false
       case Some(s) => exists u :: u in s.memberIds && (e.a.id, u) !in m.pending
  }

  /** Who is active after a request either was active and is not being unseated, or has just been added. */
  lemma SeatsAfter(t: C.Table, a: C.Action, u: UserId)
    requires C.TableOk(t) && a.DoRequest? && a.id in t && a.q != C.DeleteGroup
    ensures a.id in C.Act(t, a) && KindOf(C.Act(t, a)[a.id]) == KindOf(t[a.id])
    ensures G.IsActiveMember(t[a.id].rows, u) ==>
              G.IsActiveMember(C.Act(t, a)[a.id].rows, u) || (a.id, u) in Unseats(t, a)
  {
    var r := C.Perform(t, a.id, a.actor, a.q, a.now).1;
    if r.Ok? {
      C.AnswerKeepsOk(t[a.id], a.actor, a.q, a.now);
      C.SeatsChangeOnlyByRight(t[a.id], a.actor, a.q, a.now, u);
    }
  }

  lemma ElsewhereUnchanged(t: C.Table, a: C.Action, conv: ConvId)
    requires conv in t && !(a.DoRequest? && a.id == conv)
    ensures conv in C.Act(t, a) && C.Act(t, a)[conv] == t[conv]
  {
  }

  lemma ChatKeepsCovered(m: Chamber, a: C.Action, s: Session)
    requires ChamberInv(m) && Covered(m, s)
    requires a.DoRequest? && a.id == s.conversationId ==> a.q != C.DeleteGroup
    ensures Covered(React(m, Chat(a)), s)
  {
    var after := React(m, Chat(a));
    if a.DoRequest? && a.id == s.conversationId {
      SeatsAfter(m.table, a, a.actor);
      forall u | u in s.memberIds
        ensures G.IsActiveMember(after.table[s.conversationId].rows, u) || (s.conversationId, u) in after.pending
      {
        SeatsAfter(m.table, a, u);
      }
    } else {
      ElsewhereUnchanged(m.table, a, s.conversationId);
    }
  }

  lemma OtherChatsCovered(m: Chamber, a: C.Action)
    requires ChamberInv(m) && !(a.DoRequest? && a.q == C.DeleteGroup)
    ensures CallsCovered(React(m, Chat(a)))
  {
    var after := React(m, Chat(a));
    forall c | c in after.call.store.sessions ensures Covered(after, after.call.store.sessions[c].value) {
      ChatKeepsCovered(m, a, m.call.store.sessions[c].value);
    }
  }

  /** After a deletion nobody is active in the group. */
  lemma DeletedIsEmpty(t: C.Table, conv: ConvId, actor: UserId, now: nat)
    requires C.TableOk(t) && C.Perform(t, conv, actor, C.DeleteGroup, now).1.Ok?
    ensures var next := C.Perform(t, conv, actor, C.DeleteGroup, now).0;
            conv in next && KindOf(next[conv]) == KindOf(t[conv]) && forall u :: !G.IsActiveMember(next[conv].rows, u)
  {
    var next := C.Perform(t, conv, actor, C.DeleteGroup, now).0;
    G.AllLeftGroupOk(t[conv].rows, now);
    forall u ensures !G.IsActiveMember(next[conv].rows, u) {
      assert !G.ActiveAt(next[conv].rows, G.ActiveIndex(next[conv].rows, u));
    }
  }

  /** Deleting a group is the one membership change that can leave a call behind: `deleteGroup` starts no eviction, so
      coverage survives it exactly when no call of the group is live, or everybody in it already awaits eviction. */
  lemma DeleteGroupCoverage(m: Chamber, conv: ConvId, actor: UserId, now: nat)
    requires ChamberInv(m) && C.Perform(m.table, conv, actor, C.DeleteGroup, now).1.Ok?
    ensures CallsCovered(React(m, Chat(C.DoRequest(conv, actor, C.DeleteGroup, now)))) <==>
            match Found(m.call.store, conv)
            case None => true
            case Some(s) => forall u :: u in s.memberIds ==> (conv, u) in m.pending
  {
    var a := C.DoRequest(conv, actor, C.DeleteGroup, now);
    var st, after := m.call.store, React(m, Chat(a));
    DeletedIsEmpty(m.table, conv, actor, now);
    IndexAgreesWithSearch(st, conv, 0);
    forall c | c in st.sessions && st.sessions[c].value.conversationId != conv
      ensures Covered(after, st.sessions[c].value)
    {
      ChatKeepsCovered(m, a, st.sessions[c].value);
    }
    match Found(st, conv)
    case None =>
    case Some(s) =>
      assert Covered(m, s);
      assert Covered(after, s) <==> forall u :: u in s.memberIds ==> (conv, u) in m.pending;
  }

  lemma ChatStep(m: Chamber, a: C.Action)
    requires ChamberInv(m)
    ensures C.TableOk(React(m, Chat(a)).table)
    ensures CallsCovered(React(m, Chat(a))) <==> !Strands(m, Chat(a))
  {
    C.ActKeepsTableOk(m.table, a);
    if a.DoRequest? && a.q == C.DeleteGroup {
      if C.Perform(m.table, a.id, a.actor, a.q, a.now).1.Ok? {
        DeleteGroupCoverage(m, a.id, a.actor, a.now);
      } else {
        assert React(m, Chat(a)) == m;
      }
    } else {
      OtherChatsCovered(m, a);
    }
  }

  lemma CallEventStep(m: Chamber, e: Event)
    requires ChamberInv(m) && !e.Chat?
    ensures ChamberInv(React(m, e))
  {
    match e
    case Call(op) =>
      if !op.OpCreate? && !op.OpInviteMore? {
        StepKeepsWorldInv(m.call, op);
        QuietCallCovered(m, op);
      }
    case StartCall(conv, actor, media, id, blocks) =>
      if Prepare(m.table, conv, blocks, actor).Ok? && id !in m.call.issued {
        var p := Prepare(m.table, conv, blocks, actor).value;
        StepKeepsWorldInv(m.call, OpCreate(conv, p.kind, actor, p.memberIds, media, id));
        StartedCallCovered(m, conv, actor, media, id, blocks);
      }
    case InviteToCall(c, actor, userIds, blocks) =>
      if c in m.call.store.sessions {
        var conv := m.call.store.sessions[c].value.conversationId;
        if Prepare(m.table, conv, blocks, actor).Ok? {
          var p := Prepare(m.table, conv, blocks, actor).value;
          StepKeepsWorldInv(m.call, OpInviteMore(c, actor, userIds, p.memberIds));
          InvitedCallCovered(m, c, actor, userIds, blocks);
        }
      }
    case Evict(conv, u) =>
      StepKeepsWorldInv(m.call, OpRevoke(conv, u));
      EvictedCovered(m, conv, u);
  }

  lemma ReactKeepsChamberInv(m: Chamber, e: Event)
    requires ChamberInv(m)
    ensures ChamberInv(React(m, e)) <==> !Strands(m, e)
  {
    if e.Chat? {
      ChatStep(m, e.a);
    } else {
      CallEventStep(m, e);
    }
  }

  // ---------------------------------------------------------------- every run

  ghost predicate NeverStrands(m: Chamber, es: seq<Event>) {
    es != [] ==> NeverStrands(m, es[..|es| - 1]) && !Strands(ReactAll(m, es[..|es| - 1]), es[|es| - 1])
  }

  lemma {:induction false} StaysCovered(es: seq<Event>)
    requires NeverStrands(EMPTY_CHAMBER, es)
    ensures ChamberInv(ReactAll(EMPTY_CHAMBER, es))
  {
    if es != [] {
      StaysCovered(es[..|es| - 1]);
      ReactKeepsChamberInv(ReactAll(EMPTY_CHAMBER, es[..|es| - 1]), es[|es| - 1]);
    }
  }

  /** Covered at the end of the run and at every moment before. */
  ghost predicate AlwaysCovered(m: Chamber, es: seq<Event>) {
    CallsCovered(ReactAll(m, es)) && (es != [] ==> AlwaysCovered(m, es[..|es| - 1]))
  }

  /** In every interleaving of conversation requests, call operations and the evictions that follow removals and
      leavings, call membership never outlives conversation membership, and no call exceeds eight members, if and only
      if no group is deleted while somebody is in its call who does not await eviction. */
  lemma {:induction false} MembershipNeverOutlives(es: seq<Event>)
    ensures AlwaysCovered(EMPTY_CHAMBER, es) <==> NeverStrands(EMPTY_CHAMBER, es)
  {
    if es != [] {
      MembershipNeverOutlives(es[..|es| - 1]);
      if NeverStrands(EMPTY_CHAMBER, es[..|es| - 1]) {
        LastStepCovered(es);
      }
    }
  }

  /** The world and the table stay sound whatever happens, so a step that strands nobody decides by coverage alone. */
  lemma LastStepCovered(es: seq<Event>)
    requires es != [] && NeverStrands(EMPTY_CHAMBER, es[..|es| - 1])
    ensures CallsCovered(ReactAll(EMPTY_CHAMBER, es)) <==>
            !Strands(ReactAll(EMPTY_CHAMBER, es[..|es| - 1]), es[|es| - 1])
  {
    var before, e := ReactAll(EMPTY_CHAMBER, es[..|es| - 1]), es[|es| - 1];
    StaysCovered(es[..|es| - 1]);
    if e.Chat? {
      ChatStep(before, e.a);
    } else {
      CallEventStep(before, e);
    }
  }

  /** Once nothing is pending for a conversation, its call holds active members only. */
  lemma SettledCallsAreMembersOnly(es: seq<Event>, c: CallId)
    requires NeverStrands(EMPTY_CHAMBER, es) && c in ReactAll(EMPTY_CHAMBER, es).call.store.sessions
    ensures var m := ReactAll(EMPTY_CHAMBER, es);
            var s := m.call.store.sessions[c].value;
            s.conversationId in m.table &&
            ((forall u :: (s.conversationId, u) !in m.pending) ==>
              forall u :: u in s.memberIds ==> G.IsActiveMember(m.table[s.conversationId].rows, u))
  {
    StaysCovered(es);
    var m := ReactAll(EMPTY_CHAMBER, es);
    assert Covered(m, m.call.store.sessions[c].value);
  }

  lemma ThreeEvents(m: Chamber, e1: Event, e2: Event, e3: Event)
    ensures ReactAll(m, [e1, e2, e3]) == React(React(React(m, e1), e2), e3)
  {
    assert [e1, e2, e3][..2] == [e1, e2] && [e1, e2][..1] == [e1] && [e1][..0] == [];
    assert ReactAll(m, [e1]) == React(m, e1);
    assert ReactAll(m, [e1, e2]) == React(React(m, e1), e2);
  }

  /** A group of two starts a call and is deleted: the call goes on with two non-members. */
  lemma DeletedGroupKeepsItsCall()
    ensures var a, b := UserId("a"), UserId("b");
            var es := [Chat(C.DoCreateGroup(1, a, true, [b], 0)), StartCall(1, a, Audio, 7, []),
                       Chat(C.DoRequest(1, a, C.DeleteGroup, 0))];
            !CallsCovered(ReactAll(EMPTY_CHAMBER, es))
  {
    var a, b := UserId("a"), UserId("b");
    assert a != b by { assert a.text[0] == 'a'; }
    var first, second := Chat(C.DoCreateGroup(1, a, true, [b], 0)), StartCall(1, a, Audio, 7, []);
    ThreeEvents(EMPTY_CHAMBER, first, second, Chat(C.DoRequest(1, a, C.DeleteGroup, 0)));
    StaysCovered([]);
    var m1 := React(EMPTY_CHAMBER, first);
    ReactKeepsChamberInv(EMPTY_CHAMBER, first);
    CallEventStep(m1, second);
    assert m1.pending == {};
    CallStarts(m1, a, b);
    DeleteGroupCoverage(React(m1, second), 1, a, 0);
    assert a in [a, b];
  }

  lemma GroupOfTwo(a: UserId, b: UserId)
    requires a != b
    ensures var t := C.Act(map[], C.DoCreateGroup(1, a, true, [b], 0));
            && 1 in t && t[1].kind == C.GroupChat && t[1].createdBy == a && !t[1].deleted
            && ActiveIds(t[1].rows) == [a, b] && G.IsActiveMember(t[1].rows, a)
  {
    assert C.OtherIds([b], a) == [b];
    var rows := G.FoundingRows(a, [b], 0);
    assert rows[..1] == [G.NewRow(a, G.Owner, 0)] && rows[..1][..0] == [];
    assert ActiveIds(rows[..1]) == [a];
    ActiveIdsAreMembers(rows, a);
  }

  lemma GroupIsCallable(t: C.Table, a: UserId, b: UserId)
    requires 1 in t && t[1].kind == C.GroupChat && !t[1].deleted && G.IsActiveMember(t[1].rows, a)
    requires a != b && ActiveIds(t[1].rows) == [a, b]
    ensures var r := Prepare(t, 1, [], a);
            r.Ok? && r.value.kind == Group && r.value.memberIds == [a, b]
  {
    assert b in Reachable([a, b], [], a) by { assert [a, b][1] == b; }
  }

  lemma CreatorMayDelete(t: C.Table, a: UserId)
    requires 1 in t && t[1].kind == C.GroupChat && !t[1].deleted && G.IsActiveMember(t[1].rows, a)
    requires t[1].createdBy == a
    ensures C.Perform(t, 1, a, C.DeleteGroup, 0).1.Ok?
  {
  }

  lemma StartsAs(m: Chamber, conv: ConvId, actor: UserId, media: Media, id: CallId, p: Prepared)
    requires Prepare(m.table, conv, [], actor) == Ok(p)
    ensures React(m, StartCall(conv, actor, media, id, [])) ==
            m.(call := Step(m.call, OpCreate(conv, p.kind, actor, p.memberIds, media, id)))
  {
  }

  /** The founder of a group of two starts a call, which lists both. */
  lemma CallStarts(m: Chamber, a: UserId, b: UserId)
    requires a != b && m == Chamber(EMPTY_WORLD, C.Act(map[], C.DoCreateGroup(1, a, true, [b], 0)), {})
    ensures var next := React(m, StartCall(1, a, Audio, 7, []));
            && next.table == m.table && next.pending == {}
            && C.Perform(next.table, 1, a, C.DeleteGroup, 0).1.Ok?
            && Found(next.call.store, 1).Some? && Found(next.call.store, 1).value.memberIds == [a, b]
  {
    GroupOfTwo(a, b);
    GroupIsCallable(m.table, a, b);
    CreatorMayDelete(m.table, a);
    EmptyStoreStarts(a, b);
    var p := Prepare(m.table, 1, [], a).value;
    StartsAs(m, 1, a, Audio, 7, p);
    FirstCall(1, Group, a, [a, b], Audio, 7);
    assert p.kind == Group && p.memberIds == [a, b];
  }

  lemma FirstCall(conv: ConvId, kind: Kind, host: UserId, memberIds: seq<UserId>, media: Media, id: CallId)
    ensures Step(EMPTY_WORLD, OpCreate(conv, kind, host, memberIds, media, id)).store ==
            Create(EMPTY_WORLD.store, conv, kind, host, memberIds, media, id, 0).0
  {
  }

  lemma EmptyStoreStarts(a: UserId, b: UserId)
    requires a != b
    ensures var next := Create(EMPTY_WORLD.store, 1, Group, a, [a, b], Audio, 7, 0).0;
            Found(next, 1).Some? && Found(next, 1).value.memberIds == [a, b]
  {
    var st := EMPTY_WORLD.store;
    assert forall c :: !LiveFor(st, 1, c);
    assert [a, b][0] == a && [a, b][1] == b && CallMembers([a, b], a) == [a, b];
    CreatedRoster(st, 1, Group, a, [a, b], Audio, 7, 0);
    CreateContinues(st, 1, Group, a, [a, b], Audio, 7, 0);
    var next := Create(st, 1, Group, a, [a, b], Audio, 7, 0).0;
    assert 7 in next.sessions;
    assert LiveFor(next, 1, 7);
  }

  // ---------------------------------------------------------------- the gateway's eviction loop

  ghost function RevokeAll(st: Store, conv: ConvId, userIds: seq<UserId>, now: nat): Store {
    if userIds == [] then st
    else Revoke(RevokeAll(st, conv, userIds[..|userIds| - 1], now), conv, userIds[|userIds| - 1], now).0
  }

  /** After the loop nobody on the list is left in any call of the conversation, and nobody joined one. */
  lemma {:induction false} RevokeAllEvicts(st: Store, conv: ConvId, userIds: seq<UserId>, now: nat)
    requires Inv(st)
    ensures var next := RevokeAll(st, conv, userIds, now);
            && Inv(next)
            && forall c :: LiveFor(next, conv, c) ==>
                 && LiveFor(st, conv, c)
                 && forall u :: u in next.sessions[c].value.memberIds ==>
                      u in st.sessions[c].value.memberIds && u !in userIds
  {
    if userIds != [] {
      var init, last := userIds[..|userIds| - 1], userIds[|userIds| - 1];
      assert userIds == init + [last];
      RevokeAllEvicts(st, conv, init, now);
      var mid := RevokeAll(st, conv, init, now);
      var next := RevokeAll(st, conv, userIds, now);
      RevokeKeepsInv(mid, conv, last, now);
      RevokeEvicts(mid, conv, last, now);
      RevokeContinues(mid, conv, last, now);
      forall c | LiveFor(next, conv, c)
        ensures LiveFor(st, conv, c) && forall u :: u in next.sessions[c].value.memberIds ==>
                                                      u in st.sessions[c].value.memberIds && u !in userIds
      {
        assert Outgrows(mid.sessions[c].value, next.sessions[c].value, false, {});
        assert LiveFor(mid, conv, c);
      }
    }
  }

  /** `evictUsersFromConversation`: one revocation after another. */
  method EvictUsersFromConversation(calls: CallSessionService, conv: ConvId, userIds: seq<UserId>, now: nat)
    requires calls.Valid()
    modifies calls
    ensures calls.State() == RevokeAll(old(calls.State()), conv, userIds, now) && calls.Valid()
  {
    for i := 0 to |userIds|
      invariant calls.State() == RevokeAll(old(calls.State()), conv, userIds[..i], now) && calls.Valid()
    {
      assert userIds[..i + 1][..i] == userIds[..i];
      var _ := calls.RevokeUserFromConversation(conv, userIds[i], now);
    }
    assert userIds[..|userIds|] == userIds;
  }
}
