/** Whole runs of the call service: any sequence of operations, of time passing, and of index damage. */
module CallRuns {
  import opened Ids
  import opened Lists
  import opened Calls
  import opened CallInvariant

  datatype Op =
    | OpCreate(conv: ConvId, kind: Kind, host: UserId, memberIds: seq<UserId>, media: Media, id: CallId)
    | OpGet(c: CallId)
    | OpGetByConversation(conv: ConvId)
    | OpAccept(c: CallId, u: UserId)
    | OpDecline(c: CallId, u: UserId)
    | OpLeave(c: CallId, u: UserId)
    | OpRevoke(conv: ConvId, u: UserId)
    | OpEnd(c: CallId)
    | OpInviteMore(c: CallId, u: UserId, userIds: seq<UserId>, allowed: seq<UserId>)
    | OpSetHold(c: CallId, u: UserId, flag: bool)
    | OpSetForceMute(c: CallId, u: UserId, flag: bool)
    | OpSetScreenShare(c: CallId, u: UserId, flag: bool)
    | OpMarkUnanswered(c: CallId, userIds: seq<UserId>)
    | OpClearUserBusy(u: UserId, only: Option<CallId>)
    /** The environment: index entries are lost or point anywhere, and time passes. */
    | EnvDropIndex(conv: ConvId)
    | EnvSpoilIndex(conv: ConvId, c: CallId)
    | EnvAdvance(ms: nat)

  /** The store, the clock, every call id ever issued, and the calls in which an accept has seated somebody. */
  datatype World = World(store: Store, now: nat, issued: set<CallId>, seated: set<CallId>)

  const EMPTY_WORLD := World(Store(map[], map[], map[]), 0, {}, {})

  /** What Redis still holds at time `now`. */
  ghost function Swept(st: Store, now: nat): Store {
    Store(map c | c in st.sessions && now < st.sessions[c].until :: st.sessions[c],
          map u | u in st.users && now < st.users[u].until :: st.users[u],
          map v | v in st.convos && now < st.convos[v].until :: st.convos[v])
  }

  /** Whether this accept brings a new participant into the call. */
  ghost predicate Seats(st: Store, c: CallId, u: UserId, now: nat) {
    Accept(st, c, u, now).1.Ok? && u !in st.sessions[c].value.joinedIds
  }

  /** The store after an operation that neither creates a call nor seats anybody. */
  ghost function QuietStore(st: Store, now: nat, op: Op): Store
    requires !op.OpCreate? && !op.OpAccept?
  {
    match op
    case OpGet(c) => Repaired(st, c, now)
    case OpGetByConversation(conv) => Reindexed(st, conv, now)
    case OpDecline(c, u) => Decline(st, c, u, now).0
    case OpLeave(c, u) => Leave(st, c, u, now).0
    case OpRevoke(conv, u) => Revoke(st, conv, u, now).0
    case OpEnd(c) => EndedStore(st, c)
    case OpInviteMore(c, u, userIds, allowed) => InviteMore(st, c, u, userIds, allowed, now).0
    case OpSetHold(c, u, flag) => SetHold(st, c, u, flag, now).0
    case OpSetForceMute(c, u, flag) => SetForceMute(st, c, u, flag, now).0
    case OpSetScreenShare(c, u, flag) => SetScreenShare(st, c, u, flag, now).0
    case OpMarkUnanswered(c, userIds) => MarkUnanswered(st, c, userIds, now).0
    case OpClearUserBusy(u, only) => BusyCleared(st, u, only)
    case EnvDropIndex(conv) => st.(convos := st.convos - {conv})
    case EnvSpoilIndex(conv, c) => Indexed(st, conv, c, now + ACTIVE_TTL_SECONDS * 1000)
    case EnvAdvance(ms) => Swept(st, now + ms)
  }

  ghost function Step(w: World, op: Op): World {
    var st, now := w.store, w.now;
    match op
    case OpCreate(conv, kind, host, memberIds, media, id) =>
      // randomUUID never repeats an id
      if id in w.issued then w
      else w.(store := Create(st, conv, kind, host, memberIds, media, id, now).0, issued := w.issued + {id})
    case OpAccept(c, u) =>
      w.(store := Accept(st, c, u, now).0, seated := if Seats(st, c, u, now) then w.seated + {c} else w.seated)
    case EnvAdvance(ms) => w.(store := QuietStore(st, now, op), now := now + ms)
    case _ => w.(store := QuietStore(st, now, op))
  }

  ghost function Run(w: World, ops: seq<Op>): World {
    if ops == [] then w else Step(Run(w, ops[..|ops| - 1]), ops[|ops| - 1])
  }

  ghost predicate WorldInv(w: World) {
    && Inv(w.store)
    && w.store.sessions.Keys <= w.issued
    && w.seated <= w.issued
    && forall c :: c in w.store.sessions ==> (w.store.sessions[c].value.status == Active <==> c in w.seated)
  }

  /** The same call at two moments: its identity is fixed and `connectedAt`, once set, never changes. */
  ghost predicate SameCall(s: Session, t: Session) {
    && t.conversationId == s.conversationId && t.kind == s.kind && t.media == s.media && t.createdAt == s.createdAt
    && (s.connectedAt.Some? ==> t.connectedAt == s.connectedAt)
  }

  /** No ended id comes back, ids are never forgotten, and surviving calls keep their identity. */
  ghost predicate Evolves(w: World, v: World) {
    && w.issued <= v.issued && w.seated <= v.seated && w.now <= v.now
    && (forall c :: c in w.issued && c in v.store.sessions ==> c in w.store.sessions)
    && (forall c :: c in w.store.sessions && c in v.store.sessions ==>
          SameCall(w.store.sessions[c].value, v.store.sessions[c].value))
  }

  /** `next` holds the calls of `st`, perhaps updated or dropped; only calls in `seating` turn active, and only
      the pairs in `adds` join a roster, which grows no further than the size limit. */
  ghost predicate Continues(st: Store, next: Store, seating: set<CallId>, adds: set<(CallId, UserId)>) {
    forall c :: c in next.sessions ==>
      c in st.sessions && Outgrows(st.sessions[c].value, next.sessions[c].value, c in seating, adds)
  }

  ghost predicate Outgrows(s: Session, t: Session, seated: bool, adds: set<(CallId, UserId)>) {
    && t.callId == s.callId
    && SameCall(s, t)
    && (t.status == Active <==> s.status == Active || seated)
    && (forall u :: u in t.memberIds ==> u in s.memberIds || (s.callId, u) in adds)
    && (|t.memberIds| <= |s.memberIds| || |t.memberIds| <= MAX_GROUP_CALL)
  }

  lemma ContinuesIsStep(w: World, next: Store, seating: set<CallId>, adds: set<(CallId, UserId)>)
    requires WorldInv(w) && Inv(next) && Continues(w.store, next, seating, adds)
    requires seating <= w.store.sessions.Keys
    ensures var v := w.(store := next, seated := w.seated + seating);
            WorldInv(v) && Evolves(w, v)
  {
  }

  lemma PersistedContinues(st: Store, unlocked: Store, t: Session, ttlSeconds: nat, now: nat, seating: set<CallId>,
                           adds: set<(CallId, UserId)>)
    requires unlocked.sessions == st.sessions && t.callId in st.sessions
    requires Outgrows(st.sessions[t.callId].value, t, t.callId in seating, adds)
    requires seating <= {t.callId}
    ensures Continues(st, Persisted(unlocked, t, ttlSeconds, now), seating, adds)
  {
  }

  lemma StartContinues(st: Store, conv: ConvId, kind: Kind, host: UserId, memberIds: seq<UserId>, media: Media,
                       id: CallId, now: nat)
    requires id !in st.sessions
    ensures var next := Start(st, conv, kind, host, memberIds, media, id, now).0;
            && (id in next.sessions ==> next.sessions[id].value.status == Ringing)
            && forall c :: c in next.sessions && c != id ==> c in st.sessions && next.sessions[c] == st.sessions[c]
  {
  }

  lemma CreateContinues(st: Store, conv: ConvId, kind: Kind, host: UserId, memberIds: seq<UserId>, media: Media,
                        id: CallId, now: nat)
    requires Inv(st) && id !in st.sessions
    ensures var next := Create(st, conv, kind, host, memberIds, media, id, now).0;
            && (id in next.sessions ==> next.sessions[id].value.status == Ringing)
            && forall c :: c in next.sessions && c != id ==> c in st.sessions && next.sessions[c] == st.sessions[c]
  {
    var released := HostReleased(st, host, now);
    FewerLocksKeepInv(st, released);
    IndexAgreesWithSearch(released, conv, now);
    ClearedHasNoCall(released, conv, now);
    StartContinues(Cleared(released, conv, now), conv, kind, host, memberIds, media, id, now);
  }

  lemma CreateStep(w: World, op: Op)
    requires WorldInv(w) && op.OpCreate? && op.id !in w.issued
    ensures WorldInv(Step(w, op)) && Evolves(w, Step(w, op))
  {
    CreateKeepsInv(w.store, op.conv, op.kind, op.host, op.memberIds, op.media, op.id, w.now);
    CreateContinues(w.store, op.conv, op.kind, op.host, op.memberIds, op.media, op.id, w.now);
  }

  lemma AcceptContinues(st: Store, c: CallId, u: UserId, now: nat)
    requires Inv(st)
    ensures Continues(st, Accept(st, c, u, now).0, if Seats(st, c, u, now) then {c} else {}, {})
  {
    var read := Repaired(st, c, now);
    if Seats(st, c, u, now) {
      StoredUnderItsId(st, c);
      var t := WithJoined(st.sessions[c].value, u, now);
      assert Accept(st, c, u, now).0 == Persisted(read, t, ACTIVE_TTL_SECONDS, now);
      PersistedContinues(st, read, t, ACTIVE_TTL_SECONDS, now, {c}, {});
    } else {
      assert Accept(st, c, u, now).0 == read;
    }
  }

  lemma AcceptStep(w: World, c: CallId, u: UserId)
    requires WorldInv(w)
    ensures WorldInv(Step(w, OpAccept(c, u))) && Evolves(w, Step(w, OpAccept(c, u)))
  {
    AcceptKeepsInv(w.store, c, u, w.now);
    AcceptContinues(w.store, c, u, w.now);
    ContinuesIsStep(w, Accept(w.store, c, u, w.now).0, if Seats(w.store, c, u, w.now) then {c} else {}, {});
    assert w.seated + {} == w.seated;
  }

  lemma DeclineContinues(st: Store, c: CallId, u: UserId, now: nat)
    requires Inv(st)
    ensures Continues(st, Decline(st, c, u, now).0, {}, {})
  {
    if c in st.sessions {
      StoredUnderItsId(st, c);
      var t := WithDeclined(st.sessions[c].value, u);
      PersistedContinues(st, Repaired(st, c, now), t, StatusTtl(t), now, {}, {});
    }
  }

  lemma LeaveContinues(st: Store, c: CallId, u: UserId, now: nat)
    requires Inv(st)
    ensures Continues(st, Leave(st, c, u, now).0, {}, {})
  {
    var read, next := Repaired(st, c, now), Leave(st, c, u, now).0;
    match Leave(st, c, u, now).1
    case Err(_) => assert next == read;
    case Ok(departure) =>
      StoredUnderItsId(st, c);
      var unlocked, t := BusyCleared(read, u, None), WithLeft(st.sessions[c].value, u);
      if departure.ended {
        assert next == EndedStore(unlocked, c);
      } else {
        assert next == Persisted(unlocked, t, ACTIVE_TTL_SECONDS, now);
        PersistedContinues(st, unlocked, t, ACTIVE_TTL_SECONDS, now, {}, {});
      }
  }

  lemma RevokedOutgrows(s: Session, u: UserId)
    requires WithRevoked(s, u).joinedIds != []
    ensures Outgrows(s, WithSuccessor(WithRevoked(s, u), u), false, {})
  {
  }

  lemma RevokeContinues(st: Store, conv: ConvId, u: UserId, now: nat)
    requires Inv(st)
    ensures Continues(st, Revoke(st, conv, u, now).0, {}, {})
  {
    FoundIsStored(st, conv);
    IndexAgreesWithSearch(st, conv, now);
    var indexed, next := Reindexed(st, conv, now), Revoke(st, conv, u, now).0;
    var unlocked := BusyCleared(indexed, u, None);
    match Revoke(st, conv, u, now).1
    case None => assert next == indexed;
    case Some(departure) =>
      var s := Found(st, conv).value;
      if departure.ended {
        assert next == EndedStore(unlocked, s.callId);
      } else {
        var h := WithSuccessor(WithRevoked(s, u), u);
        RevokedOutgrows(s, u);
        assert next == Persisted(unlocked, h, ACTIVE_TTL_SECONDS, now);
        PersistedContinues(st, unlocked, h, ACTIVE_TTL_SECONDS, now, {}, {});
      }
  }

  /** Who may join which roster through an invitation. */
  ghost function Adds(op: Op): set<(CallId, UserId)> {
    if op.OpInviteMore? then set u | u in op.allowed :: (op.c, u) else {}
  }

  lemma InviteOutgrows(users: map<UserId, Timed<CallId>>, s: Session, requested: seq<UserId>, allowed: seq<UserId>)
    requires forall u :: u in requested ==> u in allowed
    ensures Outgrows(s, InviteEach(users, s, requested).session, false, set u | u in allowed :: (s.callId, u))
  {
    InviteKeepsCall(users, s, requested);
  }

  lemma InviteContinues(st: Store, c: CallId, actor: UserId, userIds: seq<UserId>, allowed: seq<UserId>, now: nat)
    requires Inv(st)
    ensures Continues(st, InviteMore(st, c, actor, userIds, allowed, now).0, {}, set u | u in allowed :: (c, u))
  {
    var next := InviteMore(st, c, actor, userIds, allowed, now).0;
    var read := Repaired(st, c, now);
    var adds := set u | u in allowed :: (c, u);
    if InviteMore(st, c, actor, userIds, allowed, now).1.Ok? {
      StoredUnderItsId(st, c);
      var s := st.sessions[c].value;
      var requested := Requested(userIds, allowed, actor);
      var t := InviteEach(st.users, s, requested).session;
      InviteOutgrows(st.users, s, requested, allowed);
      assert next == Persisted(read, t, StatusTtl(t), now);
      PersistedContinues(st, read, t, StatusTtl(t), now, {}, adds);
    } else {
      assert next == read;
    }
  }

  lemma {:induction false} InviteKeepsCall(users: map<UserId, Timed<CallId>>, s: Session, requested: seq<UserId>)
    ensures var t := InviteEach(users, s, requested).session;
            && SameCall(s, t) && t.callId == s.callId && t.status == s.status
            && (forall u :: u in t.memberIds ==> u in s.memberIds || u in requested)
            && (|t.memberIds| <= |s.memberIds| || |t.memberIds| <= MAX_GROUP_CALL)
  {
    if requested != [] {
      InviteKeepsCall(users, s, requested[..|requested| - 1]);
    }
  }

  lemma HoldContinues(st: Store, c: CallId, actor: UserId, flag: bool, now: nat)
    requires Inv(st)
    ensures Continues(st, SetHold(st, c, actor, flag, now).0, {}, {})
  {
    if c in st.sessions {
      StoredUnderItsId(st, c);
      var t := st.sessions[c].value.(onHold := flag, heldBy := if flag then Some(actor) else None);
      PersistedContinues(st, Repaired(st, c, now), t, ACTIVE_TTL_SECONDS, now, {}, {});
    }
  }

  lemma MuteContinues(st: Store, c: CallId, actor: UserId, flag: bool, now: nat)
    requires Inv(st)
    ensures Continues(st, SetForceMute(st, c, actor, flag, now).0, {}, {})
  {
    if c in st.sessions {
      StoredUnderItsId(st, c);
      var t := st.sessions[c].value.(forceMuted := flag);
      PersistedContinues(st, Repaired(st, c, now), t, ACTIVE_TTL_SECONDS, now, {}, {});
    }
  }

  lemma ShareContinues(st: Store, c: CallId, actor: UserId, flag: bool, now: nat)
    requires Inv(st)
    ensures Continues(st, SetScreenShare(st, c, actor, flag, now).0, {}, {})
  {
    if c in st.sessions {
      StoredUnderItsId(st, c);
      var t := st.sessions[c].value.(screenSharerId := if flag then Some(actor) else None);
      PersistedContinues(st, Repaired(st, c, now), t, ACTIVE_TTL_SECONDS, now, {}, {});
    }
  }

  lemma MarkContinues(st: Store, c: CallId, userIds: seq<UserId>, now: nat)
    requires Inv(st)
    ensures Continues(st, MarkUnanswered(st, c, userIds, now).0, {}, {})
  {
    if c in st.sessions {
      StoredUnderItsId(st, c);
      var s := st.sessions[c].value;
      var late := Unanswered(s, userIds);
      var t := s.(leftIds := Distinct(s.leftIds + late));
      PersistedContinues(st, LocksReleased(Repaired(st, c, now), c, late), t, StatusTtl(t), now, {}, {});
    }
  }

  /** Time takes exactly what has reached its deadline, and changes nothing else. */
  lemma SweptOutcome(w: World, ms: nat)
    ensures var st, v := w.store, Step(w, EnvAdvance(ms));
            && v.now == w.now + ms && v.issued == w.issued && v.seated == w.seated
            && (forall c :: c in v.store.sessions <==> c in st.sessions && st.sessions[c].until > w.now + ms)
            && (forall c :: c in v.store.sessions ==> v.store.sessions[c] == st.sessions[c])
            && (forall u :: u in v.store.users <==> u in st.users && st.users[u].until > w.now + ms)
            && (forall u :: u in v.store.users ==> v.store.users[u] == st.users[u])
            && (forall conv :: conv in v.store.convos <==> conv in st.convos && st.convos[conv].until > w.now + ms)
            && (forall conv :: conv in v.store.convos ==> v.store.convos[conv] == st.convos[conv])
  {
  }

  /** A call nobody saves again lasts exactly until its deadline, and so do the locks of its members. */
  lemma SilentCallExpires(w: World, c: CallId, ms: nat)
    requires WorldInv(w) && c in w.store.sessions
    ensures var v := Step(w, EnvAdvance(ms));
            && (c in v.store.sessions <==> w.now + ms < w.store.sessions[c].until)
            && (forall u :: u in w.store.users && w.store.users[u].value == c ==>
                  (u in v.store.users <==> c in v.store.sessions))
  {
    forall u | u in w.store.users && w.store.users[u].value == c
      ensures w.store.users[u].until == w.store.sessions[c].until
    {
      assert LockOk(w.store, u);
    }
  }

  /** Calls and their locks expire together: no lock survives its call. */
  lemma SweptKeepsInv(st: Store, now: nat)
    requires Inv(st)
    ensures Inv(Swept(st, now))
  {
    var next := Swept(st, now);
    forall c ensures SessionOk(next, c) {
      assert SessionOk(st, c);
    }
    forall u ensures LockOk(next, u) {
      assert LockOk(st, u);
    }
    forall c, d, conv | LiveFor(next, conv, c) && LiveFor(next, conv, d) ensures c == d {
      assert LiveFor(st, conv, c) && LiveFor(st, conv, d);
    }
  }

  /** Index repair, lookup, lock release, ending, index damage and expiry. */
  lemma BackgroundStep(st: Store, now: nat, op: Op)
    requires Inv(st)
    requires op.OpGet? || op.OpGetByConversation? || op.OpEnd? || op.OpClearUserBusy? || op.EnvDropIndex? ||
             op.EnvSpoilIndex? || op.EnvAdvance?
    ensures Inv(QuietStore(st, now, op)) && Continues(st, QuietStore(st, now, op), {}, {})
  {
    match op
    case OpGet(c) => RepairedKeepsInv(st, c, now);
    case OpGetByConversation(conv) => IndexAgreesWithSearch(st, conv, now);
    case OpEnd(c) => EndedKeepsInv(st, c);
    case OpClearUserBusy(u, only) => FewerLocksKeepInv(st, BusyCleared(st, u, only));
    case EnvDropIndex(conv) => FewerLocksKeepInv(st, st.(convos := st.convos - {conv}));
    case EnvSpoilIndex(conv, c) => FewerLocksKeepInv(st, Indexed(st, conv, c, now + ACTIVE_TTL_SECONDS * 1000));
    case EnvAdvance(ms) => SweptKeepsInv(st, now + ms);
  }

  lemma SettingsStep(st: Store, now: nat, op: Op)
    requires Inv(st) && (op.OpSetHold? || op.OpSetForceMute? || op.OpSetScreenShare?)
    ensures Inv(QuietStore(st, now, op)) && Continues(st, QuietStore(st, now, op), {}, {})
  {
    match op
    case OpSetHold(c, u, flag) => HoldKeepsInv(st, c, u, flag, now); HoldContinues(st, c, u, flag, now);
    case OpSetForceMute(c, u, flag) => MuteKeepsInv(st, c, u, flag, now); MuteContinues(st, c, u, flag, now);
    case OpSetScreenShare(c, u, flag) => ShareKeepsInv(st, c, u, flag, now); ShareContinues(st, c, u, flag, now);
  }

  /** The store of a step that neither creates a call nor seats anybody. */
  lemma QuietStep(w: World, op: Op)
    requires WorldInv(w) && !op.OpCreate? && !op.OpAccept?
    ensures Inv(QuietStore(w.store, w.now, op)) && Continues(w.store, QuietStore(w.store, w.now, op), {}, Adds(op))
  {
    var st, now := w.store, w.now;
    match op
    case OpDecline(c, u) => DeclineKeepsInv(st, c, u, now); DeclineContinues(st, c, u, now);
    case OpLeave(c, u) => LeaveKeepsInv(st, c, u, now); LeaveContinues(st, c, u, now);
    case OpRevoke(conv, u) => RevokeKeepsInv(st, conv, u, now); RevokeContinues(st, conv, u, now);
    case OpInviteMore(c, u, ids, allowed) =>
      InviteMoreKeepsInv(st, c, u, ids, allowed, now);
      InviteContinues(st, c, u, ids, allowed, now);
    case OpMarkUnanswered(c, ids) => MarkUnansweredKeepsInv(st, c, ids, now); MarkContinues(st, c, ids, now);
    case OpSetHold(_, _, _) => SettingsStep(st, now, op);
    case OpSetForceMute(_, _, _) => SettingsStep(st, now, op);
    case OpSetScreenShare(_, _, _) => SettingsStep(st, now, op);
    case _ => BackgroundStep(st, now, op);
  }

  lemma StepKeepsWorldInv(w: World, op: Op)
    requires WorldInv(w)
    ensures WorldInv(Step(w, op)) && Evolves(w, Step(w, op))
  {
    match op
    case OpCreate(_, _, _, _, _, id) => if id !in w.issued { CreateStep(w, op); }
    case OpAccept(c, u) => AcceptStep(w, c, u);
    case _ =>
      QuietStep(w, op);
      ContinuesIsStep(w, QuietStore(w.store, w.now, op), {}, Adds(op));
      assert w.seated + {} == w.seated;
  }

  /** Every reachable store is sound, and a call is active exactly when an accept has seated somebody. */
  lemma {:induction false} EveryRunIsSound(ops: seq<Op>)
    ensures WorldInv(Run(EMPTY_WORLD, ops))
  {
    if ops != [] {
      EveryRunIsSound(ops[..|ops| - 1]);
      StepKeepsWorldInv(Run(EMPTY_WORLD, ops[..|ops| - 1]), ops[|ops| - 1]);
    }
  }

  /** Over any number of further steps: ended calls stay ended, `connectedAt` is set once. */
  lemma {:induction false} EveryRunEvolves(w: World, ops: seq<Op>)
    requires WorldInv(w)
    ensures WorldInv(Run(w, ops)) && Evolves(w, Run(w, ops))
  {
    if ops != [] {
      EveryRunEvolves(w, ops[..|ops| - 1]);
      StepKeepsWorldInv(Run(w, ops[..|ops| - 1]), ops[|ops| - 1]);
    }
  }

  /** The user-visible reading of soundness, at the end of any run. */
  lemma CallSafety(ops: seq<Op>)
    ensures var st := Run(EMPTY_WORLD, ops).store;
            // at most one live call per conversation, although index entries vanished or went stale
            && (forall c, d, conv :: LiveFor(st, conv, c) && LiveFor(st, conv, d) ==> c == d)
            // no stale busy lock
            && (forall u :: u in st.users ==>
                  && st.users[u].value in st.sessions
                  && var s := st.sessions[st.users[u].value].value;
                  && u in s.memberIds
                  && (u in s.joinedIds || u in RingingIds(s) || u == s.hostId))
            // status, connectedAt and hold agree, and the host is a member
            && (forall c :: c in st.sessions ==>
                  var s := st.sessions[c].value;
                  && (s.status == Active <==> s.connectedAt.Some?)
                  && (s.onHold <==> s.heldBy.Some?)
                  && (s.heldBy.Some? ==> s.heldBy.value in s.memberIds)
                  && (s.screenSharerId.Some? ==> s.screenSharerId.value in s.memberIds)
                  && s.hostId in s.memberIds && s.joinedIds != []
                  && (s.kind == Private ==> s.hostId in s.joinedIds))
  {
    EveryRunIsSound(ops);
    var st := Run(EMPTY_WORLD, ops).store;
    forall u | u in st.users
      ensures st.users[u].value in st.sessions && IsBusy(st.sessions[st.users[u].value].value, u) &&
              u in st.sessions[st.users[u].value].value.memberIds
    {
      assert LockOk(st, u);
    }
    forall c | c in st.sessions ensures RosterOk(st.sessions[c].value) {
      assert SessionOk(st, c);
    }
  }
}
