/** What the call operations achieve, said without their bodies: who sits where and who is locked afterwards, exactly
    when an operation is refused, and how operations undo one another. */
module CallEffects {
  import opened Ids
  import opened Lists
  import opened Calls
  import opened CallInvariant

  /** The user's busy lock points at call `c`. */
  ghost predicate LockedTo(st: Store, u: UserId, c: CallId) {
    u in st.users && st.users[u].value == c
  }

  /** Call `c` is stored as `t`, found by its conversation, and its members are locked to it exactly if they are
      joined, ringing or the host; no other member holds any lock; all entries expire together. */
  ghost predicate Settled(st: Store, c: CallId, t: Session, until: int) {
    && c in st.sessions && st.sessions[c] == Timed(t, until)
    && t.conversationId in st.convos && st.convos[t.conversationId] == Timed(c, until)
    && (forall u :: u in t.memberIds ==>
          (u in st.users <==> u in t.joinedIds || u in RingingIds(t) || u == t.hostId))
    && (forall u :: u in t.memberIds && u in st.users ==> st.users[u] == Timed(c, until))
  }

  /** Nothing of any other call, and no lock of anybody outside `people`, has changed. */
  ghost predicate OthersUntouched(st: Store, next: Store, c: CallId, people: seq<UserId>) {
    && (forall d :: d != c ==> (d in next.sessions <==> d in st.sessions))
    && (forall d :: d != c && d in st.sessions ==> next.sessions[d] == st.sessions[d])
    && (forall u :: u !in people ==> (u in next.users <==> u in st.users))
    && (forall u :: u !in people && u in st.users ==> next.users[u] == st.users[u])
  }

  /** Call `c` is gone, with every lock on it. */
  ghost predicate Gone(st: Store, c: CallId) {
    c !in st.sessions && forall u :: !LockedTo(st, u, c)
  }

  /** Saving a session settles it, whatever was done to the locks of its members and to the index before. */
  lemma PersistedSettles(st: Store, unlocked: Store, t: Session, ttlSeconds: nat, now: nat)
    requires unlocked.sessions == st.sessions
    requires forall u :: u !in t.memberIds ==> (u in unlocked.users <==> u in st.users)
    requires forall u :: u !in t.memberIds && u in st.users ==> unlocked.users[u] == st.users[u]
    ensures Settled(Persisted(unlocked, t, ttlSeconds, now), t.callId, t, now + ttlSeconds * 1000)
    ensures OthersUntouched(st, Persisted(unlocked, t, ttlSeconds, now), t.callId, t.memberIds)
  {
  }

  /** Ending a call removes it, its locks and its index entry, and nothing of any other call. */
  lemma EndEffect(st: Store, c: CallId)
    requires Inv(st) && c in st.sessions
    ensures var next := EndedStore(st, c);
            && Gone(next, c) && OthersUntouched(st, next, c, st.sessions[c].value.memberIds)
            && st.sessions[c].value.conversationId !in next.convos
  {
    var next := EndedStore(st, c);
    forall u ensures !LockedTo(next, u, c) {
      assert LockOk(st, u);
    }
  }

  // ---------------------------------------------------------------- starting

  /** A call starts in a conversation that has none exactly when somebody besides the host is invited and, in
      private, the other party is free; then the host sits, everybody else rings, and all are locked. */
  lemma StartEffect(st: Store, conv: ConvId, kind: Kind, host: UserId, memberIds: seq<UserId>, media: Media,
                    id: CallId, now: nat)
    ensures var (next, r) := Start(st, conv, kind, host, memberIds, media, id, now);
            && (r.Ok? <==> && (exists u :: u in memberIds && u != host)
                           && (kind == Private ==> Peer(CallMembers(memberIds, host), host).value !in st.users))
            && (r.Err? ==> next == st)
            && (r.Ok? ==> && Settled(next, id, r.value, now + RINGING_TTL_SECONDS * 1000)
                          && OthersUntouched(st, next, id, r.value.memberIds)
                          && r.value == FreshSession(conv, kind, host, r.value.memberIds, media, id, now)
                          && NewRoster(r.value, memberIds))
  {
    var members := CallMembers(memberIds, host);
    MembersBesideHost(memberIds, host);
    if Start(st, conv, kind, host, memberIds, media, id, now).1.Ok? {
      var s := FreshSession(conv, kind, host, members, media, id, now);
      FreshRoster(conv, kind, host, memberIds, media, id, now);
      assert Start(st, conv, kind, host, memberIds, media, id, now) ==
             (Persisted(st, s, RINGING_TTL_SECONDS, now), Ok(s));
      PersistedSettles(st, st, s, RINGING_TTL_SECONDS, now);
    }
  }

  lemma FreshRoster(conv: ConvId, kind: Kind, host: UserId, memberIds: seq<UserId>, media: Media, id: CallId, now: nat)
    ensures NewRoster(FreshSession(conv, kind, host, CallMembers(memberIds, host), media, id, now), memberIds)
  {
  }

  /** The host sits alone and everybody else invited rings. */
  ghost predicate NewRoster(s: Session, invited: seq<UserId>) {
    && (forall u :: u in s.memberIds <==> u in invited || u == s.hostId)
    && (forall u :: u in s.joinedIds <==> u == s.hostId)
    && (forall u :: u in RingingIds(s) <==> u in invited && u != s.hostId)
  }

  lemma MembersBesideHost(memberIds: seq<UserId>, host: UserId)
    ensures var members := CallMembers(memberIds, host);
            && (|members| < 2 <==> forall u :: u in memberIds ==> u == host)
            && (Peer(members, host).Some? <==> exists u :: u in memberIds && u != host)
  {
    var members := CallMembers(memberIds, host);
    assert host in members;
    if |members| >= 2 {
      assert members[0] != members[1];
      assert members[0] in members && members[1] in members;
    } else {
      assert forall u :: u in members ==> u == members[0];
    }
    var others := Filter(members, (u: UserId) => u != host);
    if others != [] {
      assert others[0] in others;
    }
  }

  /** "You are already in a call": the host's lock binds the host to a call as its host or as a participant. */
  lemma EngagedHost(st: Store, host: UserId)
    requires Inv(st)
    ensures HostEngaged(st, host) <==>
            exists c :: c in st.sessions && LockedTo(st, host, c) &&
                        (host in st.sessions[c].value.joinedIds || host == st.sessions[c].value.hostId)
  {
    if host in st.users {
      assert LockOk(st, host);
      StoredUnderItsId(st, st.users[host].value);
    }
  }

  /** When a call may not be created at all: the host is engaged, or the conversation's call is hosted by somebody
      else and has at least two participants. */
  lemma CreateRefusals(st: Store, conv: ConvId, kind: Kind, host: UserId, memberIds: seq<UserId>, media: Media,
                       id: CallId, now: nat)
    requires Inv(st)
    ensures var r := Create(st, conv, kind, host, memberIds, media, id, now).1;
            && (r == Err(AlreadyInCall) <==> HostEngaged(st, host))
            && (r == Err(CallInProgress) <==>
                  !HostEngaged(st, host) &&
                  exists c :: LiveFor(st, conv, c) && !Replaceable(st.sessions[c].value, host))
  {
    var released := HostReleased(st, host, now);
    FewerLocksKeepInv(st, released);
    FoundByScan(st, released, conv);
  }

  lemma FoundByScan(st: Store, other: Store, conv: ConvId)
    requires Inv(st) && Inv(other) && other.sessions == st.sessions
    ensures Found(other, conv).None? ==> forall c :: !LiveFor(st, conv, c)
    ensures Found(other, conv).Some? ==>
              exists c :: LiveFor(st, conv, c) && Found(other, conv).value == st.sessions[c].value
    ensures forall c :: LiveFor(st, conv, c) ==> Found(other, conv) == Some(st.sessions[c].value)
  {
    assert forall c :: LiveFor(st, conv, c) <==> LiveFor(other, conv, c);
  }

  /** Neither the host's own lock nor the call in the way stops a new call. */
  ghost predicate MayCreate(st: Store, conv: ConvId, host: UserId) {
    !HostEngaged(st, host) && forall c :: LiveFor(st, conv, c) ==> Replaceable(st.sessions[c].value, host)
  }

  /** Not locked, or locked as a member of the call that is replaced, which releases its members. */
  ghost predicate FreeFor(st: Store, conv: ConvId, u: UserId) {
    u !in st.users || exists c :: LiveFor(st, conv, c) && u in st.sessions[c].value.memberIds
  }

  /** Nobody's business but the host's and that of the members of the conversation's call. */
  ghost predicate Outsider(st: Store, conv: ConvId, host: UserId, u: UserId) {
    u != host && forall c :: LiveFor(st, conv, c) ==> u !in st.sessions[c].value.memberIds
  }

  /** The conversation's call and its locks are gone, and so may be the host's lock; everything else is as before. */
  ghost predicate ClearedFor(st: Store, cleared: Store, conv: ConvId, host: UserId) {
    && (forall c :: LiveFor(st, conv, c) ==> Gone(cleared, c))
    && (forall d :: d in cleared.sessions <==> d in st.sessions && !LiveFor(st, conv, d))
    && (forall d :: d in cleared.sessions ==> cleared.sessions[d] == st.sessions[d])
    && (forall u :: u != host ==> (u in cleared.users <==> u in st.users && !FreeFor(st, conv, u)))
    && (forall u :: u != host && u in cleared.users ==> cleared.users[u] == st.users[u])
  }

  lemma EndedIsCleared(st: Store, released: Store, conv: ConvId, host: UserId, s: Session, now: nat)
    requires Inv(st) && Inv(released) && released.sessions == st.sessions && Found(released, conv) == Some(s)
    requires forall u :: u != host ==> (u in released.users <==> u in st.users)
    requires forall u :: u != host && u in st.users ==> released.users[u] == st.users[u]
    ensures ClearedFor(st, EndedStore(Reindexed(released, conv, now), s.callId), conv, host)
  {
    var indexed := Reindexed(released, conv, now);
    IndexAgreesWithSearch(released, conv, now);
    FoundIsStored(released, conv);
    FoundByScan(st, released, conv);
    assert forall c :: LiveFor(st, conv, c) <==> c == s.callId;
    EndEffect(indexed, s.callId);
  }

  lemma ClearedEffect(st: Store, conv: ConvId, host: UserId, now: nat)
    requires Inv(st)
    ensures ClearedFor(st, Cleared(HostReleased(st, host, now), conv, now), conv, host)
  {
    var released := HostReleased(st, host, now);
    FewerLocksKeepInv(st, released);
    match Found(released, conv)
    case None =>
      FoundByScan(st, released, conv);
      IndexAgreesWithSearch(released, conv, now);
    case Some(s) => EndedIsCleared(st, released, conv, host, s, now);
  }

  lemma CreateIsStart(st: Store, conv: ConvId, kind: Kind, host: UserId, memberIds: seq<UserId>, media: Media,
                      id: CallId, now: nat)
    requires Inv(st) && MayCreate(st, conv, host)
    ensures Create(st, conv, kind, host, memberIds, media, id, now) ==
            Start(Cleared(HostReleased(st, host, now), conv, now), conv, kind, host, memberIds, media, id, now)
  {
    FewerLocksKeepInv(st, HostReleased(st, host, now));
    FoundByScan(st, HostReleased(st, host, now), conv);
  }

  lemma CreateIsRefused(st: Store, conv: ConvId, kind: Kind, host: UserId, memberIds: seq<UserId>, media: Media,
                        id: CallId, now: nat)
    requires Inv(st) && !MayCreate(st, conv, host)
    ensures var (next, r) := Create(st, conv, kind, host, memberIds, media, id, now);
            && r.Err? && next.sessions == st.sessions
            && (forall u :: u != host ==> (u in next.users <==> u in st.users))
            && (forall u :: u != host && u in st.users ==> next.users[u] == st.users[u])
  {
    CreateRefusals(st, conv, kind, host, memberIds, media, id, now);
    var released := HostReleased(st, host, now);
    FewerLocksKeepInv(st, released);
    IndexAgreesWithSearch(released, conv, now);
  }

  /** Starting a call where another one was cleared away. */
  lemma StartCleared(st: Store, cleared: Store, conv: ConvId, kind: Kind, host: UserId, memberIds: seq<UserId>,
                     media: Media, id: CallId, now: nat)
    requires ClearedFor(st, cleared, conv, host) && id !in st.sessions
    ensures var (next, r) := Start(cleared, conv, kind, host, memberIds, media, id, now);
            && (forall c :: LiveFor(st, conv, c) ==> Gone(next, c))
            && (forall d :: d in st.sessions && !LiveFor(st, conv, d) ==>
                  d in next.sessions && next.sessions[d] == st.sessions[d])
            && (forall u :: Outsider(st, conv, host, u) && (r.Ok? ==> u !in r.value.memberIds) ==>
                  (u in next.users <==> u in st.users) && (u in st.users ==> next.users[u] == st.users[u]))
  {
    StartEffect(cleared, conv, kind, host, memberIds, media, id, now);
    var (next, r) := Start(cleared, conv, kind, host, memberIds, media, id, now);
    forall c | LiveFor(st, conv, c) ensures Gone(next, c) {
      assert Gone(cleared, c);
      forall u ensures !LockedTo(next, u, c) {
        assert !LockedTo(cleared, u, c);
      }
    }
  }

  lemma StartOutcome(st: Store, cleared: Store, conv: ConvId, kind: Kind, host: UserId, memberIds: seq<UserId>,
                     media: Media, id: CallId, now: nat)
    requires ClearedFor(st, cleared, conv, host)
    ensures var (next, r) := Start(cleared, conv, kind, host, memberIds, media, id, now);
            && (r.Ok? <==> && (exists u :: u in memberIds && u != host)
                           && (kind == Private ==> FreeFor(st, conv, Peer(CallMembers(memberIds, host), host).value)))
            && (r.Ok? ==> && Settled(next, id, r.value, now + RINGING_TTL_SECONDS * 1000)
                          && r.value == FreshSession(conv, kind, host, r.value.memberIds, media, id, now)
                          && NewRoster(r.value, memberIds))
  {
    StartEffect(cleared, conv, kind, host, memberIds, media, id, now);
    if kind == Private && exists u :: u in memberIds && u != host {
      var peer := Peer(CallMembers(memberIds, host), host).value;
      assert peer != host && (peer in cleared.users <==> !FreeFor(st, conv, peer));
    }
  }

  /** The whole of creating a call: it succeeds exactly when the host is not engaged, the conversation has no call that
      may not be replaced, somebody besides the host is invited and a private peer is free; a call in the way is gone
      with all its locks, even when the start is then refused; the new call is settled; and nobody else's call or lock
      changes. */
  lemma CreateEffect(st: Store, conv: ConvId, kind: Kind, host: UserId, memberIds: seq<UserId>, media: Media,
                     id: CallId, now: nat)
    requires Inv(st) && id !in st.sessions
    ensures var (next, r) := Create(st, conv, kind, host, memberIds, media, id, now);
            && (r.Ok? <==> && MayCreate(st, conv, host)
                           && (exists u :: u in memberIds && u != host)
                           && (kind == Private ==> FreeFor(st, conv, Peer(CallMembers(memberIds, host), host).value)))
            && (MayCreate(st, conv, host) ==> forall c :: LiveFor(st, conv, c) ==> Gone(next, c))
            && (r.Ok? ==> && Settled(next, id, r.value, now + RINGING_TTL_SECONDS * 1000)
                          && r.value == FreshSession(conv, kind, host, r.value.memberIds, media, id, now)
                          && NewRoster(r.value, memberIds))
            && (forall d :: d in st.sessions && !LiveFor(st, conv, d) ==>
                  d in next.sessions && next.sessions[d] == st.sessions[d])
            && (forall u :: Outsider(st, conv, host, u) && (r.Ok? ==> u !in r.value.memberIds) ==>
                  (u in next.users <==> u in st.users) && (u in st.users ==> next.users[u] == st.users[u]))
  {
    if MayCreate(st, conv, host) {
      var cleared := Cleared(HostReleased(st, host, now), conv, now);
      CreateIsStart(st, conv, kind, host, memberIds, media, id, now);
      ClearedEffect(st, conv, host, now);
      StartOutcome(st, cleared, conv, kind, host, memberIds, media, id, now);
      StartCleared(st, cleared, conv, kind, host, memberIds, media, id, now);
    } else {
      CreateIsRefused(st, conv, kind, host, memberIds, media, id, now);
    }
  }

  // ---------------------------------------------------------------- joining, declining, leaving

  /** `t` differs from `s` in that `u` no longer rings. */
  ghost predicate Silenced(s: Session, t: Session, u: UserId) {
    && t.hostId == s.hostId && t.kind == s.kind && t.callId == s.callId
    && (forall v :: v in RingingIds(t) <==> v in RingingIds(s) && v != u)
  }

  lemma JoinedRoster(s: Session, u: UserId, now: nat)
    requires RosterOk(s) && u in s.memberIds && u !in s.joinedIds
    ensures var t := WithJoined(s, u, now);
            && Silenced(s, t, u) && t.memberIds == s.memberIds && t.joinedIds == s.joinedIds + [u]
            && t.status == Active && t.connectedAt == (if s.connectedAt.Some? then s.connectedAt else Some(now))
  {
    DistinctSnoc(s.joinedIds, u);
  }

  /** Accepting is refused exactly to outsiders and to users locked to another call; otherwise the user, and nobody
      else, takes a seat and is locked to the call. */
  lemma AcceptEffect(st: Store, c: CallId, u: UserId, now: nat)
    requires Inv(st) && c in st.sessions
    ensures var s := st.sessions[c].value;
            var (next, r) := Accept(st, c, u, now);
            && (r.Ok? <==> u in s.memberIds && (u in s.joinedIds || u !in st.users || LockedTo(st, u, c)))
            && (r.Ok? && u !in s.joinedIds ==>
                  var t := r.value;
                  && Settled(next, c, t, now + ACTIVE_TTL_SECONDS * 1000) && OthersUntouched(st, next, c, t.memberIds)
                  && Silenced(s, t, u) && t.memberIds == s.memberIds && t.joinedIds == s.joinedIds + [u]
                  && t.status == Active && t.connectedAt == (if s.connectedAt.Some? then s.connectedAt else Some(now)))
  {
    var s := st.sessions[c].value;
    HostAlreadyInIsDead(st, c, u, now);
    StoredUnderItsId(st, c);
    if Accept(st, c, u, now).1.Ok? && u !in s.joinedIds {
      var t := WithJoined(s, u, now);
      StoredRoster(st, c);
      JoinedRoster(s, u, now);
      assert Accept(st, c, u, now).0 == Persisted(Repaired(st, c, now), t, ACTIVE_TTL_SECONDS, now);
      PersistedSettles(st, Repaired(st, c, now), t, ACTIVE_TTL_SECONDS, now);
    }
  }

  lemma StoredRoster(st: Store, c: CallId)
    requires Inv(st) && c in st.sessions
    ensures RosterOk(st.sessions[c].value)
  {
    assert SessionOk(st, c);
  }

  /** Declining is for members who have not joined. It silences exactly the declining user; in private it ends the
      call. */
  lemma DeclineEffect(st: Store, c: CallId, u: UserId, now: nat)
    requires Inv(st) && c in st.sessions
    ensures var s := st.sessions[c].value;
            var (next, r) := Decline(st, c, u, now);
            && (r.Ok? <==> u in s.memberIds && u !in s.joinedIds)
            && (r.Ok? ==> (r.value.ended <==> s.kind == Private))
            && (r.Ok? && r.value.ended ==> Gone(next, c))
            && (r.Ok? && !r.value.ended ==>
                  var t := r.value.session;
                  && Settled(next, c, t, now + StatusTtl(s) * 1000) && OthersUntouched(st, next, c, t.memberIds)
                  && Silenced(s, t, u) && t.memberIds == s.memberIds && t.joinedIds == s.joinedIds)
  {
    var s, read := st.sessions[c].value, Repaired(st, c, now);
    StoredUnderItsId(st, c);
    RepairedKeepsInv(st, c, now);
    if Decline(st, c, u, now).1.Ok? {
      var t := WithDeclined(s, u);
      if s.kind == Private {
        EndEffect(read, c);
      } else {
        assert Decline(st, c, u, now).0 == Persisted(read, t, StatusTtl(t), now);
        PersistedSettles(st, read, t, StatusTtl(t), now);
        assert Silenced(s, t, u);
      }
    }
  }

  lemma LastToLeave(xs: seq<UserId>, u: UserId)
    ensures Without(xs, u) == [] <==> forall v :: v in xs ==> v == u
  {
    var rest := Without(xs, u);
    if rest != [] {
      assert rest[0] in rest;
    }
  }

  /** Leaving is for members. It ends the call exactly when it is private or nobody else is connected; otherwise
      exactly the leaver's seat and ringing stop. */
  lemma LeaveEffect(st: Store, c: CallId, u: UserId, now: nat)
    requires Inv(st) && c in st.sessions
    ensures var s := st.sessions[c].value;
            var (next, r) := Leave(st, c, u, now);
            && (r.Ok? <==> u in s.memberIds)
            && (r.Ok? ==> (r.value.ended <==> s.kind == Private || forall v :: v in s.joinedIds ==> v == u))
            && (r.Ok? && r.value.ended ==> Gone(next, c))
            && (r.Ok? && !r.value.ended ==>
                  var t := r.value.session;
                  && Settled(next, c, t, now + ACTIVE_TTL_SECONDS * 1000) && OthersUntouched(st, next, c, t.memberIds)
                  && Silenced(s, t, u) && t.memberIds == s.memberIds && t.declinedIds == s.declinedIds
                  && (forall v :: v in t.joinedIds <==> v in s.joinedIds && v != u))
  {
    var s := st.sessions[c].value;
    StoredUnderItsId(st, c);
    LastToLeave(s.joinedIds, u);
    if u in s.memberIds {
      var unlocked, t := BusyCleared(Repaired(st, c, now), u, None), WithLeft(s, u);
      FewerLocksKeepInv(st, unlocked);
      if t.joinedIds == [] || s.kind == Private {
        EndEffect(unlocked, c);
      } else {
        assert Leave(st, c, u, now).0 == Persisted(unlocked, t, ACTIVE_TTL_SECONDS, now);
        PersistedSettles(st, unlocked, t, ACTIVE_TTL_SECONDS, now);
        assert Silenced(s, t, u);
      }
    }
  }

  /** A roster from which `u` has vanished; a vanished host is succeeded by the first participant. */
  ghost predicate Vanished(s: Session, t: Session, u: UserId) {
    && (forall v :: v in t.memberIds <==> v in s.memberIds && v != u)
    && (forall v :: v in t.joinedIds <==> v in s.joinedIds && v != u)
    && (forall v :: v in RingingIds(t) <==> v in RingingIds(s) && v != u)
    && t.joinedIds != [] && t.hostId == (if s.hostId == u then t.joinedIds[0] else s.hostId)
    && t.heldBy != Some(u) && t.screenSharerId != Some(u)
  }

  lemma RevokedRoster(s: Session, u: UserId)
    requires WithRevoked(s, u).joinedIds != []
    ensures Vanished(s, WithSuccessor(WithRevoked(s, u), u), u)
  {
  }

  /** The revocation of a member of call `c`, once `c` was found. */
  lemma RevokedStore(st: Store, conv: ConvId, c: CallId, u: UserId, now: nat)
    requires Inv(st) && LiveFor(st, conv, c) && u in st.sessions[c].value.memberIds
    ensures var s := st.sessions[c].value;
            var (next, r) := Revoke(st, conv, u, now);
            var unlocked, t := BusyCleared(Reindexed(st, conv, now), u, None), WithRevoked(s, u);
            && Inv(unlocked) && unlocked.sessions == st.sessions && u !in unlocked.users && s.callId == c
            && r.Some?
            && (r.value.ended <==> s.kind == Private || t.joinedIds == [])
            && (r.value.ended ==> next == EndedStore(unlocked, c))
            && (!r.value.ended ==> r.value.session == WithSuccessor(t, u) &&
                                   next == Persisted(unlocked, WithSuccessor(t, u), ACTIVE_TTL_SECONDS, now))
  {
    var indexed := Reindexed(st, conv, now);
    FoundByScan(st, st, conv);
    IndexAgreesWithSearch(st, conv, now);
    StoredUnderItsId(st, c);
    FewerLocksKeepInv(indexed, BusyCleared(indexed, u, None));
    RevokedKeepsMember(st, c, u);
  }

  /** Somebody joined remains a member. */
  lemma RevokedKeepsMember(st: Store, c: CallId, u: UserId)
    requires Inv(st) && c in st.sessions
    ensures var t := WithRevoked(st.sessions[c].value, u);
            t.joinedIds != [] ==> t.memberIds != []
  {
    StoredRoster(st, c);
    var t := WithRevoked(st.sessions[c].value, u);
    if t.joinedIds != [] {
      assert t.joinedIds[0] in t.joinedIds;
      assert t.joinedIds[0] in t.memberIds;
    }
  }

  /** Revocation concerns the conversation's one call, if the user is on it: the user loses seat, roles and lock. */
  lemma RevokeEffect(st: Store, conv: ConvId, c: CallId, u: UserId, now: nat)
    requires Inv(st) && LiveFor(st, conv, c)
    ensures var s := st.sessions[c].value;
            var (next, r) := Revoke(st, conv, u, now);
            && (r.Some? <==> u in s.memberIds)
            && (r.Some? ==> u !in next.users
                            && (r.value.ended <==> s.kind == Private || forall v :: v in s.joinedIds ==> v == u)
                            && (r.value.ended ==> Gone(next, c)))
            && (r.Some? && !r.value.ended ==>
                  Settled(next, c, r.value.session, now + ACTIVE_TTL_SECONDS * 1000) && Vanished(s, r.value.session, u))
  {
    var s := st.sessions[c].value;
    FoundByScan(st, st, conv);
    StoredRoster(st, c);
    LastToLeave(s.joinedIds, u);
    if u in s.memberIds {
      RevokedStore(st, conv, c, u, now);
      var unlocked := BusyCleared(Reindexed(st, conv, now), u, None);
      var r := Revoke(st, conv, u, now).1.value;
      if r.ended {
        EndEffect(unlocked, c);
      } else {
        RevokedRoster(s, u);
        PersistedSettles(unlocked, unlocked, r.session, ACTIVE_TTL_SECONDS, now);
        assert u !in r.session.memberIds;
      }
    }
  }

  /** The invitation timeout silences exactly the listed users still ringing and frees them, unless they host. */
  lemma TimeoutEffect(st: Store, c: CallId, userIds: seq<UserId>, now: nat)
    requires Inv(st) && c in st.sessions
    ensures var s := st.sessions[c].value;
            var (next, r) := MarkUnanswered(st, c, userIds, now);
            && r.Some? && c in next.sessions && next.sessions[c].value == r.value
            && r.value == s.(leftIds := r.value.leftIds)
            && (forall v :: v in RingingIds(r.value) <==> v in RingingIds(s) && v !in userIds)
            && (forall v :: v in userIds && v in RingingIds(s) && v != s.hostId ==> !LockedTo(next, v, c))
  {
    var s, read := st.sessions[c].value, Repaired(st, c, now);
    StoredUnderItsId(st, c);
    var late := Unanswered(s, userIds);
    var t, released := s.(leftIds := Distinct(s.leftIds + late)), LocksReleased(read, c, late);
    var next := MarkUnanswered(st, c, userIds, now).0;
    if t.leftIds == s.leftIds {
      assert t == s && next == released;
      assert forall v :: v in RingingIds(s) ==> v !in late;
    } else {
      assert next == Persisted(released, t, StatusTtl(t), now);
      assert forall v :: v in late ==> v !in RingingIds(t) && v !in t.joinedIds;
    }
  }

  // ---------------------------------------------------------------- operations that undo one another

  /** An invitation of one invitable user, if the call and the actor are fit for it. */
  lemma InviteOne(st: Store, c: CallId, actor: UserId, u: UserId, now: nat)
    requires c in st.sessions && st.sessions[c].value.status != Ended && st.sessions[c].value.kind == Group
    requires actor in st.sessions[c].value.joinedIds && u != actor && Invitable(st.users, st.sessions[c].value, u)
    ensures var t := WithInvited(st.sessions[c].value, u);
            InviteMore(st, c, actor, [u], [u], now) ==
            (Persisted(Repaired(st, c, now), t, StatusTtl(t), now), Ok(Invitation(t, [u])))
  {
    OnlyRequest(u, actor);
    OneInvited(st.users, st.sessions[c].value, u);
  }

  /** Whoever declined or left a group call can be rung again by any participant, and ends up ringing and locked to
      the call; nobody else's seat or ringing changes. */
  lemma ReinviteRings(st: Store, c: CallId, actor: UserId, u: UserId, now: nat)
    requires Inv(st) && c in st.sessions && st.sessions[c].value.kind == Group
    requires actor in st.sessions[c].value.joinedIds
    requires u in st.sessions[c].value.memberIds && u !in st.sessions[c].value.joinedIds
    requires u in st.users ==> LockedTo(st, u, c)
    ensures var s := st.sessions[c].value;
            var (next, r) := InviteMore(st, c, actor, [u], [u], now);
            && r.Ok? && r.value.invitedIds == [u]
            && var t := r.value.session;
            && t.memberIds == s.memberIds && t.joinedIds == s.joinedIds && t.hostId == s.hostId
            && (forall v :: v in RingingIds(t) <==> v in RingingIds(s) || v == u)
            && Settled(next, c, t, now + StatusTtl(s) * 1000) && LockedTo(next, u, c)
  {
    var s := st.sessions[c].value;
    StoredUnderItsId(st, c);
    InviteOne(st, c, actor, u, now);
    ReinvitedRoster(s, u);
    PersistedSettles(st, Repaired(st, c, now), WithInvited(s, u), StatusTtl(s), now);
  }

  lemma OneInvited(users: map<UserId, Timed<CallId>>, s: Session, u: UserId)
    requires Invitable(users, s, u)
    ensures InviteEach(users, s, [u]) == Invitation(WithInvited(s, u), [u])
  {
    assert [u][..0] == [];
    assert InviteEach(users, s, []) == Invitation(s, []);
  }

  lemma ReinvitedRoster(s: Session, u: UserId)
    requires u in s.memberIds && u !in s.joinedIds
    ensures forall v :: v in RingingIds(WithInvited(s, u)) <==> v in RingingIds(s) || v == u
  {
  }

  lemma OnlyRequest(u: UserId, actor: UserId)
    requires u != actor
    ensures Requested([u], [u], actor) == [u]
  {
    assert Distinct([u]) == [u];
    assert [u][..0] == [];
    assert u in [u];
  }

  lemma DeclinerMayBeRung(st: Store, c: CallId, u: UserId, now: nat)
    requires Inv(st) && c in st.sessions && st.sessions[c].value.kind == Group && u in RingingIds(st.sessions[c].value)
    ensures var s, mid := st.sessions[c].value, Decline(st, c, u, now).0;
            && Inv(mid) && c in mid.sessions
            && var t := mid.sessions[c].value;
            && t.kind == Group && t.status == s.status && t.hostId == s.hostId
            && t.memberIds == s.memberIds && t.joinedIds == s.joinedIds && Silenced(s, t, u)
            && (u in mid.users ==> LockedTo(mid, u, c))
  {
    DeclineEffect(st, c, u, now);
    DeclineKeepsInv(st, c, u, now);
  }

  /** Declining and being rung again restores who rings, who is joined and who is locked to the call; the host who
      left and was rung again is no exception. */
  lemma DeclineThenReinvite(st: Store, c: CallId, actor: UserId, u: UserId, now: nat, later: nat)
    requires Inv(st) && c in st.sessions && st.sessions[c].value.kind == Group
    requires actor in st.sessions[c].value.joinedIds && u in RingingIds(st.sessions[c].value)
    ensures var s := st.sessions[c].value;
            var mid := Decline(st, c, u, now).0;
            var (next, r) := InviteMore(mid, c, actor, [u], [u], later);
            && r.Ok?
            && var t := r.value.session;
            && t.memberIds == s.memberIds && t.joinedIds == s.joinedIds && t.hostId == s.hostId
            && (forall v :: v in RingingIds(t) <==> v in RingingIds(s))
            && Settled(next, c, t, later + StatusTtl(s) * 1000)
            && (forall v :: v in s.memberIds ==> (LockedTo(next, v, c) <==> IsBusy(s, v)))
  {
    DeclinerMayBeRung(st, c, u, now);
    ReinviteRings(Decline(st, c, u, now).0, c, actor, u, later);
  }

  /** Whoever may rejoin, and is not locked to another call, can. */
  lemma RejoinSeats(st: Store, c: CallId, u: UserId, now: nat)
    requires Inv(st) && c in st.sessions && CanRejoin(st.sessions[c].value, u)
    requires u in st.users ==> LockedTo(st, u, c)
    ensures var s := st.sessions[c].value;
            var (next, r) := Accept(st, c, u, now);
            && r.Ok? && !CanRejoin(r.value, u) && LockedTo(next, u, c)
            && Silenced(s, r.value, u) && r.value.memberIds == s.memberIds && r.value.joinedIds == s.joinedIds + [u]
            && (s.connectedAt.Some? ==> r.value.connectedAt == s.connectedAt)
  {
    AcceptEffect(st, c, u, now);
    var t := Accept(st, c, u, now).1.value;
    assert u in t.joinedIds;
  }

  lemma LeaverMayRejoin(st: Store, c: CallId, u: UserId, now: nat)
    requires Inv(st) && c in st.sessions && u in st.sessions[c].value.joinedIds
    requires Leave(st, c, u, now).1.Ok? && !Leave(st, c, u, now).1.value.ended
    ensures var s, (mid, r) := st.sessions[c].value, Leave(st, c, u, now);
            && Inv(mid) && c in mid.sessions && mid.sessions[c].value == r.value.session
            && CanRejoin(r.value.session, u) && (u in mid.users ==> LockedTo(mid, u, c))
            && r.value.session.connectedAt == s.connectedAt
            && u !in RingingIds(s)
  {
    LeaveEffect(st, c, u, now);
    LeaveKeepsInv(st, c, u, now);
    StoredRoster(st, c);
    StoredRoster(Leave(st, c, u, now).0, c);
  }

  /** A participant who leaves a group call that goes on may rejoin, and accepting then puts exactly the same people
      back into the call, connected since the same moment. */
  lemma LeaveThenRejoin(st: Store, c: CallId, u: UserId, now: nat, later: nat)
    requires Inv(st) && c in st.sessions && u in st.sessions[c].value.joinedIds
    requires Leave(st, c, u, now).1.Ok? && !Leave(st, c, u, now).1.value.ended
    ensures var s := st.sessions[c].value;
            var mid := Leave(st, c, u, now).0;
            var (next, r) := Accept(mid, c, u, later);
            && r.Ok? && r.value.memberIds == s.memberIds && r.value.hostId == s.hostId
            && (forall v :: v in r.value.joinedIds <==> v in s.joinedIds)
            && (forall v :: v in RingingIds(r.value) <==> v in RingingIds(s))
            && (s.connectedAt.Some? ==> r.value.connectedAt == s.connectedAt)
            && LockedTo(next, u, c)
  {
    LeaverMayRejoin(st, c, u, now);
    LeaveEffect(st, c, u, now);
    RejoinSeats(Leave(st, c, u, now).0, c, u, later);
  }
}
