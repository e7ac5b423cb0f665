/** The invariant of the call store, and a proof that every service operation keeps it. */
module CallInvariant {
  import opened Ids
  import opened Lists
  import opened Calls

  /** What every stored session satisfies. */
  ghost predicate RosterOk(s: Session) {
    && NoDup(s.memberIds) && NoDup(s.joinedIds) && NoDup(s.declinedIds) && NoDup(s.leftIds)
    && s.joinedIds != []
    && (forall u :: u in s.joinedIds ==> u in s.memberIds && u !in s.declinedIds && u !in s.leftIds)
    && (forall u :: u in s.declinedIds ==> u in s.memberIds)
    && s.hostId in s.memberIds
    && (s.kind == Private ==> s.hostId in s.joinedIds)
    && s.status != Ended
    && (s.status == Active <==> s.connectedAt.Some?)
    && (s.onHold <==> s.heldBy.Some?)
    && (s.heldBy.Some? ==> s.heldBy.value in s.memberIds)
    && (s.screenSharerId.Some? ==> s.screenSharerId.value in s.memberIds)
  }

  ghost predicate SessionOk(st: Store, c: CallId) {
    c in st.sessions ==> st.sessions[c].value.callId == c && RosterOk(st.sessions[c].value)
  }

  /** A busy lock points at a live call that really engages the user, and lives exactly as long as it. */
  ghost predicate LockOk(st: Store, u: UserId) {
    u in st.users ==>
      && st.users[u].value in st.sessions
      && var s := st.sessions[st.users[u].value];
      && u in s.value.memberIds
      && IsBusy(s.value, u)
      && st.users[u].until == s.until
  }

  ghost predicate OneCallPerConversation(st: Store) {
    forall c, d, conv :: LiveFor(st, conv, c) && LiveFor(st, conv, d) ==> c == d
  }

  /** Nothing is asked of the conversation index: it may hold anything. */
  ghost predicate Inv(st: Store) {
    && (forall c :: SessionOk(st, c))
    && (forall u :: LockOk(st, u))
    && OneCallPerConversation(st)
  }

  lemma StoredUnderItsId(st: Store, c: CallId)
    requires Inv(st) && c in st.sessions
    ensures st.sessions[c].value.callId == c && st.sessions[c].value.status != Ended
    ensures NoDup(st.sessions[c].value.leftIds)
  {
    assert SessionOk(st, c);
  }

  /** Members split exactly into joined, ringing, and those who declined or left. */
  lemma RosterPartition(s: Session)
    requires RosterOk(s)
    ensures Elems(s.memberIds) ==
            Elems(s.joinedIds) + Elems(RingingIds(s)) + (Elems(s.memberIds) * (Elems(s.declinedIds) + Elems(s.leftIds)))
    ensures Elems(s.joinedIds) !! Elems(RingingIds(s)) !! (Elems(s.declinedIds) + Elems(s.leftIds))
    ensures |s.memberIds| == |s.joinedIds| + |RingingIds(s)|
                             + |Elems(s.memberIds) * (Elems(s.declinedIds) + Elems(s.leftIds))|
  {
    var gone := Elems(s.memberIds) * (Elems(s.declinedIds) + Elems(s.leftIds));
    NoDupSize(s.memberIds);
    NoDupSize(s.joinedIds);
    NoDupSize(RingingIds(s));
    assert Elems(s.memberIds) == Elems(s.joinedIds) + Elems(RingingIds(s)) + gone;
  }

  // ---------------------------------------------------------------- the two ways a store changes

  /** Persisting a sound session keeps the invariant, provided it is the only call of its conversation and
      no lock points at it from outside its roster. */
  lemma PersistedKeepsInv(st: Store, s: Session, ttlSeconds: nat, now: nat)
    requires Inv(st) && RosterOk(s)
    requires forall c :: LiveFor(st, s.conversationId, c) ==> c == s.callId
    requires s.callId in st.sessions ==> st.sessions[s.callId].value.conversationId == s.conversationId
    requires forall u :: u in st.users && st.users[u].value == s.callId ==> u in s.memberIds
    ensures Inv(Persisted(st, s, ttlSeconds, now))
  {
    var next := Persisted(st, s, ttlSeconds, now);
    forall c ensures SessionOk(next, c) {
      assert SessionOk(st, c);
    }
    forall u ensures LockOk(next, u) {
      assert LockOk(st, u);
    }
    forall c, d, conv | LiveFor(next, conv, c) && LiveFor(next, conv, d) ensures c == d {
      assert c != s.callId ==> LiveFor(st, conv, c);
      assert d != s.callId ==> LiveFor(st, conv, d);
    }
  }

  lemma EndedKeepsInv(st: Store, c: CallId)
    requires Inv(st)
    ensures Inv(EndedStore(st, c))
  {
    var next := EndedStore(st, c);
    forall d ensures SessionOk(next, d) {
      assert SessionOk(st, d);
    }
    forall u ensures LockOk(next, u) {
      assert LockOk(st, u);
    }
    forall d, e, conv | LiveFor(next, conv, d) && LiveFor(next, conv, e) ensures d == e {
      assert LiveFor(st, conv, d) && LiveFor(st, conv, e);
    }
  }

  /** Any store with the same sessions and no new or changed locks is as sound, whatever its index holds. */
  lemma FewerLocksKeepInv(st: Store, next: Store)
    requires Inv(st)
    requires next.sessions == st.sessions
    requires forall u :: u in next.users ==> u in st.users && next.users[u] == st.users[u]
    ensures Inv(next)
  {
    forall c ensures SessionOk(next, c) {
      assert SessionOk(st, c);
    }
    forall u ensures LockOk(next, u) {
      assert LockOk(st, u);
    }
    forall c, d, conv | LiveFor(next, conv, c) && LiveFor(next, conv, d) ensures c == d {
      assert LiveFor(st, conv, c) && LiveFor(st, conv, d);
    }
  }

  lemma RepairedKeepsInv(st: Store, c: CallId, now: nat)
    requires Inv(st)
    ensures Inv(Repaired(st, c, now))
    ensures Repaired(st, c, now).sessions == st.sessions && Repaired(st, c, now).users == st.users
  {
    FewerLocksKeepInv(st, Repaired(st, c, now));
  }

  // ---------------------------------------------------------------- the index refines a plain search

  /** Whatever the index held, after a lookup the entry of the conversation agrees with the plain search;
      the sessions and the locks are untouched. */
  lemma IndexAgreesWithSearch(st: Store, conv: ConvId, now: nat)
    requires Inv(st)
    ensures var r := Reindexed(st, conv, now);
            && Inv(r) && r.sessions == st.sessions && r.users == st.users
            && (match Found(st, conv)
                case None =>
                  conv !in r.convos && forall c :: c in st.sessions ==> st.sessions[c].value.conversationId != conv
                case Some(s) =>
                  && s.callId in st.sessions && st.sessions[s.callId].value == s && s.conversationId == conv
                  && conv in r.convos && r.convos[conv].value == s.callId
                  && forall c :: c in st.sessions && st.sessions[c].value.conversationId == conv ==> c == s.callId)
  {
    var r := Reindexed(st, conv, now);
    FewerLocksKeepInv(st, r);
    match LiveCall(st, conv)
    case None =>
      forall c | c in st.sessions ensures st.sessions[c].value.conversationId != conv {
        assert !LiveFor(st, conv, c);
      }
    case Some(found) =>
      assert SessionOk(st, found);
      forall c | c in st.sessions && st.sessions[c].value.conversationId == conv ensures c == found {
        assert LiveFor(st, conv, c) && LiveFor(st, conv, found);
      }
  }

  lemma FoundIsStored(st: Store, conv: ConvId)
    requires Inv(st)
    ensures var found := Found(st, conv);
            found.Some? ==> && found.value.callId in st.sessions
                            && st.sessions[found.value.callId].value == found.value
                            && found.value.status != Ended
  {
    IndexAgreesWithSearch(st, conv, 0);
    if Found(st, conv).Some? {
      StoredUnderItsId(st, Found(st, conv).value.callId);
    }
  }

  /** The lookup never depends on the index, and looking twice changes nothing more. */
  lemma LookupIgnoresIndex(st: Store, other: Store, conv: ConvId, now: nat, later: nat)
    requires Inv(st) && Inv(other)
    requires st.sessions == other.sessions
    ensures Found(st, conv) == Found(other, conv)
    ensures Reindexed(Reindexed(st, conv, now), conv, later) == Reindexed(st, conv, now)
  {
    IndexAgreesWithSearch(st, conv, now);
    IndexAgreesWithSearch(other, conv, now);
    var r := Reindexed(st, conv, now);
    IndexAgreesWithSearch(r, conv, later);
    if Found(r, conv).None? {
      assert r.convos - {conv} == r.convos;
    }
  }

  // ---------------------------------------------------------------- operation by operation

  /** A stored session whose roster changed may be persisted over the old one. */
  lemma UpdateKeepsInv(st: Store, unlocked: Store, t: Session, ttlSeconds: nat, now: nat)
    requires Inv(st) && Inv(unlocked)
    requires unlocked.sessions == st.sessions
    requires t.callId in st.sessions && RosterOk(t)
    requires t.conversationId == st.sessions[t.callId].value.conversationId
    requires forall u :: u in st.sessions[t.callId].value.memberIds && u !in t.memberIds ==>
                           u !in unlocked.users
    ensures Inv(Persisted(unlocked, t, ttlSeconds, now))
  {
    forall c | LiveFor(unlocked, t.conversationId, c) ensures c == t.callId {
      assert LiveFor(unlocked, t.conversationId, t.callId);
    }
    forall u | u in unlocked.users && unlocked.users[u].value == t.callId ensures u in t.memberIds {
      assert LockOk(unlocked, u);
    }
    PersistedKeepsInv(unlocked, t, ttlSeconds, now);
  }

  lemma StartKeepsInv(st: Store, conv: ConvId, kind: Kind, host: UserId, memberIds: seq<UserId>, media: Media,
                      id: CallId, now: nat)
    requires Inv(st) && id !in st.sessions
    requires forall c :: !LiveFor(st, conv, c)
    ensures Inv(Start(st, conv, kind, host, memberIds, media, id, now).0)
  {
    forall u | u in st.users ensures st.users[u].value != id {
      assert LockOk(st, u);
    }
    var s := FreshSession(conv, kind, host, CallMembers(memberIds, host), media, id, now);
    assert RosterOk(s);
    PersistedKeepsInv(st, s, RINGING_TTL_SECONDS, now);
  }

  /** Ending the call a lookup found leaves the conversation without any call. */
  lemma ClearedHasNoCall(st: Store, conv: ConvId, now: nat)
    requires Inv(st)
    ensures var cleared := Cleared(st, conv, now);
            Inv(cleared) && cleared.sessions.Keys <= st.sessions.Keys && forall c :: !LiveFor(cleared, conv, c)
  {
    IndexAgreesWithSearch(st, conv, now);
    if Found(st, conv).Some? {
      EndedKeepsInv(Reindexed(st, conv, now), Found(st, conv).value.callId);
    }
  }

  lemma CreateKeepsInv(st: Store, conv: ConvId, kind: Kind, host: UserId, memberIds: seq<UserId>, media: Media,
                       id: CallId, now: nat)
    requires Inv(st) && id !in st.sessions
    ensures Inv(Create(st, conv, kind, host, memberIds, media, id, now).0)
  {
    var released := HostReleased(st, host, now);
    FewerLocksKeepInv(st, released);
    IndexAgreesWithSearch(released, conv, now);
    ClearedHasNoCall(released, conv, now);
    StartKeepsInv(Cleared(released, conv, now), conv, kind, host, memberIds, media, id, now);
  }

  lemma JoinedRosterOk(s: Session, u: UserId, now: nat)
    requires RosterOk(s) && u in s.memberIds && u !in s.joinedIds
    ensures RosterOk(WithJoined(s, u, now))
  {
    DistinctSnoc(s.joinedIds, u);
  }

  lemma AcceptKeepsInv(st: Store, c: CallId, u: UserId, now: nat)
    requires Inv(st)
    ensures Inv(Accept(st, c, u, now).0)
  {
    RepairedKeepsInv(st, c, now);
    if c in st.sessions {
      var s := st.sessions[c].value;
      assert SessionOk(st, c);
      if u in s.memberIds && u !in s.joinedIds {
        JoinedRosterOk(s, u, now);
        UpdateKeepsInv(st, Repaired(st, c, now), WithJoined(s, u, now), ACTIVE_TTL_SECONDS, now);
      }
    }
  }

  lemma DeclineKeepsInv(st: Store, c: CallId, u: UserId, now: nat)
    requires Inv(st)
    ensures Inv(Decline(st, c, u, now).0)
  {
    RepairedKeepsInv(st, c, now);
    EndedKeepsInv(Repaired(st, c, now), c);
    if c in st.sessions {
      var s := st.sessions[c].value;
      assert SessionOk(st, c);
      if u in s.memberIds && u !in s.joinedIds {
        var t := WithDeclined(s, u);
        UpdateKeepsInv(st, Repaired(st, c, now), t, StatusTtl(t), now);
      }
    }
  }

  lemma LeaveKeepsInv(st: Store, c: CallId, u: UserId, now: nat)
    requires Inv(st)
    ensures Inv(Leave(st, c, u, now).0)
  {
    RepairedKeepsInv(st, c, now);
    var unlocked := BusyCleared(Repaired(st, c, now), u, None);
    FewerLocksKeepInv(st, unlocked);
    EndedKeepsInv(unlocked, c);
    if c in st.sessions {
      var s := st.sessions[c].value;
      assert SessionOk(st, c);
      var t := WithLeft(s, u);
      if u in s.memberIds && t.joinedIds != [] && s.kind == Group {
        UpdateKeepsInv(st, unlocked, t, ACTIVE_TTL_SECONDS, now);
      }
    }
  }

  lemma RevokedRosterOk(s: Session, u: UserId)
    requires RosterOk(s) && s.kind == Group
    requires WithRevoked(s, u).joinedIds != []
    ensures RosterOk(WithSuccessor(WithRevoked(s, u), u))
  {
    var t := WithRevoked(s, u);
    RevokedLists(s, u);
    RevokedRoles(s, u);
    assert t.joinedIds[0] in t.joinedIds;
  }

  /** The four lists after a revocation. */
  lemma RevokedLists(s: Session, u: UserId)
    requires RosterOk(s)
    ensures var t := WithRevoked(s, u);
            && NoDup(t.memberIds) && NoDup(t.joinedIds) && NoDup(t.declinedIds) && NoDup(t.leftIds)
            && (forall v :: v in t.joinedIds ==> v in t.memberIds && v !in t.declinedIds && v !in t.leftIds)
            && (forall v :: v in t.declinedIds ==> v in t.memberIds)
            && (s.hostId != u ==> s.hostId in t.memberIds)
  {
  }

  /** Hold and screen share after a revocation. */
  lemma RevokedRoles(s: Session, u: UserId)
    requires RosterOk(s)
    ensures var t := WithRevoked(s, u);
            && (t.onHold <==> t.heldBy.Some?)
            && (t.heldBy.Some? ==> t.heldBy.value in t.memberIds)
            && (t.screenSharerId.Some? ==> t.screenSharerId.value in t.memberIds)
  {
  }

  lemma RevokeKeepsInv(st: Store, conv: ConvId, u: UserId, now: nat)
    requires Inv(st)
    ensures Inv(Revoke(st, conv, u, now).0)
  {
    IndexAgreesWithSearch(st, conv, now);
    var indexed := Reindexed(st, conv, now);
    var unlocked := BusyCleared(indexed, u, None);
    FewerLocksKeepInv(indexed, unlocked);
    match Found(st, conv)
    case None =>
    case Some(s) =>
      EndedKeepsInv(unlocked, s.callId);
      assert SessionOk(st, s.callId);
      var t := WithRevoked(s, u);
      if t.joinedIds != [] && t.kind == Group {
        RevokedRosterOk(s, u);
        var h := WithSuccessor(t, u);
        UpdateKeepsInv(st, unlocked, h, ACTIVE_TTL_SECONDS, now);
      }
  }

  lemma InvitedRosterOk(s: Session, u: UserId)
    requires RosterOk(s) && u !in s.joinedIds
    ensures RosterOk(WithInvited(s, u))
    ensures u in RingingIds(WithInvited(s, u))
    ensures forall v :: v in RingingIds(s) ==> v in RingingIds(WithInvited(s, u))
  {
    var t := WithInvited(s, u);
    assert NoDup(t.memberIds);
  }

  /** What the invitation loop has done to roster `s` after considering `requested`. */
  ghost predicate InviteEffect(users: map<UserId, Timed<CallId>>, s: Session, requested: seq<UserId>, r: Invitation) {
    var t := r.session;
    && RosterOk(t)
    && t == s.(memberIds := t.memberIds, declinedIds := t.declinedIds, leftIds := t.leftIds)
    && (forall u :: u in t.memberIds <==> u in s.memberIds || u in r.invitedIds)
    && (forall u :: u in r.invitedIds ==> u in requested && u in RingingIds(t))
    && NoDup(r.invitedIds)
    && (|t.memberIds| <= MAX_GROUP_CALL || t.memberIds == s.memberIds)
    && |s.memberIds| <= |t.memberIds|
    && (forall u :: u in requested && u !in r.invitedIds ==>
          u in s.joinedIds || (u in users && users[u].value != s.callId) ||
          (u !in t.memberIds && |t.memberIds| >= MAX_GROUP_CALL))
  }

  lemma InviteStep(users: map<UserId, Timed<CallId>>, s: Session, init: seq<UserId>, u: UserId, before: Invitation)
    requires InviteEffect(users, s, init, before) && u !in init
    requires Invitable(users, before.session, u)
    ensures InviteEffect(users, s, init + [u], Invitation(WithInvited(before.session, u), before.invitedIds + [u]))
  {
    InvitedRosterOk(before.session, u);
    var after := before.invitedIds + [u];
    assert NoDup(after) by { assert u !in before.invitedIds; }
    var t := WithInvited(before.session, u);
    assert forall v :: v in t.memberIds <==> v in before.session.memberIds || v == u;
    assert forall v :: v in after <==> v in before.invitedIds || v == u;
  }

  lemma {:induction false} InviteEachEffect(users: map<UserId, Timed<CallId>>, s: Session, requested: seq<UserId>)
    requires RosterOk(s) && NoDup(requested)
    ensures InviteEffect(users, s, requested, InviteEach(users, s, requested))
  {
    if requested != [] {
      var init, u := requested[..|requested| - 1], requested[|requested| - 1];
      InviteEachEffect(users, s, init);
      assert requested == init + [u];
      var before := InviteEach(users, s, init);
      if Invitable(users, before.session, u) {
        InviteStep(users, s, init, u, before);
      }
    }
  }

  lemma InviteMoreKeepsInv(st: Store, c: CallId, actor: UserId, userIds: seq<UserId>, allowed: seq<UserId>, now: nat)
    requires Inv(st)
    ensures Inv(InviteMore(st, c, actor, userIds, allowed, now).0)
  {
    RepairedKeepsInv(st, c, now);
    if c in st.sessions {
      var s := st.sessions[c].value;
      assert SessionOk(st, c);
      InviteEachEffect(st.users, s, Requested(userIds, allowed, actor));
      var t := InviteEach(st.users, s, Requested(userIds, allowed, actor)).session;
      UpdateKeepsInv(st, Repaired(st, c, now), t, StatusTtl(t), now);
    }
  }

  /** A successful invitation: the invited are distinct, all ring, nobody's seat changes, and a free requested
      user is passed over only when the call is full. */
  lemma InviteMoreRings(st: Store, c: CallId, actor: UserId, userIds: seq<UserId>, allowed: seq<UserId>, now: nat)
    requires Inv(st)
    requires InviteMore(st, c, actor, userIds, allowed, now).1.Ok?
    ensures var s := st.sessions[c].value;
            var Invitation(t, invited) := InviteMore(st, c, actor, userIds, allowed, now).1.value;
            && invited != [] && NoDup(invited)
            && (forall u :: u in invited ==> u in RingingIds(t) && u in allowed && u != actor)
            && t.joinedIds == s.joinedIds && t.hostId == s.hostId && t.status == s.status
            && (forall u :: u in t.memberIds <==> u in s.memberIds || u in invited)
            && (forall u :: u in userIds && u in allowed && u !in s.joinedIds && u !in st.users && u !in invited ==>
                  |t.memberIds| >= MAX_GROUP_CALL)
  {
    assert SessionOk(st, c);
    InviteEachEffect(st.users, st.sessions[c].value, Requested(userIds, allowed, actor));
  }

  lemma HoldKeepsInv(st: Store, c: CallId, actor: UserId, flag: bool, now: nat)
    requires Inv(st)
    ensures Inv(SetHold(st, c, actor, flag, now).0)
  {
    RepairedKeepsInv(st, c, now);
    if c in st.sessions && actor in st.sessions[c].value.joinedIds {
      assert SessionOk(st, c);
      var t := st.sessions[c].value.(onHold := flag, heldBy := if flag then Some(actor) else None);
      UpdateKeepsInv(st, Repaired(st, c, now), t, ACTIVE_TTL_SECONDS, now);
    }
  }

  lemma MuteKeepsInv(st: Store, c: CallId, actor: UserId, flag: bool, now: nat)
    requires Inv(st)
    ensures Inv(SetForceMute(st, c, actor, flag, now).0)
  {
    RepairedKeepsInv(st, c, now);
    if c in st.sessions && actor in st.sessions[c].value.joinedIds {
      assert SessionOk(st, c);
      var t := st.sessions[c].value.(forceMuted := flag);
      UpdateKeepsInv(st, Repaired(st, c, now), t, ACTIVE_TTL_SECONDS, now);
    }
  }

  lemma ShareKeepsInv(st: Store, c: CallId, actor: UserId, flag: bool, now: nat)
    requires Inv(st)
    ensures Inv(SetScreenShare(st, c, actor, flag, now).0)
  {
    RepairedKeepsInv(st, c, now);
    if c in st.sessions && actor in st.sessions[c].value.joinedIds {
      assert SessionOk(st, c);
      var t := st.sessions[c].value.(screenSharerId := if flag then Some(actor) else None);
      UpdateKeepsInv(st, Repaired(st, c, now), t, ACTIVE_TTL_SECONDS, now);
    }
  }

  lemma MarkUnansweredKeepsInv(st: Store, c: CallId, userIds: seq<UserId>, now: nat)
    requires Inv(st)
    ensures Inv(MarkUnanswered(st, c, userIds, now).0)
  {
    RepairedKeepsInv(st, c, now);
    if c in st.sessions {
      var s := st.sessions[c].value;
      assert SessionOk(st, c);
      var late := Unanswered(s, userIds);
      var released := LocksReleased(Repaired(st, c, now), c, late);
      FewerLocksKeepInv(st, released);
      var t := s.(leftIds := Distinct(s.leftIds + late));
      UpdateKeepsInv(st, released, t, StatusTtl(t), now);
    }
  }

  /** In a private call the host is always joined, so the refusal "Host is already in the call" is dead code. */
  lemma HostAlreadyInIsDead(st: Store, c: CallId, u: UserId, now: nat)
    requires Inv(st)
    ensures Accept(st, c, u, now).1 != Err(HostAlreadyIn)
  {
    assert SessionOk(st, c);
  }
}
