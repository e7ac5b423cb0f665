/** `CallSessionService`: the operations as the service performs them on its three Redis maps. */
module CallService {
  import opened Ids
  import opened Lists
  import opened Calls
  import opened CallInvariant

  class CallSessionService {
    var sessions: map<CallId, Timed<Session>>
    var users: map<UserId, Timed<CallId>>
    var convos: map<ConvId, Timed<CallId>>

    ghost function State(): Store
      reads this
    {
      Store(sessions, users, convos)
    }

    ghost predicate Valid()
      reads this
    {
      Inv(State())
    }

    constructor ()
      ensures State() == Store(map[], map[], map[]) && Valid()
    {
      sessions, users, convos := map[], map[], map[];
    }

    /** Reads a call and repairs its index entry. */
    method Get(c: CallId, now: nat) returns (r: Option<Session>)
      modifies this`convos
      ensures State() == Repaired(old(State()), c, now)
      ensures r == if c in sessions then Some(sessions[c].value) else None
    {
      if c !in sessions {
        return None;
      }
      var session := sessions[c].value;
      if session.status != Ended {
        if session.conversationId !in convos || convos[session.conversationId].value != c {
          var lifetime := IndexLifetime(sessions[c].until, now);
          convos := convos[session.conversationId := Timed(c, now + lifetime)];
        }
      }
      return Some(session);
    }

    /** Writes an index entry; writing the entry that is there already changes nothing. */
    method IndexCall(conv: ConvId, c: CallId, until: int)
      modifies this`convos
      ensures State() == Indexed(old(State()), conv, c, until)
      ensures conv in old(convos) && old(convos)[conv] == Timed(c, until) ==> State() == old(State())
    {
      convos := convos[conv := Timed(c, until)];
      assert conv in old(convos) && old(convos)[conv] == Timed(c, until) ==> convos == old(convos);
    }

    method GetActiveCallIdForUser(u: UserId) returns (r: Option<CallId>)
      ensures r == if u in users then Some(users[u].value) else None
    {
      r := if u in users then Some(users[u].value) else None;
    }

    method ClearUserBusy(u: UserId, c: Option<CallId>)
      modifies this`users
      ensures State() == BusyCleared(old(State()), u, c)
    {
      var current := GetActiveCallIdForUser(u);
      if current == None {
        return;
      }
      if c.Some? && current != c {
        return;
      }
      users := users - {u};
    }

    method Persist(s: Session, ttlSeconds: nat, now: nat)
      modifies this
      ensures State() == Persisted(old(State()), s, ttlSeconds, now)
    {
      var until := now + ttlSeconds * 1000;
      sessions := sessions[s.callId := Timed(s, until)];
      convos := convos[s.conversationId := Timed(s.callId, until)];
      ghost var before := users;
      for i := 0 to |s.memberIds|
        invariant sessions == old(sessions)[s.callId := Timed(s, until)]
        invariant convos == old(convos)[s.conversationId := Timed(s.callId, until)]
        invariant forall u :: u in users <==>
                                if u in s.memberIds[..i] then IsBusy(s, u) else u in before
        invariant forall u :: u in users ==>
                                users[u] == if u in s.memberIds[..i] then Timed(s.callId, until) else before[u]
      {
        var u := s.memberIds[i];
        assert s.memberIds[..i + 1] == s.memberIds[..i] + [u];
        if IsBusy(s, u) {
          users := users[u := Timed(s.callId, until)];
        } else {
          users := users - {u};
        }
      }
      assert s.memberIds[..|s.memberIds|] == s.memberIds;
      assert users == Persisted(old(State()), s, ttlSeconds, now).users;
    }

    /** Saves a connected call and, once more, its index entry. */
    method SaveActive(s: Session, now: nat)
      modifies this
      ensures State() == Persisted(old(State()), s, ACTIVE_TTL_SECONDS, now)
    {
      Persist(s, ACTIVE_TTL_SECONDS, now);
      IndexCall(s.conversationId, s.callId, now + ACTIVE_TTL_SECONDS * 1000);
    }

    method End(c: CallId, now: nat) returns (r: Option<Session>)
      modifies this
      ensures State() == EndedStore(old(State()), c)
      ensures r == EndResult(old(State()), c)
    {
      var found := Get(c, now);
      if found.None? {
        return None;
      }
      var session := found.value.(status := Ended);
      sessions := sessions - {c};
      convos := convos - {session.conversationId};
      ghost var before := users;
      for i := 0 to |session.memberIds|
        invariant sessions == old(sessions) - {c}
        invariant convos == old(convos) - {session.conversationId}
        invariant users == before - Elems(session.memberIds[..i])
      {
        assert session.memberIds[..i + 1] == session.memberIds[..i] + [session.memberIds[i]];
        users := users - {session.memberIds[i]};
      }
      assert session.memberIds[..|session.memberIds|] == session.memberIds;
      return Some(session);
    }

    /** Scans every stored session, in whatever order Redis returns the keys. */
    method FindSessionByConversation(conv: ConvId, now: nat) returns (r: Option<Session>)
      requires Valid()
      modifies this`convos
      ensures r == Found(old(State()), conv)
      ensures r.Some? ==> r.value.callId in sessions
      ensures State() == match r
                         case None => old(State())
                         case Some(s) =>
                           Indexed(old(State()), conv, s.callId, now + IndexLifetime(sessions[s.callId].until, now))
    {
      IndexAgreesWithSearch(State(), conv, now);
      var keys := sessions.Keys;
      while keys != {}
        invariant keys <= sessions.Keys && convos == old(convos)
        invariant forall c :: LiveFor(State(), conv, c) ==> c in keys
        decreases keys
      {
        var key :| key in keys;
        keys := keys - {key};
        var session := sessions[key].value;
        assert SessionOk(State(), key);
        if session.conversationId == conv && session.status != Ended && |session.joinedIds| > 0 {
          assert LiveFor(State(), conv, key);
          var lifetime := IndexLifetime(sessions[key].until, now);
          convos := convos[conv := Timed(session.callId, now + lifetime)];
          return Some(session);
        }
      }
      return None;
    }

    method GetByConversation(conv: ConvId, now: nat) returns (r: Option<Session>)
      requires Valid()
      modifies this`convos
      ensures State() == Reindexed(old(State()), conv, now) && Valid()
      ensures r == Found(old(State()), conv)
    {
      IndexAgreesWithSearch(State(), conv, now);
      ghost var seen := State();
      if conv in convos {
        var indexed := convos[conv].value;
        var session := Get(indexed, now);
        RepairedKeepsInv(old(State()), indexed, now);
        if indexed in sessions { StoredUnderItsId(old(State()), indexed); }
        seen := State();
        if session.Some? && session.value.conversationId == conv && session.value.status != Ended {
          assert LiveFor(old(State()), conv, indexed);
          return session;
        }
        convos := convos - {conv};
        FewerLocksKeepInv(old(State()), State());
      }
      assert Found(State(), conv) == Found(old(State()), conv) by {
        SearchReadsSessionsOnly(old(State()), State(), conv);
      }
      assert convos == seen.convos - {conv};
      r := FindSessionByConversation(conv, now);
      assert r.Some? ==> convos == Indexed(seen, conv, r.value.callId, convos[conv].until).convos;
    }

    method CreateCall(conv: ConvId, kind: Kind, host: UserId, memberIds: seq<UserId>, media: Media, id: CallId,
                      now: nat) returns (r: Result<Session, CallError>)
      requires Valid() && id !in sessions
      modifies this
      ensures (State(), r) == Create(old(State()), conv, kind, host, memberIds, media, id, now)
      ensures Valid()
    {
      CreateKeepsInv(State(), conv, kind, host, memberIds, media, id, now);
      FewerLocksKeepInv(State(), HostReleased(State(), host, now));
      var busyHost := GetActiveCallIdForUser(host);
      if busyHost.Some? {
        var existing := Get(busyHost.value, now);
        if existing.None? || existing.value.status == Ended {
          ClearUserBusy(host, busyHost);
        } else if host in existing.value.joinedIds || existing.value.hostId == host {
          return Err(AlreadyInCall);
        } else {
          ClearUserBusy(host, busyHost);
        }
      }
      assert State() == HostReleased(old(State()), host, now);
      var existingConvo := GetByConversation(conv, now);
      if existingConvo.Some? {
        if existingConvo.value.hostId == host || |existingConvo.value.joinedIds| <= 1 {
          var _ := End(existingConvo.value.callId, now);
        } else {
          return Err(CallInProgress);
        }
      }
      r := StartCall(conv, kind, host, memberIds, media, id, now);
    }

    /** The rest of `createCall`, once the conversation has no call. */
    method StartCall(conv: ConvId, kind: Kind, host: UserId, memberIds: seq<UserId>, media: Media, id: CallId,
                     now: nat) returns (r: Result<Session, CallError>)
      modifies this
      ensures (State(), r) == Start(old(State()), conv, kind, host, memberIds, media, id, now)
    {
      var members := Distinct(memberIds);
      if host !in members {
        members := members + [host];
      }
      if |members| < 2 {
        return Err(NotEnoughParticipants);
      }
      if kind == Private {
        var other := Peer(members, host);
        if other.Some? {
          var busyOther := GetActiveCallIdForUser(other.value);
          if busyOther.Some? {
            return Err(UserBusy);
          }
        }
      }
      var session := Session(id, conv, kind, media, host, members, [host], [], [],
                             false, None, false, None, Ringing, now, None);
      Persist(session, RINGING_TTL_SECONDS, now);
      IndexCall(conv, id, now + RINGING_TTL_SECONDS * 1000);
      return Ok(session);
    }

    method AcceptCall(c: CallId, u: UserId, now: nat) returns (r: Result<Session, CallError>)
      requires Valid()
      modifies this
      ensures (State(), r) == Accept(old(State()), c, u, now)
      ensures Valid()
    {
      AcceptKeepsInv(State(), c, u, now);
      if c in sessions { StoredUnderItsId(State(), c); }
      var found := Get(c, now);
      if found.None? || found.value.status == Ended {
        return Err(NoLongerAvailable);
      }
      var session := found.value;
      if u !in session.memberIds {
        return Err(NotInvited);
      }
      if u in session.joinedIds {
        return Ok(session);
      }
      if session.kind == Private && u == session.hostId {
        return Err(HostAlreadyIn);
      }
      var busy := GetActiveCallIdForUser(u);
      if busy.Some? && busy.value != c {
        return Err(InAnotherCall);
      }
      session := session.(joinedIds := Distinct(session.joinedIds + [u]));
      session := session.(declinedIds := Without(session.declinedIds, u));
      session := session.(leftIds := Without(session.leftIds, u));
      session := session.(status := Active);
      if session.connectedAt.None? && |session.joinedIds| >= 2 {
        session := session.(connectedAt := Some(now));
      }
      SaveActive(session, now);
      return Ok(session);
    }

    method DeclineCall(c: CallId, u: UserId, now: nat) returns (r: Result<Declined, CallError>)
      requires Valid()
      modifies this
      ensures (State(), r) == Decline(old(State()), c, u, now)
      ensures Valid()
    {
      DeclineKeepsInv(State(), c, u, now);
      var found := Get(c, now);
      if found.None? || found.value.status == Ended {
        return Err(NoLongerAvailable);
      }
      var session := found.value;
      if u !in session.memberIds || u in session.joinedIds {
        return Err(CannotDecline);
      }
      session := session.(declinedIds := Distinct(session.declinedIds + [u]));
      if session.kind == Private {
        var _ := End(c, now);
        return Ok(Declined(session.(status := Ended), true));
      }
      Persist(session, if session.status == Active then ACTIVE_TTL_SECONDS else RINGING_TTL_SECONDS, now);
      return Ok(Declined(session, false));
    }

    method LeaveCall(c: CallId, u: UserId, now: nat) returns (r: Result<Departure, CallError>)
      requires Valid()
      modifies this
      ensures (State(), r) == Leave(old(State()), c, u, now)
      ensures Valid()
    {
      LeaveKeepsInv(State(), c, u, now);
      if c in sessions { StoredUnderItsId(State(), c); }
      var found := Get(c, now);
      if found.None? {
        return Err(CallNotFound);
      }
      var session := found.value;
      if u !in session.memberIds {
        return Err(NotPartOfCall);
      }
      session := session.(joinedIds := Without(session.joinedIds, u), leftIds := Distinct(session.leftIds + [u]));
      users := users - {u};
      assert State() == BusyCleared(Repaired(old(State()), c, now), u, None);
      if |session.joinedIds| == 0 {
        var _ := End(c, now);
        return Ok(Departure(session.(status := Ended), true, []));
      }
      if session.kind == Private {
        var _ := End(c, now);
        return Ok(Departure(session.(status := Ended), true, []));
      }
      SaveActive(session, now);
      return Ok(Departure(session, false, session.joinedIds));
    }

    method RevokeUserFromConversation(conv: ConvId, u: UserId, now: nat) returns (r: Option<Departure>)
      requires Valid()
      modifies this
      ensures (State(), r) == Revoke(old(State()), conv, u, now)
      ensures Valid()
    {
      RevokeKeepsInv(State(), conv, u, now);
      FoundIsStored(State(), conv);
      var found := GetByConversation(conv, now);
      if found.None? || found.value.status == Ended {
        return None;
      }
      var session := found.value;
      if u !in session.memberIds && u !in session.joinedIds {
        return None;
      }
      session := ClearUser(session, u);
      users := users - {u};
      assert State() == BusyCleared(Reindexed(old(State()), conv, now), u, None);
      if |session.joinedIds| == 0 || |session.memberIds| == 0 || session.kind == Private {
        var _ := End(session.callId, now);
        return Some(Departure(session.(status := Ended), true, []));
      }
      if session.hostId == u {
        session := session.(hostId := session.joinedIds[0]);
      }
      SaveActive(session, now);
      return Some(Departure(session, false, session.joinedIds));
    }

    /** Takes a user off every list and role of a call. */
    method ClearUser(start: Session, u: UserId) returns (session: Session)
      ensures session == WithRevoked(start, u)
    {
      session := start;
      session := session.(memberIds := Without(session.memberIds, u), joinedIds := Without(session.joinedIds, u),
                          declinedIds := Without(session.declinedIds, u), leftIds := Distinct(session.leftIds + [u]));
      if session.screenSharerId == Some(u) {
        session := session.(screenSharerId := None);
      }
      if session.heldBy == Some(u) {
        session := session.(onHold := false, heldBy := None);
      }
    }

    method InviteMoreUsers(c: CallId, actor: UserId, userIds: seq<UserId>, allowed: seq<UserId>, now: nat)
      returns (r: Result<Invitation, CallError>)
      requires Valid()
      modifies this
      ensures (State(), r) == InviteMore(old(State()), c, actor, userIds, allowed, now)
      ensures Valid()
    {
      InviteMoreKeepsInv(State(), c, actor, userIds, allowed, now);
      if c in sessions { StoredUnderItsId(State(), c); }
      var found := Get(c, now);
      if found.None? || found.value.status == Ended {
        return Err(NoLongerAvailable);
      }
      var session := found.value;
      if session.kind != Group {
        return Err(OnlyGroupCalls);
      }
      if actor !in session.joinedIds {
        return Err(JoinFirst);
      }
      var requested := Requested(userIds, allowed, actor);
      if |requested| == 0 {
        return Err(NoValidMembers);
      }
      var invited := [];
      session, invited := InviteLoop(session, requested);
      if |invited| == 0 {
        return Err(CannotInviteNow);
      }
      Persist(session, if session.status == Active then ACTIVE_TTL_SECONDS else RINGING_TTL_SECONDS, now);
      return Ok(Invitation(session, invited));
    }

    /** The loop of `inviteMore`. */
    method InviteLoop(start: Session, requested: seq<UserId>) returns (session: Session, invited: seq<UserId>)
      ensures Invitation(session, invited) == InviteEach(users, start, requested)
    {
      session, invited := start, [];
      for i := 0 to |requested|
        invariant Invitation(session, invited) == InviteEach(users, start, requested[..i])
        invariant session.callId == start.callId
      {
        var u := requested[i];
        assert requested[..i + 1][..i] == requested[..i];
        if u in session.joinedIds {
          continue;
        }
        var busy := GetActiveCallIdForUser(u);
        if busy.Some? && busy.value != session.callId {
          continue;
        }
        if u !in session.memberIds {
          if |session.memberIds| >= MAX_GROUP_CALL {
            continue;
          }
          session := session.(memberIds := session.memberIds + [u]);
        }
        session := session.(declinedIds := Without(session.declinedIds, u));
        session := session.(leftIds := Without(session.leftIds, u));
        invited := invited + [u];
      }
      assert requested[..|requested|] == requested;
    }

    method SetOnHold(c: CallId, actor: UserId, onHold: bool, now: nat) returns (r: Result<Session, CallError>)
      requires Valid()
      modifies this
      ensures (State(), r) == SetHold(old(State()), c, actor, onHold, now)
      ensures Valid()
    {
      HoldKeepsInv(State(), c, actor, onHold, now);
      var found := Get(c, now);
      if found.None? || found.value.status == Ended {
        return Err(NoLongerAvailable);
      }
      var session := found.value;
      if actor !in session.joinedIds {
        return Err(NotInCall);
      }
      if onHold {
        session := session.(onHold := true, heldBy := Some(actor));
      } else {
        if session.heldBy.Some? && session.heldBy.value != actor && session.hostId != actor {
          return Err(OnlyHolderResumes);
        }
        session := session.(onHold := false, heldBy := None);
      }
      Persist(session, ACTIVE_TTL_SECONDS, now);
      return Ok(session);
    }

    method MuteAll(c: CallId, actor: UserId, muted: bool, now: nat) returns (r: Result<Session, CallError>)
      requires Valid()
      modifies this
      ensures (State(), r) == SetForceMute(old(State()), c, actor, muted, now)
      ensures Valid()
    {
      MuteKeepsInv(State(), c, actor, muted, now);
      var found := Get(c, now);
      if found.None? || found.value.status == Ended {
        return Err(NoLongerAvailable);
      }
      var session := found.value;
      if session.hostId != actor {
        return Err(OnlyHost);
      }
      if actor !in session.joinedIds {
        return Err(NotInCall);
      }
      session := session.(forceMuted := muted);
      Persist(session, ACTIVE_TTL_SECONDS, now);
      return Ok(session);
    }

    method ShareScreen(c: CallId, actor: UserId, active: bool, now: nat) returns (r: Result<Session, CallError>)
      requires Valid()
      modifies this
      ensures (State(), r) == SetScreenShare(old(State()), c, actor, active, now)
      ensures Valid()
    {
      ShareKeepsInv(State(), c, actor, active, now);
      var found := Get(c, now);
      if found.None? || found.value.status == Ended {
        return Err(NoLongerAvailable);
      }
      var session := found.value;
      if actor !in session.joinedIds {
        return Err(NotInCall);
      }
      if active {
        session := session.(screenSharerId := Some(actor));
      } else if session.screenSharerId == Some(actor) || session.hostId == actor {
        session := session.(screenSharerId := None);
      } else {
        return Err(NotSharing);
      }
      Persist(session, ACTIVE_TTL_SECONDS, now);
      return Ok(session);
    }

    method MarkUnansweredAsLeft(c: CallId, userIds: seq<UserId>, now: nat) returns (r: Option<Session>)
      requires Valid()
      modifies this
      ensures (State(), r) == MarkUnanswered(old(State()), c, userIds, now)
      ensures Valid()
    {
      MarkUnansweredKeepsInv(State(), c, userIds, now);
      if c in sessions { StoredUnderItsId(State(), c); }
      var found := Get(c, now);
      if found.None? || found.value.status == Ended {
        return None;
      }
      var session, changed := MarkLoop(found.value, userIds);
      if !changed {
        return Some(session);
      }
      Persist(session, if session.status == Active then ACTIVE_TTL_SECONDS else RINGING_TTL_SECONDS, now);
      return Some(session);
    }

    /** The loop of `markUnansweredAsLeft`. */
    method MarkLoop(start: Session, userIds: seq<UserId>) returns (session: Session, changed: bool)
      requires NoDup(start.leftIds)
      modifies this`users
      ensures State() == LocksReleased(old(State()), start.callId, Unanswered(start, userIds))
      ensures session == start.(leftIds := Distinct(start.leftIds + Unanswered(start, userIds)))
      ensures changed <==> session.leftIds != start.leftIds
    {
      session, changed := start, false;
      assert start.leftIds + Unanswered(start, userIds[..0]) == start.leftIds;
      ReleaseNobody(State(), start.callId);
      for i := 0 to |userIds|
        invariant State() == LocksReleased(old(State()), start.callId, Unanswered(start, userIds[..i]))
        invariant session == start.(leftIds := Distinct(start.leftIds + Unanswered(start, userIds[..i])))
        invariant |start.leftIds| <= |session.leftIds|
        invariant changed <==> |start.leftIds| < |session.leftIds|
        invariant !changed ==> session.leftIds == start.leftIds
      {
        var u := userIds[i];
        UnansweredSnoc(start, userIds, i);
        ReleaseOneMore(old(State()), start.callId, Unanswered(start, userIds[..i]), u);
        if u in session.joinedIds || u in session.declinedIds {
          continue;
        }
        if u !in session.leftIds {
          session := session.(leftIds := session.leftIds + [u]);
          changed := true;
        }
        ClearUserBusy(u, Some(session.callId));
      }
      assert userIds[..|userIds|] == userIds;
    }
  }

  lemma SearchReadsSessionsOnly(st: Store, other: Store, conv: ConvId)
    requires Inv(st) && Inv(other) && st.sessions == other.sessions
    ensures LiveCall(st, conv) == LiveCall(other, conv)
  {
    assert forall c :: LiveFor(st, conv, c) <==> LiveFor(other, conv, c);
  }

  lemma ReleaseNobody(st: Store, c: CallId)
    ensures LocksReleased(st, c, []) == st
  {
    assert LocksReleased(st, c, []).users == st.users;
  }

  lemma ReleaseOneMore(st: Store, c: CallId, ids: seq<UserId>, u: UserId)
    ensures LocksReleased(st, c, ids + [u]) == BusyCleared(LocksReleased(st, c, ids), u, Some(c))
  {
    assert LocksReleased(st, c, ids + [u]).users == BusyCleared(LocksReleased(st, c, ids), u, Some(c)).users;
  }

  /** One more user id considered by the unanswered loop. */
  lemma UnansweredSnoc(s: Session, userIds: seq<UserId>, i: nat)
    requires i < |userIds|
    ensures var late, next := Unanswered(s, userIds[..i]), Unanswered(s, userIds[..i + 1]);
            var u := userIds[i];
            if u in s.joinedIds || u in s.declinedIds then next == late
            else next == late + [u] &&
                 Distinct(s.leftIds + next) ==
                 var left := Distinct(s.leftIds + late); if u in left then left else left + [u]
  {
    var u := userIds[i];
    var late := Unanswered(s, userIds[..i]);
    assert userIds[..i + 1] == userIds[..i] + [u];
    assert (userIds[..i] + [u])[..i] == userIds[..i];
    assert s.leftIds + (late + [u]) == (s.leftIds + late) + [u];
    assert ((s.leftIds + late) + [u])[..|s.leftIds + late|] == s.leftIds + late;
  }
}
