/** The full outcome of every call operation: each refusal, each field of the call afterwards, and what stays as it was.
    Nothing here is said through the operations' own building blocks. */
module CallOutcomes {
  import opened Calls
  import opened CallEffects
  import opened CallInvariant
  import opened Ids
  import opened Lists

  const ACTIVE_MS: nat := 3600 * 1000
  const RINGING_MS: nat := 50 * 1000

  /** No call and no lock has changed; at most the index was repaired. */
  ghost predicate Unmoved(st: Store, next: Store) {
    next.sessions == st.sessions && next.users == st.users
  }

  /** The lifetime of a call saved in its present status. */
  function Lifetime(s: Session): nat {
    if s.status == Active then ACTIVE_MS else RINGING_MS
  }

  /** The call is stored as `t`, with exactly its joined, ringing and hosting members locked to it, and nothing else has
      changed. */
  ghost predicate SavedAs(st: Store, next: Store, c: CallId, t: Session, until: int) {
    Settled(next, c, t, until) && OthersUntouched(st, next, c, t.memberIds)
  }

  /** The list has gained `u`. */
  predicate Gained(before: seq<UserId>, after: seq<UserId>, u: UserId) {
    && (u in before ==> after == before)
    && (u !in before ==> after == before + [u])
  }

  /** The list has lost `u`, and is otherwise in order. */
  predicate Lost(before: seq<UserId>, after: seq<UserId>, u: UserId) {
    if before == [] then after == []
    else if before[0] == u then Lost(before[1..], after, u)
    else after != [] && after[0] == before[0] && Lost(before[1..], after[1..], u)
  }

  lemma WithoutCons(xs: seq<UserId>, u: UserId)
    requires xs != []
    ensures Without(xs, u) == (if xs[0] == u then [] else [xs[0]]) + Without(xs[1..], u)
  {
    WithoutConcat([xs[0]], xs[1..], u);
    WithoutOne(xs[0], u);
    assert [xs[0]] + xs[1..] == xs;
  }

  lemma {:induction false} WithoutIsLost(xs: seq<UserId>, u: UserId)
    ensures Lost(xs, Without(xs, u), u)
  {
    if xs != [] {
      WithoutIsLost(xs[1..], u);
      WithoutCons(xs, u);
      var tail := Without(xs[1..], u);
      if xs[0] == u {
        assert [] + tail == tail;
      } else {
        assert ([xs[0]] + tail)[1..] == tail;
      }
    }
  }

  lemma DistinctIsGained(xs: seq<UserId>, u: UserId)
    requires NoDup(xs)
    ensures Gained(xs, Distinct(xs + [u]), u)
  {
    DistinctSnoc(xs, u);
  }

  /** Nothing can be done to a call that is not there. */
  lemma UnknownCall(st: Store, c: CallId, u: UserId, flag: bool, xs: seq<UserId>, ys: seq<UserId>, now: nat)
    requires c !in st.sessions
    ensures Accept(st, c, u, now) == (st, Err(NoLongerAvailable))
    ensures Decline(st, c, u, now) == (st, Err(NoLongerAvailable))
    ensures Leave(st, c, u, now) == (st, Err(CallNotFound))
    ensures InviteMore(st, c, u, xs, ys, now) == (st, Err(NoLongerAvailable))
    ensures SetHold(st, c, u, flag, now) == (st, Err(NoLongerAvailable))
    ensures SetForceMute(st, c, u, flag, now) == (st, Err(NoLongerAvailable))
    ensures SetScreenShare(st, c, u, flag, now) == (st, Err(NoLongerAvailable))
    ensures MarkUnanswered(st, c, xs, now) == (st, None)
    ensures EndedStore(st, c) == st && EndResult(st, c) == None
  {
  }

  // ---------------------------------------------------------------- reading and clearing

  /** A repaired index entry lives as long as the call, to the rounding of half a second, or an hour when less than
      that is left. */
  predicate LivesAsLong(entry: int, until: int, now: nat) {
    var left := entry - now;
    if until - now >= 500 then left % 1000 == 0 && left - 500 <= until - now < left + 500 else left == ACTIVE_MS
  }

  /** The index entries of all other conversations are as before. */
  ghost predicate OtherEntriesKept(st: Store, next: Store, conv: ConvId) {
    next.convos - {conv} == st.convos - {conv}
  }

  /** Reading a call repairs its index entry and does nothing else. */
  lemma ReadOutcome(st: Store, c: CallId, now: nat)
    requires Inv(st)
    ensures var next := Repaired(st, c, now);
            && Unmoved(st, next)
            && (c !in st.sessions ==> next == st)
            && (c in st.sessions ==>
                  var conv, until := st.sessions[c].value.conversationId, st.sessions[c].until;
                  && conv in next.convos && next.convos[conv].value == c
                  && OtherEntriesKept(st, next, conv)
                  && (conv in st.convos && st.convos[conv].value == c ==> next == st)
                  && (next != st ==> LivesAsLong(next.convos[conv].until, until, now)))
  {
    if c in st.sessions {
      StoredUnderItsId(st, c);
    }
  }

  /** Looking a conversation up leaves its entry pointing at its call, or none if it has no call. A stale entry that
      pointed at another conversation's call may repair that conversation's entry; no other entry changes. */
  lemma LookupOutcome(st: Store, conv: ConvId, now: nat)
    requires Inv(st)
    ensures var next := Reindexed(st, conv, now);
            && Unmoved(st, next)
            && ((forall c :: !LiveFor(st, conv, c)) ==> conv !in next.convos)
            && (forall c :: LiveFor(st, conv, c) ==>
                  && conv in next.convos && next.convos[conv].value == c
                  && if conv in st.convos && st.convos[conv].value == c then next == st
                     else LivesAsLong(next.convos[conv].until, st.sessions[c].until, now))
            && (forall v :: v != conv && v in st.convos ==> v in next.convos)
            && (forall v :: v != conv && v in next.convos && !(v in st.convos && next.convos[v] == st.convos[v]) ==>
                  && conv in st.convos && LiveFor(st, v, st.convos[conv].value)
                  && next.convos[v].value == st.convos[conv].value)
  {
    IndexAgreesWithSearch(st, conv, now);
    FoundByScan(st, st, conv);
    if conv in st.convos && st.convos[conv].value in st.sessions {
      ReadOutcome(st, st.convos[conv].value, now);
    }
  }

  /** Clearing deletes the user's lock, if it is there and the call it is meant for, and nothing else. */
  lemma ClearOutcome(st: Store, u: UserId, only: Option<CallId>)
    ensures var next := BusyCleared(st, u, only);
            && next.sessions == st.sessions && next.convos == st.convos
            && (u in next.users <==> u in st.users && only.Some? && st.users[u].value != only.value)
            && (forall v :: v != u ==> (v in next.users <==> v in st.users))
            && (forall v :: v in next.users ==> v in st.users && next.users[v] == st.users[v])
  {
  }

  /** Ending returns the call marked as ended. */
  lemma EndOutcome(st: Store, c: CallId)
    requires Inv(st) && c in st.sessions
    ensures EndResult(st, c) == Some(st.sessions[c].value.(status := Ended))
    ensures Gone(EndedStore(st, c), c) && OthersUntouched(st, EndedStore(st, c), c, st.sessions[c].value.memberIds)
  {
    EndEffect(st, c);
  }

  // ---------------------------------------------------------------- creating

  /** A new call, field by field. */
  ghost predicate NewCall(t: Session, conv: ConvId, kind: Kind, host: UserId, invited: seq<UserId>, media: Media,
                          id: CallId, now: nat) {
    && t.callId == id && t.conversationId == conv && t.kind == kind && t.media == media && t.hostId == host
    && NoDup(t.memberIds) && (forall u :: u in t.memberIds <==> u in invited || u == host)
    && InOrder(t.memberIds, invited + [host])
    && t.joinedIds == [host] && t.declinedIds == [] && t.leftIds == []
    && !t.onHold && t.heldBy.None? && !t.forceMuted && t.screenSharerId.None?
    && t.status == Ringing && t.createdAt == now && t.connectedAt.None?
  }

  /** The other party of a private call: the first invited who is not the host. */
  ghost predicate FirstOther(invited: seq<UserId>, host: UserId, p: UserId) {
    exists k :: 0 <= k < |invited| && invited[k] == p && p != host && forall j :: 0 <= j < k ==> invited[j] == host
  }

  lemma FirstMember(front: seq<UserId>, p: UserId, rest: seq<UserId>, host: UserId)
    requires p != host && forall u :: u in front ==> u == host
    ensures Peer(CallMembers(front + [p] + rest, host), host) == Some(p)
  {
    var hosts := Distinct(front);
    DistinctNew(front, p);
    DistinctPrefix(front + [p], rest);
    MembersStart(front + [p] + rest, host, hosts + [p]);
    var members := CallMembers(front + [p] + rest, host);
    Prefixed(hosts + [p], members);
    PastHosts(hosts, p, members[|hosts + [p]|..], host);
  }

  lemma Prefixed(a: seq<UserId>, xs: seq<UserId>)
    requires a <= xs
    ensures xs == a + xs[|a|..]
  {
  }

  lemma MembersStart(memberIds: seq<UserId>, host: UserId, start: seq<UserId>)
    requires start <= Distinct(memberIds)
    ensures start <= CallMembers(memberIds, host)
  {
  }

  lemma PastHosts(hosts: seq<UserId>, p: UserId, rest: seq<UserId>, host: UserId)
    requires p != host && forall u :: u in hosts ==> u == host
    ensures Peer(hosts + [p] + rest, host) == Some(p)
  {
    var others := (u: UserId) => u != host;
    FilterNone(hosts, others);
    FilterOne(p, others);
    FilterConcat(hosts, [p], others);
    FilterConcat(hosts + [p], rest, others);
    assert Filter(hosts + [p] + rest, others) == [p] + Filter(rest, others);
  }

  /** The host is bound by a call as its host or participant. */
  ghost predicate Engaged(st: Store, host: UserId) {
    exists c :: c in st.sessions && LockedTo(st, host, c) &&
                (host in st.sessions[c].value.joinedIds || host == st.sessions[c].value.hostId)
  }

  /** The conversation's call is somebody else's and has at least two participants. */
  ghost predicate InProgress(st: Store, conv: ConvId, host: UserId) {
    exists c :: LiveFor(st, conv, c) && st.sessions[c].value.hostId != host && |st.sessions[c].value.joinedIds| >= 2
  }

  lemma MayCreateMeans(st: Store, conv: ConvId, host: UserId)
    requires Inv(st)
    ensures MayCreate(st, conv, host) <==> !Engaged(st, host) && !InProgress(st, conv, host)
    ensures HostEngaged(st, host) <==> Engaged(st, host)
  {
    EngagedHost(st, host);
  }

  lemma PeerAt(memberIds: seq<UserId>, host: UserId, k: nat)
    requires k < |memberIds| && memberIds[k] != host && forall j :: 0 <= j < k ==> memberIds[j] == host
    ensures Peer(CallMembers(memberIds, host), host) == Some(memberIds[k])
  {
    FirstMember(memberIds[..k], memberIds[k], memberIds[k + 1..], host);
    assert memberIds[..k] + [memberIds[k]] + memberIds[k + 1..] == memberIds;
  }

  /** Which private peer has to be free. */
  lemma PeerIsFirstOther(memberIds: seq<UserId>, host: UserId)
    requires exists u :: u in memberIds && u != host
    ensures var peer := Peer(CallMembers(memberIds, host), host);
            peer.Some? && forall p :: FirstOther(memberIds, host, p) <==> p == peer.value
  {
    var k := FirstOtherAt(memberIds, host);
    PeerAt(memberIds, host, k);
    assert FirstOther(memberIds, host, memberIds[k]);
  }

  lemma {:induction false} FirstOtherAt(xs: seq<UserId>, host: UserId) returns (k: nat)
    requires exists u :: u in xs && u != host
    ensures k < |xs| && xs[k] != host && forall j :: 0 <= j < k ==> xs[j] == host
  {
    k := 0;
    var n :| 0 <= n < |xs| && xs[n] != host;
    while xs[k] == host
      invariant k <= n && forall j :: 0 <= j < k ==> xs[j] == host
      decreases n - k
    {
      k := k + 1;
    }
  }

  /** Every refusal of creating a call. */
  lemma CreateErrors(st: Store, conv: ConvId, kind: Kind, host: UserId, memberIds: seq<UserId>, media: Media,
                     id: CallId, now: nat)
    requires Inv(st)
    ensures var r := Create(st, conv, kind, host, memberIds, media, id, now).1;
            && (r == Err(AlreadyInCall) <==> Engaged(st, host))
            && (r == Err(CallInProgress) <==> !Engaged(st, host) && InProgress(st, conv, host))
            && (r == Err(NotEnoughParticipants) <==>
                  !Engaged(st, host) && !InProgress(st, conv, host) && forall u :: u in memberIds ==> u == host)
            && (r.Err? ==> r.error in {AlreadyInCall, CallInProgress, NotEnoughParticipants, UserBusy})
  {
    MayCreateMeans(st, conv, host);
    CreateRefusals(st, conv, kind, host, memberIds, media, id, now);
    MembersBesideHost(memberIds, host);
    if MayCreate(st, conv, host) {
      CreateIsStart(st, conv, kind, host, memberIds, media, id, now);
    }
  }

  lemma NewMembers(st: Store, conv: ConvId, kind: Kind, host: UserId, memberIds: seq<UserId>, media: Media,
                   id: CallId, now: nat)
    requires Inv(st) && MayCreate(st, conv, host)
    ensures var r := Create(st, conv, kind, host, memberIds, media, id, now).1;
            r.Ok? ==> NewCall(r.value, conv, kind, host, memberIds, media, id, now)
  {
    CreateIsStart(st, conv, kind, host, memberIds, media, id, now);
    MembersInOrder(memberIds, host);
  }

  lemma MembersInOrder(memberIds: seq<UserId>, host: UserId)
    ensures InOrder(CallMembers(memberIds, host), memberIds + [host])
  {
    DistinctInOrder(memberIds);
    InOrderSnoc(Distinct(memberIds), memberIds, host);
  }

  /** Creating a call succeeds exactly for a host not engaged, in a conversation without a call in progress, with
      somebody else invited and a private peer who is free; then the new call is, field by field, as asked. */
  lemma CreateOutcome(st: Store, conv: ConvId, kind: Kind, host: UserId, memberIds: seq<UserId>, media: Media,
                      id: CallId, now: nat)
    requires Inv(st) && id !in st.sessions
    ensures var (next, r) := Create(st, conv, kind, host, memberIds, media, id, now);
            && (r.Ok? <==> && !Engaged(st, host) && !InProgress(st, conv, host)
                           && (exists u :: u in memberIds && u != host)
                           && (kind == Private ==> forall p :: FirstOther(memberIds, host, p) ==> FreeFor(st, conv, p)))
            && (r.Ok? ==> NewCall(r.value, conv, kind, host, memberIds, media, id, now) &&
                          Settled(next, id, r.value, now + RINGING_MS))
  {
    MayCreateMeans(st, conv, host);
    CreateEffect(st, conv, kind, host, memberIds, media, id, now);
    if exists u :: u in memberIds && u != host {
      PeerIsFirstOther(memberIds, host);
    }
    if MayCreate(st, conv, host) {
      NewMembers(st, conv, kind, host, memberIds, media, id, now);
    }
  }

  /** A refused creation of a call leaves an engaged host's locks alone and otherwise takes the host's stale lock; past
      the call in progress it has also ended the call in the way, with the locks of its members. No call appears but the
      new one. */
  lemma CreateRefused(st: Store, conv: ConvId, kind: Kind, host: UserId, memberIds: seq<UserId>, media: Media,
                      id: CallId, now: nat)
    requires Inv(st) && id !in st.sessions
    ensures var (next, r) := Create(st, conv, kind, host, memberIds, media, id, now);
            && (r == Err(AlreadyInCall) ==> Unmoved(st, next))
            && (r.Err? && r != Err(AlreadyInCall) ==> host !in next.users)
            && (r == Err(CallInProgress) ==>
                  next.sessions == st.sessions &&
                  forall u :: u != host ==> (u in next.users <==> u in st.users))
            && (r == Err(NotEnoughParticipants) || r == Err(UserBusy) ==>
                  forall u :: u != host ==> (u in next.users <==> u in st.users && !FreeFor(st, conv, u)))
            && next.sessions.Keys <= st.sessions.Keys + if r.Ok? then {id} else {}
  {
    MayCreateMeans(st, conv, host);
    CreateErrors(st, conv, kind, host, memberIds, media, id, now);
    if MayCreate(st, conv, host) {
      CreateIsStart(st, conv, kind, host, memberIds, media, id, now);
      ClearedEffect(st, conv, host, now);
      HostFreed(st, conv, host, now);
      StartKeys(Cleared(HostReleased(st, host, now), conv, now), conv, kind, host, memberIds, media, id, now);
    } else {
      CreateIsRefused(st, conv, kind, host, memberIds, media, id, now);
      RefusedLock(st, conv, kind, host, memberIds, media, id, now);
    }
  }

  lemma RefusedLock(st: Store, conv: ConvId, kind: Kind, host: UserId, memberIds: seq<UserId>, media: Media,
                    id: CallId, now: nat)
    requires Inv(st) && !MayCreate(st, conv, host)
    ensures var next := Create(st, conv, kind, host, memberIds, media, id, now).0;
            if HostEngaged(st, host) then Unmoved(st, next) else host !in next.users
  {
    var released := HostReleased(st, host, now);
    FewerLocksKeepInv(st, released);
    if !HostEngaged(st, host) {
      LookupOutcome(released, conv, now);
      CreateRefusals(st, conv, kind, host, memberIds, media, id, now);
    }
  }

  lemma HostFreed(st: Store, conv: ConvId, host: UserId, now: nat)
    requires Inv(st) && !HostEngaged(st, host)
    ensures host !in Cleared(HostReleased(st, host, now), conv, now).users
  {
    var released := HostReleased(st, host, now);
    FewerLocksKeepInv(st, released);
    IndexAgreesWithSearch(released, conv, now);
  }

  lemma StartKeys(st: Store, conv: ConvId, kind: Kind, host: UserId, memberIds: seq<UserId>, media: Media,
                  id: CallId, now: nat)
    ensures var (next, r) := Start(st, conv, kind, host, memberIds, media, id, now);
            if r.Ok? then next.sessions.Keys == st.sessions.Keys + {id} else next == st
  {
  }

  // ---------------------------------------------------------------- joining, declining, leaving

  lemma AcceptOutcome(st: Store, c: CallId, u: UserId, now: nat)
    requires Inv(st) && c in st.sessions
    ensures var s := st.sessions[c].value;
            var (next, r) := Accept(st, c, u, now);
            && (r == Err(NotInvited) <==> u !in s.memberIds)
            && (r == Err(InAnotherCall) <==>
                  u in s.memberIds && u !in s.joinedIds && u in st.users && st.users[u].value != c)
            && (r.Err? ==> (r.error == NotInvited || r.error == InAnotherCall) && Unmoved(st, next))
            && (u in s.joinedIds ==> r == Ok(s) && Unmoved(st, next))
            && (r.Ok? && u !in s.joinedIds ==>
                  var t := r.value;
                  && t == s.(joinedIds := s.joinedIds + [u], declinedIds := t.declinedIds, leftIds := t.leftIds,
                             status := Active, connectedAt := if s.connectedAt.Some? then s.connectedAt else Some(now))
                  && Lost(s.declinedIds, t.declinedIds, u) && Lost(s.leftIds, t.leftIds, u)
                  && SavedAs(st, next, c, t, now + ACTIVE_MS))
  {
    AcceptEffect(st, c, u, now);
    HostAlreadyInIsDead(st, c, u, now);
    StoredUnderItsId(st, c);
    StoredRoster(st, c);
    var s := st.sessions[c].value;
    WithoutIsLost(s.declinedIds, u);
    WithoutIsLost(s.leftIds, u);
  }

  lemma DeclineOutcome(st: Store, c: CallId, u: UserId, now: nat)
    requires Inv(st) && c in st.sessions
    ensures var s := st.sessions[c].value;
            var (next, r) := Decline(st, c, u, now);
            && (r.Err? <==> u !in s.memberIds || u in s.joinedIds)
            && (r.Err? ==> r == Err(CannotDecline) && Unmoved(st, next))
            && (r.Ok? ==>
                  var t := r.value.session;
                  && (r.value.ended <==> s.kind == Private)
                  && t == s.(declinedIds := t.declinedIds, status := if r.value.ended then Ended else s.status)
                  && Gained(s.declinedIds, t.declinedIds, u)
                  && (r.value.ended ==> Gone(next, c) && OthersUntouched(st, next, c, s.memberIds))
                  && (!r.value.ended ==> SavedAs(st, next, c, t, now + Lifetime(s))))
  {
    DeclineEffect(st, c, u, now);
    StoredUnderItsId(st, c);
    StoredRoster(st, c);
    DistinctIsGained(st.sessions[c].value.declinedIds, u);
    RepairedKeepsInv(st, c, now);
    EndEffect(Repaired(st, c, now), c);
  }

  lemma LeaveOutcome(st: Store, c: CallId, u: UserId, now: nat)
    requires Inv(st) && c in st.sessions
    ensures var s := st.sessions[c].value;
            var (next, r) := Leave(st, c, u, now);
            && (r.Err? <==> u !in s.memberIds)
            && (r.Err? ==> r == Err(NotPartOfCall) && Unmoved(st, next))
            && (r.Ok? ==>
                  var t := r.value.session;
                  && (r.value.ended <==> s.kind == Private || forall v :: v in s.joinedIds ==> v == u)
                  && t == s.(joinedIds := t.joinedIds, leftIds := t.leftIds,
                             status := if r.value.ended then Ended else s.status)
                  && Lost(s.joinedIds, t.joinedIds, u) && Gained(s.leftIds, t.leftIds, u)
                  && r.value.remainingIds == (if r.value.ended then [] else t.joinedIds)
                  && (r.value.ended ==> Gone(next, c) && OthersUntouched(st, next, c, s.memberIds))
                  && (!r.value.ended ==> SavedAs(st, next, c, t, now + ACTIVE_MS)))
  {
    var s := st.sessions[c].value;
    LeaveEffect(st, c, u, now);
    StoredUnderItsId(st, c);
    StoredRoster(st, c);
    WithoutIsLost(s.joinedIds, u);
    DistinctIsGained(s.leftIds, u);
    if u in s.memberIds {
      var unlocked := BusyCleared(Repaired(st, c, now), u, None);
      FewerLocksKeepInv(st, unlocked);
      EndEffect(unlocked, c);
    }
  }

  /** What a revoked user leaves behind in the call. */
  ghost predicate RevokedFrom(s: Session, t: Session, u: UserId, ended: bool) {
    && t == s.(hostId := t.hostId, memberIds := t.memberIds, joinedIds := t.joinedIds, declinedIds := t.declinedIds,
               leftIds := t.leftIds, screenSharerId := t.screenSharerId, onHold := t.onHold, heldBy := t.heldBy,
               status := if ended then Ended else s.status)
    && Lost(s.memberIds, t.memberIds, u) && Lost(s.joinedIds, t.joinedIds, u) && Lost(s.declinedIds, t.declinedIds, u)
    && Gained(s.leftIds, t.leftIds, u)
    && t.screenSharerId == (if s.screenSharerId == Some(u) then None else s.screenSharerId)
    && (s.heldBy == Some(u) ==> !t.onHold && t.heldBy.None?)
    && (s.heldBy != Some(u) ==> t.onHold == s.onHold && t.heldBy == s.heldBy)
    && (ended || s.hostId != u ==> t.hostId == s.hostId)
    && (!ended && s.hostId == u ==> t.joinedIds != [] && t.hostId == t.joinedIds[0])
  }

  lemma RevokedFields(s: Session, u: UserId)
    requires RosterOk(s)
    ensures var t := WithRevoked(s, u);
            && RevokedFrom(s, t.(status := Ended), u, true)
            && (t.joinedIds != [] ==> RevokedFrom(s, WithSuccessor(t, u), u, false))
  {
    WithoutIsLost(s.memberIds, u);
    WithoutIsLost(s.joinedIds, u);
    WithoutIsLost(s.declinedIds, u);
    DistinctIsGained(s.leftIds, u);
  }

  lemma RevokeOutcome(st: Store, conv: ConvId, c: CallId, u: UserId, now: nat)
    requires Inv(st) && LiveFor(st, conv, c)
    ensures var s := st.sessions[c].value;
            var (next, r) := Revoke(st, conv, u, now);
            && (r.Some? <==> u in s.memberIds)
            && (r.None? ==> Unmoved(st, next))
            && (r.Some? ==>
                  var t := r.value.session;
                  && (r.value.ended <==> s.kind == Private || forall v :: v in s.joinedIds ==> v == u)
                  && RevokedFrom(s, t, u, r.value.ended)
                  && r.value.remainingIds == (if r.value.ended then [] else t.joinedIds)
                  && u !in next.users
                  && OthersUntouched(st, next, c, s.memberIds)
                  && (r.value.ended ==> Gone(next, c))
                  && (!r.value.ended ==> Settled(next, c, t, now + ACTIVE_MS)))
  {
    var s := st.sessions[c].value;
    RevokeEffect(st, conv, c, u, now);
    StoredRoster(st, c);
    FoundByScan(st, st, conv);
    IndexAgreesWithSearch(st, conv, now);
    if u in s.memberIds {
      RevokedStore(st, conv, c, u, now);
      RevokedFields(s, u);
      RevokedOthers(st, conv, c, u, now);
    }
  }

  lemma RevokedOthers(st: Store, conv: ConvId, c: CallId, u: UserId, now: nat)
    requires Inv(st) && LiveFor(st, conv, c) && u in st.sessions[c].value.memberIds
    ensures OthersUntouched(st, Revoke(st, conv, u, now).0, c, st.sessions[c].value.memberIds)
    ensures Revoke(st, conv, u, now).1.Some? ==>
              Revoke(st, conv, u, now).1.value.remainingIds ==
              if Revoke(st, conv, u, now).1.value.ended then [] else Revoke(st, conv, u, now).1.value.session.joinedIds
    ensures Revoke(st, conv, u, now).1.Some? && Revoke(st, conv, u, now).1.value.ended ==>
              Revoke(st, conv, u, now).1.value.session == WithRevoked(st.sessions[c].value, u).(status := Ended)
  {
    RevokedStore(st, conv, c, u, now);
    FoundByScan(st, st, conv);
    IndexAgreesWithSearch(st, conv, now);
    var unlocked := BusyCleared(Reindexed(st, conv, now), u, None);
    EndEffect(unlocked, c);
  }

  /** No operation on a call touches the index entry of another conversation, and ending a call takes its own. */
  lemma OtherEntriesWhenSeating(st: Store, c: CallId, u: UserId, now: nat)
    requires Inv(st) && c in st.sessions
    ensures var conv := st.sessions[c].value.conversationId;
            && OtherEntriesKept(st, Accept(st, c, u, now).0, conv)
            && OtherEntriesKept(st, EndedStore(st, c), conv) && conv !in EndedStore(st, c).convos
  {
    StoredUnderItsId(st, c);
  }

  lemma OtherEntriesWhenDeclining(st: Store, c: CallId, u: UserId, now: nat)
    requires Inv(st) && c in st.sessions
    ensures var (next, r) := Decline(st, c, u, now);
            var conv := st.sessions[c].value.conversationId;
            OtherEntriesKept(st, next, conv) && (r.Ok? && r.value.ended ==> conv !in next.convos)
  {
    StoredUnderItsId(st, c);
  }

  lemma OtherEntriesWhenLeaving(st: Store, c: CallId, u: UserId, now: nat)
    requires Inv(st) && c in st.sessions
    ensures var (next, r) := Leave(st, c, u, now);
            var conv := st.sessions[c].value.conversationId;
            OtherEntriesKept(st, next, conv) && (r.Ok? && r.value.ended ==> conv !in next.convos)
  {
    StoredUnderItsId(st, c);
  }

  lemma SavedEntries(st: Store, read: Store, t: Session, ttl: nat, now: nat)
    requires OtherEntriesKept(st, read, t.conversationId)
    ensures OtherEntriesKept(st, Persisted(read, t, ttl, now), t.conversationId)
  {
  }

  lemma OtherEntriesWhenInviting(st: Store, c: CallId, u: UserId, xs: seq<UserId>, ys: seq<UserId>, now: nat)
    requires Inv(st) && c in st.sessions
    ensures OtherEntriesKept(st, InviteMore(st, c, u, xs, ys, now).0, st.sessions[c].value.conversationId)
  {
    ReadOutcome(st, c, now);
    if InviteMore(st, c, u, xs, ys, now).1.Ok? {
      StoredRoster(st, c);
      InvitationRoster(st, st.sessions[c].value, u, xs, ys);
      InvitationSaved(st, c, u, xs, ys, now);
      var t := InviteMore(st, c, u, xs, ys, now).1.value.session;
      SavedEntries(st, Repaired(st, c, now), t, StatusTtl(t), now);
    }
  }

  lemma OtherEntriesWhenSetting(st: Store, c: CallId, u: UserId, flag: bool, now: nat)
    requires Inv(st) && c in st.sessions
    ensures var conv := st.sessions[c].value.conversationId;
            && OtherEntriesKept(st, SetHold(st, c, u, flag, now).0, conv)
            && OtherEntriesKept(st, SetForceMute(st, c, u, flag, now).0, conv)
            && OtherEntriesKept(st, SetScreenShare(st, c, u, flag, now).0, conv)
  {
    ReadOutcome(st, c, now);
    var s, read := st.sessions[c].value, Repaired(st, c, now);
    SavedEntries(st, read, s.(onHold := flag, heldBy := if flag then Some(u) else None), ACTIVE_TTL_SECONDS, now);
    SavedEntries(st, read, s.(forceMuted := flag), ACTIVE_TTL_SECONDS, now);
    SavedEntries(st, read, s.(screenSharerId := if flag then Some(u) else None), ACTIVE_TTL_SECONDS, now);
  }

  lemma OtherEntriesAtTimeout(st: Store, c: CallId, xs: seq<UserId>, now: nat)
    requires Inv(st) && c in st.sessions
    ensures OtherEntriesKept(st, MarkUnanswered(st, c, xs, now).0, st.sessions[c].value.conversationId)
  {
    ReadOutcome(st, c, now);
    var s := st.sessions[c].value;
    var late := Unanswered(s, xs);
    var t := s.(leftIds := Distinct(s.leftIds + late));
    SavedEntries(st, LocksReleased(Repaired(st, c, now), c, late), t, StatusTtl(t), now);
  }

  /** Nobody to revoke. */
  lemma RevokeNothing(st: Store, conv: ConvId, u: UserId, now: nat)
    requires Inv(st) && forall c :: !LiveFor(st, conv, c)
    ensures Revoke(st, conv, u, now).1.None? && Unmoved(st, Revoke(st, conv, u, now).0)
  {
    IndexAgreesWithSearch(st, conv, now);
  }

  // ---------------------------------------------------------------- mid-call invitations

  /** Whom an invitation can reach: asked for, allowed, not the actor, not in the call, not in another one, and on the
      roster or with a place left on it. */
  ghost predicate CanBeInvited(st: Store, s: Session, actor: UserId, userIds: seq<UserId>, allowed: seq<UserId>,
                               u: UserId) {
    && u in userIds && u in allowed && u != actor
    && u !in s.joinedIds && (u in st.users ==> st.users[u].value == s.callId)
    && (u in s.memberIds || |s.memberIds| < 8)
  }

  /** The list has lost exactly the given users. */
  ghost predicate LostAll(before: seq<UserId>, after: seq<UserId>, us: seq<UserId>) {
    forall v :: v in after <==> v in before && v !in us
  }

  /** Neither in the call nor locked to another one. */
  predicate Free(users: map<UserId, Timed<CallId>>, s: Session, u: UserId) {
    u !in s.joinedIds && (u in users ==> users[u].value == s.callId)
  }

  /** What considering the requested users does to a roster: each in turn is invited exactly if there is then room. */
  ghost predicate InvitedInTurn(users: map<UserId, Timed<CallId>>, s: Session, requested: seq<UserId>, r: Invitation) {
    && s.memberIds <= r.session.memberIds
    && (forall v :: v in r.session.memberIds <==> v in s.memberIds || v in r.invitedIds)
    && LostAll(s.declinedIds, r.session.declinedIds, r.invitedIds)
    && LostAll(s.leftIds, r.session.leftIds, r.invitedIds)
    && (forall u :: u in r.invitedIds ==>
          u in requested && Free(users, s, u) && (u in s.memberIds || |s.memberIds| < 8))
    && (forall u :: u in requested && Free(users, s, u) && (u in s.memberIds || |r.session.memberIds| < 8) ==>
          u in r.invitedIds)
    && (r.invitedIds == [] ==> r.session == s)
  }

  lemma OneTurn(users: map<UserId, Timed<CallId>>, s: Session, init: seq<UserId>, u: UserId, before: Invitation)
    requires InvitedInTurn(users, s, init, before) && u !in init
    requires before.session.joinedIds == s.joinedIds && before.session.callId == s.callId
    ensures var after := if Invitable(users, before.session, u)
                         then Invitation(WithInvited(before.session, u), before.invitedIds + [u]) else before;
            InvitedInTurn(users, s, init + [u], after)
  {
    if Invitable(users, before.session, u) {
      var after := before.invitedIds + [u];
      assert forall v :: v in after <==> v in before.invitedIds || v == u;
    }
  }

  lemma {:induction false} InviteInTurn(users: map<UserId, Timed<CallId>>, s: Session, requested: seq<UserId>)
    requires RosterOk(s) && NoDup(requested)
    ensures InvitedInTurn(users, s, requested, InviteEach(users, s, requested))
  {
    if requested != [] {
      var init, u := requested[..|requested| - 1], requested[|requested| - 1];
      assert requested == init + [u];
      InviteInTurn(users, s, init);
      InviteEachEffect(users, s, init);
      OneTurn(users, s, init, u, InviteEach(users, s, init));
    }
  }

  /** Somebody is invited exactly if somebody could be from the start. */
  lemma SomebodyInvited(st: Store, s: Session, actor: UserId, userIds: seq<UserId>, allowed: seq<UserId>)
    requires RosterOk(s)
    ensures InviteEach(st.users, s, Requested(userIds, allowed, actor)).invitedIds != [] <==>
            exists u :: CanBeInvited(st, s, actor, userIds, allowed, u)
  {
    var requested := Requested(userIds, allowed, actor);
    InviteInTurn(st.users, s, requested);
    var inv := InviteEach(st.users, s, requested);
    if inv.invitedIds != [] {
      assert inv.invitedIds[0] in inv.invitedIds;
      assert CanBeInvited(st, s, actor, userIds, allowed, inv.invitedIds[0]);
    }
  }

  lemma NobodyRequested(userIds: seq<UserId>, allowed: seq<UserId>, actor: UserId)
    ensures Requested(userIds, allowed, actor) == [] <==> forall u :: u in userIds && u in allowed ==> u == actor
  {
    var requested := Requested(userIds, allowed, actor);
    if requested != [] {
      assert requested[0] in requested;
    }
  }

  /** The refusals of an invitation. */
  lemma InviteErrors(st: Store, c: CallId, actor: UserId, userIds: seq<UserId>, allowed: seq<UserId>, now: nat)
    requires Inv(st) && c in st.sessions
    ensures var s := st.sessions[c].value;
            var (next, r) := InviteMore(st, c, actor, userIds, allowed, now);
            && (r == Err(OnlyGroupCalls) <==> s.kind == Private)
            && (r == Err(JoinFirst) <==> s.kind == Group && actor !in s.joinedIds)
            && (r == Err(NoValidMembers) <==> s.kind == Group && actor in s.joinedIds &&
                                              forall u :: u in userIds && u in allowed ==> u == actor)
            && (r.Ok? <==> s.kind == Group && actor in s.joinedIds &&
                           exists u :: CanBeInvited(st, s, actor, userIds, allowed, u))
            && (r.Err? ==> Unmoved(st, next))
            && (r.Err? ==> r.error in {OnlyGroupCalls, JoinFirst, NoValidMembers, CannotInviteNow})
  {
    StoredUnderItsId(st, c);
    StoredRoster(st, c);
    NobodyRequested(userIds, allowed, actor);
    SomebodyInvited(st, st.sessions[c].value, actor, userIds, allowed);
    ReadOutcome(st, c, now);
  }

  /** The roster of an invitation that succeeds. */
  ghost predicate InvitedRoster(st: Store, s: Session, actor: UserId, userIds: seq<UserId>, allowed: seq<UserId>,
                                t: Session, invited: seq<UserId>) {
    && t == s.(memberIds := t.memberIds, declinedIds := t.declinedIds, leftIds := t.leftIds)
    && s.memberIds <= t.memberIds && (forall v :: v in t.memberIds <==> v in s.memberIds || v in invited)
    && LostAll(s.declinedIds, t.declinedIds, invited) && LostAll(s.leftIds, t.leftIds, invited)
    && NoDup(invited)
    && (forall u :: u in invited ==> CanBeInvited(st, s, actor, userIds, allowed, u) && u in RingingIds(t))
    && (forall u :: CanBeInvited(st, s, actor, userIds, allowed, u) && u !in invited ==>
          u !in s.memberIds && |t.memberIds| >= 8)
    && (|t.memberIds| <= 8 || t.memberIds == s.memberIds)
  }

  lemma InvitationRoster(st: Store, s: Session, actor: UserId, userIds: seq<UserId>, allowed: seq<UserId>)
    requires RosterOk(s)
    ensures var inv := InviteEach(st.users, s, Requested(userIds, allowed, actor));
            InvitedRoster(st, s, actor, userIds, allowed, inv.session, inv.invitedIds)
  {
    var requested := Requested(userIds, allowed, actor);
    InviteInTurn(st.users, s, requested);
    InviteEachEffect(st.users, s, requested);
    var inv := InviteEach(st.users, s, requested);
    forall u | CanBeInvited(st, s, actor, userIds, allowed, u) && u !in inv.invitedIds
      ensures u !in s.memberIds && |inv.session.memberIds| >= 8
    {
      assert u in requested && Free(st.users, s, u);
    }
  }

  /** An invitation that succeeds: the call is saved with the invited on the roster, ringing and locked to it; whoever
      could be reached is invited unless the call is full; and nothing else changes. */
  lemma InviteOutcome(st: Store, c: CallId, actor: UserId, userIds: seq<UserId>, allowed: seq<UserId>, now: nat)
    requires Inv(st) && c in st.sessions && InviteMore(st, c, actor, userIds, allowed, now).1.Ok?
    ensures var s := st.sessions[c].value;
            var (next, r) := InviteMore(st, c, actor, userIds, allowed, now);
            && r.value.invitedIds != []
            && InvitedRoster(st, s, actor, userIds, allowed, r.value.session, r.value.invitedIds)
            && SavedAs(st, next, c, r.value.session, now + Lifetime(s))
            && (forall u :: u in r.value.invitedIds ==> LockedTo(next, u, c))
  {
    StoredUnderItsId(st, c);
    StoredRoster(st, c);
    InvitationSaved(st, c, actor, userIds, allowed, now);
    InvitationRoster(st, st.sessions[c].value, actor, userIds, allowed);
    InvitationSettled(st, c, actor, userIds, allowed, now);
  }

  lemma InvitationSettled(st: Store, c: CallId, actor: UserId, userIds: seq<UserId>, allowed: seq<UserId>, now: nat)
    requires Inv(st) && c in st.sessions && InviteMore(st, c, actor, userIds, allowed, now).1.Ok?
    requires InviteMore(st, c, actor, userIds, allowed, now).1.value.session.callId == c
    ensures var (next, r) := InviteMore(st, c, actor, userIds, allowed, now);
            && SavedAs(st, next, c, r.value.session, now + Lifetime(r.value.session))
            && (forall u :: u in RingingIds(r.value.session) ==> LockedTo(next, u, c))
  {
    InvitationSaved(st, c, actor, userIds, allowed, now);
    var t := InviteMore(st, c, actor, userIds, allowed, now).1.value.session;
    SavedLocks(st, Repaired(st, c, now), t, StatusTtl(t), now);
  }

  lemma InvitationSaved(st: Store, c: CallId, actor: UserId, userIds: seq<UserId>, allowed: seq<UserId>, now: nat)
    requires Inv(st) && c in st.sessions && InviteMore(st, c, actor, userIds, allowed, now).1.Ok?
    ensures var (next, r) := InviteMore(st, c, actor, userIds, allowed, now);
            var inv := InviteEach(st.users, st.sessions[c].value, Requested(userIds, allowed, actor));
            && r == Ok(inv) && inv.invitedIds != []
            && next == Persisted(Repaired(st, c, now), inv.session, StatusTtl(inv.session), now)
  {
  }

  /** Whoever rings in a saved call is locked to it. */
  lemma SavedLocks(st: Store, read: Store, t: Session, ttl: nat, now: nat)
    requires Unmoved(st, read)
    ensures SavedAs(st, Persisted(read, t, ttl, now), t.callId, t, now + ttl * 1000)
    ensures forall u :: u in RingingIds(t) ==> LockedTo(Persisted(read, t, ttl, now), u, t.callId)
  {
    PersistedSettles(st, read, t, ttl, now);
  }

  /** Those not on the roster yet. */
  function Unlisted(s: Session, us: seq<UserId>): seq<UserId> {
    Filter(us, (u: UserId) => u !in s.memberIds)
  }

  lemma UnlistedSnoc(s: Session, us: seq<UserId>, u: UserId)
    ensures Unlisted(s, us + [u]) == Unlisted(s, us) + if u in s.memberIds then [] else [u]
  {
    assert (us + [u])[..|us|] == us;
  }

  /** New members come at the end of the roster, in the order of the invitation, which is that of the request. */
  ghost predicate AddedInOrder(s: Session, requested: seq<UserId>, r: Invitation) {
    InOrder(r.invitedIds, requested) && r.session.memberIds == s.memberIds + Unlisted(s, r.invitedIds)
  }

  /** Of two requested users who could both be invited, only the later one is left out for want of a place. */
  ghost predicate FirstServed(users: map<UserId, Timed<CallId>>, s: Session, requested: seq<UserId>,
                              invited: seq<UserId>) {
    forall i, j :: 0 <= i < j < |requested| && requested[j] in invited && requested[j] !in s.memberIds ==>
                     requested[i] in invited || !Free(users, s, requested[i])
  }

  lemma OneAdded(s: Session, init: seq<UserId>, u: UserId, before: Invitation)
    requires AddedInOrder(s, init, before) && u !in init && (forall v :: v in before.invitedIds ==> v in init)
    requires u in before.session.memberIds <==> u in s.memberIds
    ensures AddedInOrder(s, init + [u], Invitation(WithInvited(before.session, u), before.invitedIds + [u]))
  {
    InOrderSnoc(before.invitedIds, init, u);
    UnlistedSnoc(s, before.invitedIds, u);
  }

  lemma OneServed(users: map<UserId, Timed<CallId>>, s: Session, init: seq<UserId>, u: UserId, before: seq<UserId>,
                  after: seq<UserId>)
    requires FirstServed(users, s, init, before) && u !in init && (forall v :: v in before ==> v in init)
    requires after == before ||
             (after == before + [u] && (u in s.memberIds || forall v :: v in init && Free(users, s, v) ==> v in before))
    ensures FirstServed(users, s, init + [u], after)
  {
    var all := init + [u];
    forall i, j | 0 <= i < j < |all| && all[j] in after && all[j] !in s.memberIds
      ensures all[i] in after || !Free(users, s, all[i])
    {
      assert all[i] == init[i] && all[i] in init;
      assert j < |init| ==> all[j] in init;
    }
  }

  lemma {:induction false} ServedInTurn(users: map<UserId, Timed<CallId>>, s: Session, requested: seq<UserId>)
    requires RosterOk(s) && NoDup(requested)
    ensures AddedInOrder(s, requested, InviteEach(users, s, requested))
    ensures FirstServed(users, s, requested, InviteEach(users, s, requested).invitedIds)
  {
    if requested != [] {
      var init, u := requested[..|requested| - 1], requested[|requested| - 1];
      assert requested == init + [u];
      ServedInTurn(users, s, init);
      InviteInTurn(users, s, init);
      var before, after := InviteEach(users, s, init), InviteEach(users, s, requested);
      OneServed(users, s, init, u, before.invitedIds, after.invitedIds);
      if Invitable(users, before.session, u) {
        OneAdded(s, init, u, before);
      } else {
        InOrderSnoc(before.invitedIds, init, u);
      }
    }
  }

  lemma RequestedInOrder(userIds: seq<UserId>, allowed: seq<UserId>, actor: UserId)
    ensures InOrder(Requested(userIds, allowed, actor), userIds)
  {
    var wanted := (u: UserId) => u in allowed && u != actor;
    DistinctInOrder(userIds);
    FilterInOrder(Distinct(userIds), wanted);
    InOrderTransitive(Requested(userIds, allowed, actor), Distinct(userIds), userIds);
  }

  /** Whoever is left out was asked for only after everybody who got a new place. */
  lemma LeftOutLast(users: map<UserId, Timed<CallId>>, s: Session, requested: seq<UserId>, userIds: seq<UserId>,
                    invited: seq<UserId>, x: UserId, i: nat)
    requires FirstServed(users, s, requested, invited) && InOrder(requested, userIds)
    requires x in requested && x in invited && x !in s.memberIds
    requires i < |userIds| && userIds[i] in requested && userIds[i] !in invited && Free(users, s, userIds[i])
    ensures x in userIds[..i]
  {
    var a :| 0 <= a < |requested| && requested[a] == x;
    var b :| 0 <= b < |requested| && requested[b] == userIds[i];
    assert a < b;
  }

  /** Invitations go out in the order of the request, and the last places to the first who were asked for. */
  lemma InviteOrder(st: Store, c: CallId, actor: UserId, userIds: seq<UserId>, allowed: seq<UserId>, now: nat)
    requires Inv(st) && c in st.sessions && InviteMore(st, c, actor, userIds, allowed, now).1.Ok?
    ensures var s := st.sessions[c].value;
            var Invitation(t, invited) := InviteMore(st, c, actor, userIds, allowed, now).1.value;
            && InOrder(invited, userIds)
            && t.memberIds == s.memberIds + Unlisted(s, invited)
            && forall x, i: nat ::
                 x in invited && x !in s.memberIds &&
                 i < |userIds| && CanBeInvited(st, s, actor, userIds, allowed, userIds[i]) && userIds[i] !in invited ==>
                   x in userIds[..i]
  {
    var s, requested := st.sessions[c].value, Requested(userIds, allowed, actor);
    StoredUnderItsId(st, c);
    StoredRoster(st, c);
    RequestedInOrder(userIds, allowed, actor);
    InvitationSaved(st, c, actor, userIds, allowed, now);
    InvitationRoster(st, s, actor, userIds, allowed);
    ServedInTurn(st.users, s, requested);
    var invited := InviteEach(st.users, s, requested).invitedIds;
    InOrderTransitive(invited, requested, userIds);
    forall x, i: nat |
      x in invited && x !in s.memberIds &&
      i < |userIds| && CanBeInvited(st, s, actor, userIds, allowed, userIds[i]) && userIds[i] !in invited
      ensures x in userIds[..i]
    {
      LeftOutLast(st.users, s, requested, userIds, invited, x, i);
    }
  }

  // ---------------------------------------------------------------- hold, mute, screen share, timeout

  /** Anybody joined may hold; the holder, the host, and while nobody holds anybody joined, may resume. */
  lemma HoldOutcome(st: Store, c: CallId, actor: UserId, flag: bool, now: nat)
    requires Inv(st) && c in st.sessions
    ensures var s := st.sessions[c].value;
            var (next, r) := SetHold(st, c, actor, flag, now);
            && (r == Err(NotInCall) <==> actor !in s.joinedIds)
            && (r == Err(OnlyHolderResumes) <==> actor in s.joinedIds && !flag && s.heldBy.Some? &&
                                                 s.heldBy.value != actor && s.hostId != actor)
            && (r.Err? ==> (r.error == NotInCall || r.error == OnlyHolderResumes) && Unmoved(st, next))
            && (r.Ok? ==>
                  var t := r.value;
                  && t == s.(onHold := t.onHold, heldBy := t.heldBy)
                  && (t.onHold <==> flag) && t.heldBy == (if flag then Some(actor) else None)
                  && SavedAs(st, next, c, t, now + ACTIVE_MS))
  {
    StoredUnderItsId(st, c);
    var t := SetHold(st, c, actor, flag, now).1;
    if t.Ok? {
      PersistedSettles(st, Repaired(st, c, now), t.value, ACTIVE_TTL_SECONDS, now);
    }
  }

  /** Only the host, while joined, mutes and unmutes everybody. */
  lemma MuteOutcome(st: Store, c: CallId, actor: UserId, flag: bool, now: nat)
    requires Inv(st) && c in st.sessions
    ensures var s := st.sessions[c].value;
            var (next, r) := SetForceMute(st, c, actor, flag, now);
            && (r == Err(OnlyHost) <==> s.hostId != actor)
            && (r == Err(NotInCall) <==> s.hostId == actor && actor !in s.joinedIds)
            && (r.Err? ==> (r.error == OnlyHost || r.error == NotInCall) && Unmoved(st, next))
            && (r.Ok? ==>
                  var t := r.value;
                  && t == s.(forceMuted := t.forceMuted) && (t.forceMuted <==> flag)
                  && SavedAs(st, next, c, t, now + ACTIVE_MS))
  {
    StoredUnderItsId(st, c);
    var t := SetForceMute(st, c, actor, flag, now).1;
    if t.Ok? {
      PersistedSettles(st, Repaired(st, c, now), t.value, ACTIVE_TTL_SECONDS, now);
    }
  }

  /** Anybody joined may share; the sharer and the host may stop it. */
  lemma ShareOutcome(st: Store, c: CallId, actor: UserId, flag: bool, now: nat)
    requires Inv(st) && c in st.sessions
    ensures var s := st.sessions[c].value;
            var (next, r) := SetScreenShare(st, c, actor, flag, now);
            && (r == Err(NotInCall) <==> actor !in s.joinedIds)
            && (r == Err(NotSharing) <==> actor in s.joinedIds && !flag && s.screenSharerId != Some(actor) &&
                                          s.hostId != actor)
            && (r.Err? ==> (r.error == NotInCall || r.error == NotSharing) && Unmoved(st, next))
            && (r.Ok? ==>
                  var t := r.value;
                  && t == s.(screenSharerId := t.screenSharerId)
                  && t.screenSharerId == (if flag then Some(actor) else None)
                  && SavedAs(st, next, c, t, now + ACTIVE_MS))
  {
    StoredUnderItsId(st, c);
    var t := SetScreenShare(st, c, actor, flag, now).1;
    if t.Ok? {
      PersistedSettles(st, Repaired(st, c, now), t.value, ACTIVE_TTL_SECONDS, now);
    }
  }

  /** The soft timeout adds exactly the listed users who neither joined nor declined to those who left; it saves the
      call if that changed anything, and otherwise only frees them from it. */
  lemma TimeoutOutcome(st: Store, c: CallId, userIds: seq<UserId>, now: nat)
    requires Inv(st) && c in st.sessions
    ensures var s := st.sessions[c].value;
            var (next, r) := MarkUnanswered(st, c, userIds, now);
            && r.Some?
            && var t := r.value;
            && LateIn(s, t, userIds)
            && (t != s ==> SavedAs(st, next, c, t, now + Lifetime(s)))
            && (t == s ==> next.sessions == st.sessions && FreedFrom(st, next, c, t, userIds))
  {
    var s, read := st.sessions[c].value, Repaired(st, c, now);
    StoredUnderItsId(st, c);
    StoredRoster(st, c);
    LateRoster(s, userIds);
    var late := Unanswered(s, userIds);
    var t, released := s.(leftIds := Distinct(s.leftIds + late)), LocksReleased(read, c, late);
    forall v | v !in s.memberIds && v in st.users ensures st.users[v].value != c {
      assert LockOk(st, v);
    }
    if t.leftIds != s.leftIds {
      PersistedSettles(st, released, t, StatusTtl(t), now);
    }
  }

  ghost predicate LateIn(s: Session, t: Session, userIds: seq<UserId>) {
    && t == s.(leftIds := t.leftIds) && s.leftIds <= t.leftIds && NoDup(t.leftIds)
    && forall v :: v in t.leftIds <==> v in s.leftIds || (v in userIds && v !in s.joinedIds && v !in s.declinedIds)
  }

  /** Exactly the listed users who have not joined or declined lose a lock, and only one on this call. */
  ghost predicate FreedFrom(st: Store, next: Store, c: CallId, s: Session, userIds: seq<UserId>) {
    && (forall v :: v in next.users <==>
          v in st.users && !(v in userIds && v !in s.joinedIds && v !in s.declinedIds && st.users[v].value == c))
    && (forall v :: v in next.users ==> next.users[v] == st.users[v])
  }

  lemma LateRoster(s: Session, userIds: seq<UserId>)
    requires NoDup(s.leftIds)
    ensures LateIn(s, s.(leftIds := Distinct(s.leftIds + Unanswered(s, userIds))), userIds)
  {
    DistinctPrefix(s.leftIds, Unanswered(s, userIds));
  }
}
