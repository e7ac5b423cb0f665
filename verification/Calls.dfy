/** The call-session store as a value: three Redis maps, and what every service operation does to them.

    Ids stand for UUIDs, times are milliseconds. A Redis entry carries the moment it expires. */
module Calls {
  import opened Ids
  import opened Lists

  type CallId = nat

  datatype Kind = Private | Group
  datatype Media = Audio | Video
  datatype Status = Ringing | Active | Ended

  const RINGING_TTL_SECONDS: nat := 50
  const ACTIVE_TTL_SECONDS: nat := 3600
  const MAX_GROUP_CALL: nat := 8

  datatype Session = Session(
    callId: CallId,
    conversationId: ConvId,
    kind: Kind,
    media: Media,
    hostId: UserId,
    memberIds: seq<UserId>,
    joinedIds: seq<UserId>,
    declinedIds: seq<UserId>,
    leftIds: seq<UserId>,
    onHold: bool,
    heldBy: Option<UserId>,
    forceMuted: bool,
    screenSharerId: Option<UserId>,
    status: Status,
    createdAt: nat,
    connectedAt: Option<nat>)

  /** A Redis value together with the time at which it expires. */
  datatype Timed<+T> = Timed(value: T, until: int)

  datatype Store = Store(
    sessions: map<CallId, Timed<Session>>,
    users: map<UserId, Timed<CallId>>,
    convos: map<ConvId, Timed<CallId>>)

  datatype CallError =
    | AlreadyInCall | CallInProgress | NotEnoughParticipants | UserBusy | NoLongerAvailable
    | NotInvited | HostAlreadyIn | InAnotherCall | CannotDecline | CallNotFound | NotPartOfCall
    | OnlyGroupCalls | JoinFirst | NoValidMembers | CannotInviteNow | NotInCall | OnlyHolderResumes
    | OnlyHost | NotSharing

  datatype Declined = Declined(session: Session, ended: bool)
  datatype Departure = Departure(session: Session, ended: bool, remainingIds: seq<UserId>)
  datatype Invitation = Invitation(session: Session, invitedIds: seq<UserId>)

  // ---------------------------------------------------------------- rosters

  /** Invited, not joined, not declined and not left. */
  function RingingIds(s: Session): (r: seq<UserId>)
    ensures forall u :: u in r <==> u in s.memberIds && u !in s.joinedIds && u !in s.declinedIds && u !in s.leftIds
  {
    Filter(s.memberIds, (u: UserId) => u !in s.joinedIds && u !in s.declinedIds && u !in s.leftIds)
  }

  /** Whose busy lock `persist` sets: joined, ringing, or the host. */
  predicate IsBusy(s: Session, u: UserId) {
    u in s.joinedIds || u in RingingIds(s) || u == s.hostId
  }

  predicate CanRejoin(s: Session, u: UserId) {
    s.kind == Group && s.status != Ended && u in s.memberIds && u !in s.joinedIds && |s.joinedIds| > 0
  }

  function WithJoined(s: Session, u: UserId, now: nat): Session {
    var joined := Distinct(s.joinedIds + [u]);
    s.(joinedIds := joined,
       declinedIds := Without(s.declinedIds, u),
       leftIds := Without(s.leftIds, u),
       status := Active,
       connectedAt := if s.connectedAt.None? && |joined| >= 2 then Some(now) else s.connectedAt)
  }

  function WithDeclined(s: Session, u: UserId): Session {
    s.(declinedIds := Distinct(s.declinedIds + [u]))
  }

  function WithLeft(s: Session, u: UserId): Session {
    s.(joinedIds := Without(s.joinedIds, u), leftIds := Distinct(s.leftIds + [u]))
  }

  /** Everything `revokeUserFromConversation` clears about a user, before host succession. */
  function WithRevoked(s: Session, u: UserId): Session {
    s.(memberIds := Without(s.memberIds, u),
       joinedIds := Without(s.joinedIds, u),
       declinedIds := Without(s.declinedIds, u),
       leftIds := Distinct(s.leftIds + [u]),
       screenSharerId := if s.screenSharerId == Some(u) then None else s.screenSharerId,
       onHold := if s.heldBy == Some(u) then false else s.onHold,
       heldBy := if s.heldBy == Some(u) then None else s.heldBy)
  }

  function WithSuccessor(s: Session, u: UserId): Session
    requires s.joinedIds != []
  {
    if s.hostId == u then s.(hostId := s.joinedIds[0]) else s
  }

  // ---------------------------------------------------------------- Redis primitives

  /** The lifetime given to a repaired index entry: the TTL Redis reports for the session (rounded to
      seconds), or the active TTL when that rounds to nothing. */
  function IndexLifetime(until: int, now: nat): (ms: nat) {
    var ttl := (until - now + 500) / 1000;
    if ttl > 0 then ttl * 1000 else ACTIVE_TTL_SECONDS * 1000
  }

  function Indexed(st: Store, conv: ConvId, c: CallId, until: int): Store {
    st.(convos := st.convos[conv := Timed(c, until)])
  }

  /** The index repair `get` performs as a side effect of reading call `c`. */
  function Repaired(st: Store, c: CallId, now: nat): Store {
    if c !in st.sessions then st
    else
      var s := st.sessions[c].value;
      if s.status == Ended || (s.conversationId in st.convos && st.convos[s.conversationId].value == c) then st
      else Indexed(st, s.conversationId, c, now + IndexLifetime(st.sessions[c].until, now))
  }

  /** Saving a session: the session, its index entry, and the lock of every member, under one TTL. */
  ghost function Persisted(st: Store, s: Session, ttlSeconds: nat, now: nat): Store {
    var until := now + ttlSeconds * 1000;
    Store(
      st.sessions[s.callId := Timed(s, until)],
      map u | u in st.users.Keys + Elems(s.memberIds) && (u in s.memberIds ==> IsBusy(s, u)) ::
        if u in s.memberIds then Timed(s.callId, until) else st.users[u],
      st.convos[s.conversationId := Timed(s.callId, until)])
  }

  function StatusTtl(s: Session): nat {
    if s.status == Active then ACTIVE_TTL_SECONDS else RINGING_TTL_SECONDS
  }

  function BusyCleared(st: Store, u: UserId, c: Option<CallId>): Store {
    if u in st.users && (c.None? || st.users[u].value == c.value) then st.(users := st.users - {u}) else st
  }

  ghost function EndedStore(st: Store, c: CallId): Store {
    if c !in st.sessions then st
    else
      var s := st.sessions[c].value;
      Store(st.sessions - {c}, st.users - Elems(s.memberIds), st.convos - {s.conversationId})
  }

  ghost function EndResult(st: Store, c: CallId): Option<Session> {
    if c !in st.sessions then None else Some(st.sessions[c].value.(status := Ended))
  }

  // ---------------------------------------------------------------- lookup by conversation

  ghost predicate LiveFor(st: Store, conv: ConvId, c: CallId) {
    c in st.sessions && st.sessions[c].value.conversationId == conv
  }

  /** A plain search of the stored sessions, without any index. */
  ghost function LiveCall(st: Store, conv: ConvId): (r: Option<CallId>)
    ensures r.Some? ==> LiveFor(st, conv, r.value)
    ensures r.None? ==> forall c :: !LiveFor(st, conv, c)
  {
    if exists c :: LiveFor(st, conv, c) then
      var c :| LiveFor(st, conv, c);
      Some(c)
    else None
  }

  /** The store after `getByConversation`: the entry of `conv` agrees with the plain search; reading a stale
      entry may in addition repair the entry of the conversation that call really belongs to. */
  ghost function Reindexed(st: Store, conv: ConvId, now: nat): Store {
    var seen := if conv in st.convos then Repaired(st, st.convos[conv].value, now) else st;
    match LiveCall(st, conv)
    case None => seen.(convos := seen.convos - {conv})
    case Some(c) =>
      if conv in st.convos && st.convos[conv].value == c then st
      else Indexed(seen, conv, c, now + IndexLifetime(st.sessions[c].until, now))
  }

  ghost function Found(st: Store, conv: ConvId): Option<Session> {
    match LiveCall(st, conv)
    case None => None
    case Some(c) => Some(st.sessions[c].value)
  }

  // ---------------------------------------------------------------- service operations

  function FreshSession(conv: ConvId, kind: Kind, host: UserId, members: seq<UserId>, media: Media,
                        id: CallId, now: nat): Session {
    Session(id, conv, kind, media, host, members, [host], [], [], false, None, false, None, Ringing, now, None)
  }

  /** Members of a new call: the invited users without repetition, and the host. */
  function CallMembers(memberIds: seq<UserId>, host: UserId): (r: seq<UserId>)
    ensures NoDup(r)
    ensures forall u :: u in r <==> u in memberIds || u == host
  {
    var ids := Distinct(memberIds);
    if host in ids then ids else ids + [host]
  }

  predicate HostEngaged(st: Store, host: UserId) {
    host in st.users && st.users[host].value in st.sessions &&
    var s := st.sessions[st.users[host].value].value;
    s.status != Ended && (host in s.joinedIds || host == s.hostId)
  }

  /** The store after the host's own busy lock was looked at and, if it binds nobody, dropped. */
  function HostReleased(st: Store, host: UserId, now: nat): Store {
    if host !in st.users then st
    else
      var read := Repaired(st, st.users[host].value, now);
      if HostEngaged(st, host) then read else BusyCleared(read, host, Some(st.users[host].value))
  }

  predicate Replaceable(s: Session, host: UserId) {
    s.hostId == host || |s.joinedIds| <= 1
  }

  /** The store after the call a lookup found for the conversation, if any, was ended. */
  ghost function Cleared(st: Store, conv: ConvId, now: nat): Store {
    var indexed := Reindexed(st, conv, now);
    match Found(st, conv)
    case None => indexed
    case Some(s) => EndedStore(indexed, s.callId)
  }

  /** Starting a call in a conversation that has none. */
  ghost function Start(st: Store, conv: ConvId, kind: Kind, host: UserId, memberIds: seq<UserId>, media: Media,
                       id: CallId, now: nat): (Store, Result<Session, CallError>) {
    var members := CallMembers(memberIds, host);
    if |members| < 2 then (st, Err(NotEnoughParticipants))
    else if kind == Private && PeerBusy(st, members, host) then (st, Err(UserBusy))
    else
      var s := FreshSession(conv, kind, host, members, media, id, now);
      (Persisted(st, s, RINGING_TTL_SECONDS, now), Ok(s))
  }

  ghost function Create(st: Store, conv: ConvId, kind: Kind, host: UserId, memberIds: seq<UserId>, media: Media,
                        id: CallId, now: nat): (Store, Result<Session, CallError>) {
    var released := HostReleased(st, host, now);
    var found := Found(released, conv);
    if HostEngaged(st, host) then (released, Err(AlreadyInCall))
    else if found.Some? && !Replaceable(found.value, host) then (Reindexed(released, conv, now), Err(CallInProgress))
    else Start(Cleared(released, conv, now), conv, kind, host, memberIds, media, id, now)
  }

  /** The other party of a private call: the first member who is not the host. */
  function Peer(members: seq<UserId>, host: UserId): Option<UserId> {
    var others := Filter(members, (u: UserId) => u != host);
    if others == [] then None else Some(others[0])
  }

  predicate PeerBusy(st: Store, members: seq<UserId>, host: UserId) {
    Peer(members, host).Some? && Peer(members, host).value in st.users
  }

  ghost function Accept(st: Store, c: CallId, u: UserId, now: nat): (Store, Result<Session, CallError>) {
    var read := Repaired(st, c, now);
    if c !in st.sessions || st.sessions[c].value.status == Ended then (read, Err(NoLongerAvailable))
    else
      var s := st.sessions[c].value;
      if u !in s.memberIds then (read, Err(NotInvited))
      else if u in s.joinedIds then (read, Ok(s))
      else if s.kind == Private && u == s.hostId then (read, Err(HostAlreadyIn))
      else if u in st.users && st.users[u].value != c then (read, Err(InAnotherCall))
      else
        var t := WithJoined(s, u, now);
        (Persisted(read, t, ACTIVE_TTL_SECONDS, now), Ok(t))
  }

  ghost function Decline(st: Store, c: CallId, u: UserId, now: nat): (Store, Result<Declined, CallError>) {
    var read := Repaired(st, c, now);
    if c !in st.sessions || st.sessions[c].value.status == Ended then (read, Err(NoLongerAvailable))
    else
      var s := st.sessions[c].value;
      if u !in s.memberIds || u in s.joinedIds then (read, Err(CannotDecline))
      else
        var t := WithDeclined(s, u);
        if s.kind == Private then (EndedStore(read, c), Ok(Declined(t.(status := Ended), true)))
        else (Persisted(read, t, StatusTtl(t), now), Ok(Declined(t, false)))
  }

  ghost function Leave(st: Store, c: CallId, u: UserId, now: nat): (Store, Result<Departure, CallError>) {
    var read := Repaired(st, c, now);
    if c !in st.sessions then (read, Err(CallNotFound))
    else
      var s := st.sessions[c].value;
      if u !in s.memberIds then (read, Err(NotPartOfCall))
      else
        var t := WithLeft(s, u);
        var unlocked := BusyCleared(read, u, None);
        if t.joinedIds == [] || s.kind == Private then
          (EndedStore(unlocked, c), Ok(Departure(t.(status := Ended), true, [])))
        else (Persisted(unlocked, t, ACTIVE_TTL_SECONDS, now), Ok(Departure(t, false, t.joinedIds)))
  }

  ghost function Revoke(st: Store, conv: ConvId, u: UserId, now: nat): (Store, Option<Departure>) {
    var indexed := Reindexed(st, conv, now);
    match Found(st, conv)
    case None => (indexed, None)
    case Some(s) =>
      if s.status == Ended || (u !in s.memberIds && u !in s.joinedIds) then (indexed, None)
      else
        var t := WithRevoked(s, u);
        var unlocked := BusyCleared(indexed, u, None);
        if t.joinedIds == [] || t.memberIds == [] || t.kind == Private then
          (EndedStore(unlocked, s.callId), Some(Departure(t.(status := Ended), true, [])))
        else
          var h := WithSuccessor(t, u);
          (Persisted(unlocked, h, ACTIVE_TTL_SECONDS, now), Some(Departure(h, false, h.joinedIds)))
  }

  // ---------------------------------------------------------------- mid-call invitations

  /** Whom an actor may ask for: allowed by the conversation, not the actor, each once. */
  function Requested(userIds: seq<UserId>, allowed: seq<UserId>, actor: UserId): (r: seq<UserId>)
    ensures NoDup(r)
    ensures forall u :: u in r <==> u in userIds && u in allowed && u != actor
  {
    Filter(Distinct(userIds), (u: UserId) => u in allowed && u != actor)
  }

  predicate Invitable(users: map<UserId, Timed<CallId>>, s: Session, u: UserId) {
    u !in s.joinedIds &&
    (u in users ==> users[u].value == s.callId) &&
    (u in s.memberIds || |s.memberIds| < MAX_GROUP_CALL)
  }

  function WithInvited(s: Session, u: UserId): Session {
    s.(memberIds := if u in s.memberIds then s.memberIds else s.memberIds + [u],
       declinedIds := Without(s.declinedIds, u),
       leftIds := Without(s.leftIds, u))
  }

  /** The roster after the requested users were considered one after another. */
  function InviteEach(users: map<UserId, Timed<CallId>>, s: Session, requested: seq<UserId>): (r: Invitation) {
    if requested == [] then Invitation(s, [])
    else
      var before := InviteEach(users, s, requested[..|requested| - 1]);
      var u := requested[|requested| - 1];
      if Invitable(users, before.session, u) then
        Invitation(WithInvited(before.session, u), before.invitedIds + [u])
      else before
  }

  ghost function InviteMore(st: Store, c: CallId, actor: UserId, userIds: seq<UserId>, allowed: seq<UserId>, now: nat)
    : (Store, Result<Invitation, CallError>) {
    var read := Repaired(st, c, now);
    if c !in st.sessions || st.sessions[c].value.status == Ended then (read, Err(NoLongerAvailable))
    else
      var s := st.sessions[c].value;
      if s.kind != Group then (read, Err(OnlyGroupCalls))
      else if actor !in s.joinedIds then (read, Err(JoinFirst))
      else if Requested(userIds, allowed, actor) == [] then (read, Err(NoValidMembers))
      else
        var inv := InviteEach(st.users, s, Requested(userIds, allowed, actor));
        if inv.invitedIds == [] then (read, Err(CannotInviteNow))
        else (Persisted(read, inv.session, StatusTtl(inv.session), now), Ok(inv))
  }

  // ---------------------------------------------------------------- hold, mute, screen share, timeouts

  ghost function SetHold(st: Store, c: CallId, actor: UserId, onHold: bool, now: nat)
    : (Store, Result<Session, CallError>) {
    var read := Repaired(st, c, now);
    if c !in st.sessions || st.sessions[c].value.status == Ended then (read, Err(NoLongerAvailable))
    else
      var s := st.sessions[c].value;
      if actor !in s.joinedIds then (read, Err(NotInCall))
      else if !onHold && s.heldBy.Some? && s.heldBy.value != actor && s.hostId != actor then
        (read, Err(OnlyHolderResumes))
      else
        var t := s.(onHold := onHold, heldBy := if onHold then Some(actor) else None);
        (Persisted(read, t, ACTIVE_TTL_SECONDS, now), Ok(t))
  }

  ghost function SetForceMute(st: Store, c: CallId, actor: UserId, muted: bool, now: nat)
    : (Store, Result<Session, CallError>) {
    var read := Repaired(st, c, now);
    if c !in st.sessions || st.sessions[c].value.status == Ended then (read, Err(NoLongerAvailable))
    else
      var s := st.sessions[c].value;
      if s.hostId != actor then (read, Err(OnlyHost))
      else if actor !in s.joinedIds then (read, Err(NotInCall))
      else
        var t := s.(forceMuted := muted);
        (Persisted(read, t, ACTIVE_TTL_SECONDS, now), Ok(t))
  }

  ghost function SetScreenShare(st: Store, c: CallId, actor: UserId, active: bool, now: nat)
    : (Store, Result<Session, CallError>) {
    var read := Repaired(st, c, now);
    if c !in st.sessions || st.sessions[c].value.status == Ended then (read, Err(NoLongerAvailable))
    else
      var s := st.sessions[c].value;
      if actor !in s.joinedIds then (read, Err(NotInCall))
      else if !active && s.screenSharerId != Some(actor) && s.hostId != actor then (read, Err(NotSharing))
      else
        var t := s.(screenSharerId := if active then Some(actor) else None);
        (Persisted(read, t, ACTIVE_TTL_SECONDS, now), Ok(t))
  }

  /** Invitees who neither joined nor declined. */
  function Unanswered(s: Session, userIds: seq<UserId>): (r: seq<UserId>)
    ensures forall u :: u in r <==> u in userIds && u !in s.joinedIds && u !in s.declinedIds
  {
    Filter(userIds, (u: UserId) => u !in s.joinedIds && u !in s.declinedIds)
  }

  ghost function LocksReleased(st: Store, c: CallId, ids: seq<UserId>): Store {
    st.(users := map u | u in st.users && !(u in ids && st.users[u].value == c) :: st.users[u])
  }

  ghost function MarkUnanswered(st: Store, c: CallId, userIds: seq<UserId>, now: nat): (Store, Option<Session>) {
    var read := Repaired(st, c, now);
    if c !in st.sessions || st.sessions[c].value.status == Ended then (read, None)
    else
      var s := st.sessions[c].value;
      var late := Unanswered(s, userIds);
      var t := s.(leftIds := Distinct(s.leftIds + late));
      var released := LocksReleased(read, c, late);
      if t.leftIds == s.leftIds then (released, Some(s))
      else (Persisted(released, t, StatusTtl(t), now), Some(t))
  }
}
