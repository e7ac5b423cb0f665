/** The conversation table: private chats found by pair key, groups with roles, and whole runs over both. */
module Conversations {
  import opened Ids
  import opened Lists
  import opened GroupRows
  import PairKey

  datatype ChatKind = PrivateChat | GroupChat

  datatype Conversation = Conversation(kind: ChatKind, createdBy: UserId, pairKey: Option<string>, rows: seq<Row>,
                                       deleted: bool)

  type Table = map<ConvId, Conversation>

  datatype ConvError =
    | NotFound | NotMember | NotGroup | NotAdmin | NoIds | TooMany | UseLeave | NoSuchMember | OwnerProtected
    | OwnerOnly | BadRole | OwnRole | CannotLeavePrivate | NotCreator | NameRequired | SelfChat | BlockedByPeer

  /** What an active member may ask of a conversation. */
  datatype Request =
    | AddMembers(ids: seq<UserId>)
    | RemoveMember(target: UserId)
    | SetMemberRole(member: UserId, role: Role)
    | LeaveGroup
    | DeleteGroup

  function RoleOf(rows: seq<Row>, u: UserId): Role
    requires IsActiveMember(rows, u)
  {
    rows[ActiveIndex(rows, u)].role
  }

  /** Ids to add: each once, without the actor. */
  function OtherIds(ids: seq<UserId>, actor: UserId): (r: seq<UserId>)
    ensures NoDup(r) && forall u :: u in r <==> u in ids && u != actor
  {
    Distinct(Without(ids, actor))
  }

  /** The outcome of a request by an active member. */
  function Answer(c: Conversation, actor: UserId, q: Request, now: nat): Result<Conversation, ConvError>
    requires IsActiveMember(c.rows, actor)
  {
    match q
    case AddMembers(ids) =>
      if c.kind != GroupChat then Err(NotGroup)
      else if RoleOf(c.rows, actor) == Member then Err(NotAdmin)
      else if OtherIds(ids, actor) == [] then Err(NoIds)
      else if ActiveCount(c.rows) + |OtherIds(ids, actor)| > MAX_GROUP_MEMBERS then Err(TooMany)
      else Ok(c.(rows := WithAdded(c.rows, OtherIds(ids, actor), now)))
    case RemoveMember(target) =>
      if c.kind != GroupChat then Err(NotGroup)
      else if RoleOf(c.rows, actor) == Member then Err(NotAdmin)
      else if target == actor then Err(UseLeave)
      else if !IsActiveMember(c.rows, target) then Err(NoSuchMember)
      else if RoleOf(c.rows, target) == Owner then Err(OwnerProtected)
      else Ok(c.(rows := WithLeft(c.rows, ActiveIndex(c.rows, target), now)))
    case SetMemberRole(member, role) =>
      if c.kind != GroupChat then Err(NotGroup)
      else if RoleOf(c.rows, actor) != Owner then Err(OwnerOnly)
      else if role == Owner then Err(BadRole)
      else if !IsActiveMember(c.rows, member) then Err(NoSuchMember)
      else if RoleOf(c.rows, member) == Owner then Err(OwnerProtected)
      else if member == actor then Err(OwnRole)
      else Ok(c.(rows := WithRole(c.rows, ActiveIndex(c.rows, member), role)))
    case LeaveGroup =>
      if c.kind == PrivateChat then Err(CannotLeavePrivate)
      else Ok(c.(rows := WithLeaver(c.rows, ActiveIndex(c.rows, actor), now)))
    case DeleteGroup =>
      if c.kind != GroupChat then Err(NotGroup)
      else if c.createdBy != actor then Err(NotCreator)
      else Ok(c.(rows := AllLeft(c.rows, now), deleted := true))
  }

  /** `requireMembership` and then the request. */
  function Perform(t: Table, id: ConvId, actor: UserId, q: Request, now: nat)
    : (Table, Result<Conversation, ConvError>)
  {
    if id !in t || t[id].deleted then (t, Err(NotFound))
    else if !IsActiveMember(t[id].rows, actor) then (t, Err(NotMember))
    else
      var r := Answer(t[id], actor, q, now);
      (if r.Ok? then t[id := r.value] else t, r)
  }

  function CreateGroup(t: Table, id: ConvId, actor: UserId, named: bool, ids: seq<UserId>, now: nat)
    : (Table, Result<Conversation, ConvError>)
  {
    var others := OtherIds(ids, actor);
    if !named then (t, Err(NameRequired))
    else if |others| < 1 then (t, Err(NoIds))
    else if |others| + 1 > MAX_GROUP_MEMBERS then (t, Err(TooMany))
    else
      var c := Conversation(GroupChat, actor, None, FoundingRows(actor, others, now), false);
      (t[id := c], Ok(c))
  }

  /** A live private conversation stored under a key. */
  ghost predicate KeyedPrivate(t: Table, key: string, id: ConvId) {
    id in t && t[id].kind == PrivateChat && t[id].pairKey == Some(key) && !t[id].deleted
  }

  function PrivateRows(actor: UserId, other: UserId, now: nat): seq<Row> {
    [NewRow(actor, Member, now), NewRow(other, Member, now)]
  }

  /** `blocked` tells whether the other user has blocked the actor. */
  ghost function CreatePrivate(t: Table, id: ConvId, actor: UserId, other: UserId, blocked: bool, now: nat)
    : (Table, Result<ConvId, ConvError>)
  {
    var key := PairKey.Key(actor.text, other.text);
    if actor == other then (t, Err(SelfChat))
    else if exists k :: KeyedPrivate(t, key, k) then
      var k :| KeyedPrivate(t, key, k);
      (t, Ok(k))
    else if blocked then (t, Err(BlockedByPeer))
    else (t[id := Conversation(PrivateChat, actor, Some(key), PrivateRows(actor, other, now), false)], Ok(id))
  }

  // ---------------------------------------------------------------- the invariant

  /** A private conversation is exactly its two founders, for ever. */
  ghost predicate PrivateOk(c: Conversation) {
    && !c.deleted
    && |c.rows| == 2
    && c.rows[0].leftAt.None? && c.rows[1].leftAt.None?
    && c.rows[0].role == Member && c.rows[1].role == Member
    && c.rows[0].userId == c.createdBy && c.rows[1].userId != c.createdBy
    && c.pairKey == Some(PairKey.Key(c.rows[0].userId.text, c.rows[1].userId.text))
  }

  ghost predicate ConversationOk(c: Conversation) {
    match c.kind
    case PrivateChat => PrivateOk(c)
    case GroupChat => GroupOk(c.rows) && c.pairKey == None
  }

  ghost predicate TableOk(t: Table) {
    && (forall id :: id in t ==> ConversationOk(t[id]))
    && (forall i, j, key :: KeyedPrivate(t, key, i) && KeyedPrivate(t, key, j) ==> i == j)
  }

  /** Conversations are never dropped, and private ones never change. */
  ghost predicate Preserves(t: Table, next: Table) {
    forall id :: id in t ==>
      id in next && next[id].kind == t[id].kind && (t[id].kind == PrivateChat ==> next[id] == t[id])
  }

  lemma AnswerKeepsOk(c: Conversation, actor: UserId, q: Request, now: nat)
    requires ConversationOk(c) && IsActiveMember(c.rows, actor) && Answer(c, actor, q, now).Ok?
    ensures var next := Answer(c, actor, q, now).value;
            c.kind == GroupChat && next.kind == GroupChat && ConversationOk(next)
  {
    match q
    case AddMembers(ids) =>
      assert ActiveAt(c.rows, ActiveIndex(c.rows, actor));
      AddedKeepsGroupOk(c.rows, OtherIds(ids, actor), now);
    case RemoveMember(target) => RemovedKeepsGroupOk(c.rows, ActiveIndex(c.rows, target), now);
    case SetMemberRole(member, role) => RoleKeepsGroupOk(c.rows, ActiveIndex(c.rows, member), role);
    case LeaveGroup => LeaverKeepsGroupOk(c.rows, ActiveIndex(c.rows, actor), now);
    case DeleteGroup => AllLeftGroupOk(c.rows, now);
  }

  lemma PerformKeepsTableOk(t: Table, id: ConvId, actor: UserId, q: Request, now: nat)
    requires TableOk(t)
    ensures TableOk(Perform(t, id, actor, q, now).0) && Preserves(t, Perform(t, id, actor, q, now).0)
  {
    var (next, r) := Perform(t, id, actor, q, now);
    if r.Ok? {
      AnswerKeepsOk(t[id], actor, q, now);
      assert forall key, k :: KeyedPrivate(next, key, k) ==> KeyedPrivate(t, key, k);
    }
  }

  lemma CreateGroupKeepsTableOk(t: Table, id: ConvId, actor: UserId, named: bool, ids: seq<UserId>, now: nat)
    requires TableOk(t) && id !in t
    ensures TableOk(CreateGroup(t, id, actor, named, ids, now).0)
    ensures Preserves(t, CreateGroup(t, id, actor, named, ids, now).0)
  {
    var (next, r) := CreateGroup(t, id, actor, named, ids, now);
    if r.Ok? {
      FoundingGroupOk(actor, OtherIds(ids, actor), now);
      assert forall key, k :: KeyedPrivate(next, key, k) ==> KeyedPrivate(t, key, k);
    }
  }

  lemma CreatePrivateKeepsTableOk(t: Table, id: ConvId, actor: UserId, other: UserId, blocked: bool, now: nat)
    requires TableOk(t) && id !in t
    ensures TableOk(CreatePrivate(t, id, actor, other, blocked, now).0)
    ensures Preserves(t, CreatePrivate(t, id, actor, other, blocked, now).0)
  {
    var next := CreatePrivate(t, id, actor, other, blocked, now).0;
    assert forall key, k :: KeyedPrivate(next, key, k) && k != id ==> KeyedPrivate(t, key, k);
  }

  // ---------------------------------------------------------------- who may change what

  /** Nobody loses a seat except by leaving, by being removed by an owner or admin (never the owner), or by the
      creator deleting the group; nobody gains one except through an owner or admin. */
  lemma SeatsChangeOnlyByRight(c: Conversation, actor: UserId, q: Request, now: nat, u: UserId)
    requires ConversationOk(c) && IsActiveMember(c.rows, actor) && Answer(c, actor, q, now).Ok?
    ensures var next := Answer(c, actor, q, now).value;
            && (IsActiveMember(c.rows, u) && !IsActiveMember(next.rows, u) <==>
                  IsActiveMember(c.rows, u) &&
                  match q
                  case LeaveGroup => u == actor
                  case RemoveMember(target) => u == target
                  case DeleteGroup => true
                  case _ => false)
            && (IsActiveMember(next.rows, u) && !IsActiveMember(c.rows, u) <==>
                  q.AddMembers? && u in q.ids && !IsActiveMember(c.rows, u))
            && (q.RemoveMember? ==>
                  RoleOf(c.rows, actor) != Member && RoleOf(c.rows, q.target) != Owner && q.target != actor)
            && (q.AddMembers? ==> RoleOf(c.rows, actor) != Member)
            && (q.DeleteGroup? ==> c.createdBy == actor)
  {
    AnswerKeepsOk(c, actor, q, now);
    match q
    case AddMembers(ids) => AddedMembers(c.rows, OtherIds(ids, actor), now);
    case RemoveMember(target) => LeftMembers(c.rows, ActiveIndex(c.rows, target), now);
    case SetMemberRole(member, role) =>
      SameUsersSameMembers(c.rows, WithRole(c.rows, ActiveIndex(c.rows, member), role));
    case LeaveGroup => LeaverMembers(c.rows, ActiveIndex(c.rows, actor), now);
    case DeleteGroup => AllLeftGroupOk(c.rows, now);
  }

  /** The role of a member who stays, in the rows after a request. */
  ghost predicate RoleKept(rows: seq<Row>, next: seq<Row>, u: UserId)
    requires IsActiveMember(rows, u) && IsActiveMember(next, u)
  {
    RoleOf(next, u) == RoleOf(rows, u)
  }

  lemma AddingKeepsRoles(rows: seq<Row>, ids: seq<UserId>, now: nat, u: UserId)
    requires NoDup(ids) && IsActiveMember(rows, u) && GroupOk(WithAdded(rows, ids, now))
    ensures IsActiveMember(WithAdded(rows, ids, now), u) && RoleKept(rows, WithAdded(rows, ids, now), u)
  {
    AddedRows(rows, ids, now);
    assert ActiveAt(WithAdded(rows, ids, now), ActiveIndex(rows, u));
    IndexIsUnique(WithAdded(rows, ids, now), ActiveIndex(rows, u));
  }

  lemma RemovingKeepsRoles(rows: seq<Row>, k: nat, now: nat, u: UserId)
    requires k < |rows| && IsActiveMember(rows, u) && GroupOk(WithLeft(rows, k, now))
    requires ActiveIndex(rows, u) != k
    ensures IsActiveMember(WithLeft(rows, k, now), u) && RoleKept(rows, WithLeft(rows, k, now), u)
  {
    assert ActiveAt(WithLeft(rows, k, now), ActiveIndex(rows, u));
    IndexIsUnique(WithLeft(rows, k, now), ActiveIndex(rows, u));
  }

  lemma SettingOneRole(rows: seq<Row>, k: nat, role: Role, u: UserId)
    requires k < |rows| && IsActiveMember(rows, u) && GroupOk(WithRole(rows, k, role))
    ensures IsActiveMember(WithRole(rows, k, role), u)
    ensures ActiveIndex(rows, u) != k ==> RoleKept(rows, WithRole(rows, k, role), u)
    ensures ActiveIndex(rows, u) == k ==> RoleOf(WithRole(rows, k, role), u) == role
  {
    assert ActiveAt(WithRole(rows, k, role), ActiveIndex(rows, u));
    IndexIsUnique(WithRole(rows, k, role), ActiveIndex(rows, u));
  }

  lemma LeavingKeepsRoles(rows: seq<Row>, k: nat, now: nat, u: UserId)
    requires k < |rows| && IsActiveMember(rows, u) && GroupOk(WithLeaver(rows, k, now))
    requires ActiveIndex(rows, u) != k
    ensures IsActiveMember(WithLeaver(rows, k, now), u)
    ensures RoleKept(rows, WithLeaver(rows, k, now), u) ||
            (rows[k].role == Owner && RoleOf(WithLeaver(rows, k, now), u) == Owner)
  {
    assert ActiveAt(WithLeaver(rows, k, now), ActiveIndex(rows, u));
    IndexIsUnique(WithLeaver(rows, k, now), ActiveIndex(rows, u));
  }

  /** Roles of members who stay change only by the owner's decision, never into or out of ownership, or by
      succession when the owner leaves. */
  lemma RolesChangeOnlyByRight(c: Conversation, actor: UserId, q: Request, now: nat, u: UserId)
    requires ConversationOk(c) && IsActiveMember(c.rows, actor) && Answer(c, actor, q, now).Ok?
    requires IsActiveMember(c.rows, u) && IsActiveMember(Answer(c, actor, q, now).value.rows, u)
    requires RoleOf(Answer(c, actor, q, now).value.rows, u) != RoleOf(c.rows, u)
    ensures RoleOf(c.rows, actor) == Owner && u != actor
    ensures var was, became := RoleOf(c.rows, u), RoleOf(Answer(c, actor, q, now).value.rows, u);
            || (q == SetMemberRole(u, became) && was != Owner && became != Owner)
            || (q == LeaveGroup && became == Owner)
  {
    AnswerKeepsOk(c, actor, q, now);
    SeatsChangeOnlyByRight(c, actor, q, now, u);
    var rows := c.rows;
    match q
    case AddMembers(ids) => AddingKeepsRoles(rows, OtherIds(ids, actor), now, u);
    case RemoveMember(target) => RemovingKeepsRoles(rows, ActiveIndex(rows, target), now, u);
    case SetMemberRole(member, role) => SettingOneRole(rows, ActiveIndex(rows, member), role, u);
    case LeaveGroup => LeavingKeepsRoles(rows, ActiveIndex(rows, actor), now, u);
    case DeleteGroup =>
  }

  // ---------------------------------------------------------------- runs

  datatype Action =
    | DoCreateGroup(id: ConvId, actor: UserId, named: bool, ids: seq<UserId>, now: nat)
    | DoCreatePrivate(id: ConvId, actor: UserId, other: UserId, blocked: bool, now: nat)
    | DoRequest(id: ConvId, actor: UserId, q: Request, now: nat)

  /** Generated conversation ids never repeat. */
  ghost function Act(t: Table, a: Action): Table {
    match a
    case DoCreateGroup(id, actor, named, ids, now) =>
      if id in t then t else CreateGroup(t, id, actor, named, ids, now).0
    case DoCreatePrivate(id, actor, other, blocked, now) =>
      if id in t then t else CreatePrivate(t, id, actor, other, blocked, now).0
    case DoRequest(id, actor, q, now) => Perform(t, id, actor, q, now).0
  }

  ghost function ActAll(t: Table, acts: seq<Action>): Table {
    if acts == [] then t else Act(ActAll(t, acts[..|acts| - 1]), acts[|acts| - 1])
  }

  lemma ActKeepsTableOk(t: Table, a: Action)
    requires TableOk(t)
    ensures TableOk(Act(t, a)) && Preserves(t, Act(t, a))
  {
    match a
    case DoCreateGroup(id, actor, named, ids, now) =>
      if id !in t { CreateGroupKeepsTableOk(t, id, actor, named, ids, now); }
    case DoCreatePrivate(id, actor, other, blocked, now) =>
      if id !in t { CreatePrivateKeepsTableOk(t, id, actor, other, blocked, now); }
    case DoRequest(id, actor, q, now) => PerformKeepsTableOk(t, id, actor, q, now);
  }

  lemma {:induction false} EveryTableIsOk(t: Table, acts: seq<Action>)
    requires TableOk(t)
    ensures TableOk(ActAll(t, acts)) && Preserves(t, ActAll(t, acts))
  {
    if acts != [] {
      EveryTableIsOk(t, acts[..|acts| - 1]);
      ActKeepsTableOk(ActAll(t, acts[..|acts| - 1]), acts[|acts| - 1]);
    }
  }

  /** Every reachable group: one active row per user, one active owner if anybody is active, at most 50 members. */
  lemma GroupsStaySound(acts: seq<Action>, id: ConvId)
    requires id in ActAll(map[], acts) && ActAll(map[], acts)[id].kind == GroupChat
    ensures var rows := ActAll(map[], acts)[id].rows;
            && (forall i, j :: ActiveAt(rows, i) && ActiveAt(rows, j) && rows[i].userId == rows[j].userId ==> i == j)
            && ((exists i :: ActiveAt(rows, i)) ==>
                  exists o :: OwnerAt(rows, o) && forall i :: OwnerAt(rows, i) ==> i == o)
            && ActiveCount(rows) <= MAX_GROUP_MEMBERS
  {
    EveryTableIsOk(map[], acts);
    var rows := ActAll(map[], acts)[id].rows;
    assert GroupOk(rows);
    if exists i :: ActiveAt(rows, i) {
      var o :| OwnerAt(rows, o);
      assert forall i :: OwnerAt(rows, i) ==> i == o;
    }
  }

  /** At most one private conversation per unordered pair in every reachable table, whatever the ids look like. */
  lemma OnePrivateChatPerPair(acts: seq<Action>, i: ConvId, j: ConvId)
    requires var t := ActAll(map[], acts);
             && i in t && j in t && t[i].kind == PrivateChat && t[j].kind == PrivateChat
             && |t[i].rows| == 2 && |t[j].rows| == 2
             && {t[i].rows[0].userId, t[i].rows[1].userId} == {t[j].rows[0].userId, t[j].rows[1].userId}
    ensures i == j
  {
    EveryTableIsOk(map[], acts);
    var t := ActAll(map[], acts);
    var a, b, c, d := t[i].rows[0].userId, t[i].rows[1].userId, t[j].rows[0].userId, t[j].rows[1].userId;
    assert a in {c, d} && b in {c, d} && c in {a, b} && d in {a, b};
    assert (a == c && b == d) || (a == d && b == c);
    PairKey.KeyIsSymmetric(a.text, b.text);
    assert KeyedPrivate(t, PairKey.Key(a.text, b.text), i) && KeyedPrivate(t, PairKey.Key(a.text, b.text), j);
  }

  /** Opening a private chat yields the chat of exactly that pair, provided ids carry no colon. */
  lemma PrivateChatIsOfThePair(t: Table, id: ConvId, actor: UserId, other: UserId, blocked: bool, now: nat)
    requires TableOk(t) && id !in t
    requires ':' !in actor.text && ':' !in other.text
    requires forall k, i :: k in t && 0 <= i < |t[k].rows| ==> ':' !in t[k].rows[i].userId.text
    requires CreatePrivate(t, id, actor, other, blocked, now).1.Ok?
    ensures var (next, r) := CreatePrivate(t, id, actor, other, blocked, now);
            && r.value in next && next[r.value].kind == PrivateChat && |next[r.value].rows| == 2
            && {next[r.value].rows[0].userId, next[r.value].rows[1].userId} == {actor, other}
  {
    CreatePrivateKeepsTableOk(t, id, actor, other, blocked, now);
    var (next, r) := CreatePrivate(t, id, actor, other, blocked, now);
    var rows := next[r.value].rows;
    assert PrivateOk(next[r.value]);
    if r.value in t {
      PairKey.KeyIdentifiesPair(rows[0].userId.text, rows[1].userId.text, actor.text, other.text);
      PairKey.SamePair(rows[0].userId.text, rows[1].userId.text, actor.text, other.text);
    }
  }

  // ---------------------------------------------------------------- the service

  class ConversationService {
    var conversations: Table

    ghost predicate Valid()
      reads this
    {
      TableOk(conversations)
    }

    constructor ()
      ensures conversations == map[] && Valid()
    {
      conversations := map[];
    }

    method RequireMembership(id: ConvId, actor: UserId) returns (r: Result<Conversation, ConvError>)
      ensures r == Err(NotFound) <==> id !in conversations || conversations[id].deleted
      ensures r.Ok? <==> && id in conversations && !conversations[id].deleted
                         && exists i :: ActiveAt(conversations[id].rows, i) && conversations[id].rows[i].userId == actor
      ensures r.Ok? ==> r.value == conversations[id] && IsActiveMember(r.value.rows, actor)
      ensures r.Err? ==> r.error in {NotFound, NotMember}
    {
      if id !in conversations || conversations[id].deleted {
        return Err(NotFound);
      }
      if ActiveIndex(conversations[id].rows, actor) == |conversations[id].rows| {
        return Err(NotMember);
      }
      return Ok(conversations[id]);
    }

    method AddMembersTo(id: ConvId, actor: UserId, ids: seq<UserId>, now: nat)
      returns (r: Result<Conversation, ConvError>)
      requires Valid()
      modifies this
      ensures (conversations, r) == Perform(old(conversations), id, actor, AddMembers(ids), now) && Valid()
    {
      PerformKeepsTableOk(conversations, id, actor, AddMembers(ids), now);
      var found := RequireMembership(id, actor);
      if found.Err? {
        return Err(found.error);
      }
      var c := found.value;
      if c.kind != GroupChat {
        return Err(NotGroup);
      }
      if RoleOf(c.rows, actor) != Owner && RoleOf(c.rows, actor) != Admin {
        return Err(NotAdmin);
      }
      var unique := OtherIds(ids, actor);
      if |unique| == 0 {
        return Err(NoIds);
      }
      if ActiveCount(c.rows) + |unique| > MAX_GROUP_MEMBERS {
        return Err(TooMany);
      }
      var rows := AddRows(c.rows, unique, now);
      conversations := conversations[id := c.(rows := rows)];
      return Ok(conversations[id]);
    }

    /** The loop of `addMembers`: rows are looked up among the members loaded before it. */
    method AddRows(loaded: seq<Row>, ids: seq<UserId>, now: nat) returns (rows: seq<Row>)
      ensures rows == WithAdded(loaded, ids, now)
    {
      rows := loaded;
      for i := 0 to |ids|
        invariant rows == WithAdded(loaded, ids[..i], now)
      {
        assert ids[..i + 1][..i] == ids[..i];
        if ActiveIndex(loaded, ids[i]) < |loaded| {
          continue;
        }
        rows := rows + [NewRow(ids[i], Member, now)];
      }
      assert ids[..|ids|] == ids;
    }

    method RemoveMemberFrom(id: ConvId, actor: UserId, target: UserId, now: nat)
      returns (r: Result<Conversation, ConvError>)
      requires Valid()
      modifies this
      ensures (conversations, r) == Perform(old(conversations), id, actor, RemoveMember(target), now) && Valid()
    {
      PerformKeepsTableOk(conversations, id, actor, RemoveMember(target), now);
      var found := RequireMembership(id, actor);
      if found.Err? {
        return Err(found.error);
      }
      var c := found.value;
      if c.kind != GroupChat {
        return Err(NotGroup);
      }
      if RoleOf(c.rows, actor) != Owner && RoleOf(c.rows, actor) != Admin {
        return Err(NotAdmin);
      }
      if target == actor {
        return Err(UseLeave);
      }
      var k := ActiveIndex(c.rows, target);
      if k == |c.rows| {
        return Err(NoSuchMember);
      }
      if c.rows[k].role == Owner {
        return Err(OwnerProtected);
      }
      c := c.(rows := c.rows[k := c.rows[k].(leftAt := Some(now))]);
      conversations := conversations[id := c];
      return Ok(c);
    }

    method SetRole(id: ConvId, actor: UserId, member: UserId, role: Role, now: nat)
      returns (r: Result<Conversation, ConvError>)
      requires Valid()
      modifies this
      ensures (conversations, r) == Perform(old(conversations), id, actor, SetMemberRole(member, role), now) && Valid()
    {
      PerformKeepsTableOk(conversations, id, actor, SetMemberRole(member, role), now);
      var found := RequireMembership(id, actor);
      if found.Err? {
        return Err(found.error);
      }
      var c := found.value;
      if c.kind != GroupChat {
        return Err(NotGroup);
      }
      if RoleOf(c.rows, actor) != Owner {
        return Err(OwnerOnly);
      }
      if role != Admin && role != Member {
        return Err(BadRole);
      }
      var k := ActiveIndex(c.rows, member);
      if k == |c.rows| {
        return Err(NoSuchMember);
      }
      if c.rows[k].role == Owner {
        return Err(OwnerProtected);
      }
      if member == actor {
        return Err(OwnRole);
      }
      c := c.(rows := c.rows[k := c.rows[k].(role := role)]);
      conversations := conversations[id := c];
      return Ok(c);
    }

    method Leave(id: ConvId, actor: UserId, now: nat) returns (r: Result<Conversation, ConvError>)
      requires Valid()
      modifies this
      ensures (conversations, r) == Perform(old(conversations), id, actor, LeaveGroup, now) && Valid()
    {
      PerformKeepsTableOk(conversations, id, actor, LeaveGroup, now);
      var found := RequireMembership(id, actor);
      if found.Err? {
        return Err(found.error);
      }
      var c := found.value;
      if c.kind == PrivateChat {
        return Err(CannotLeavePrivate);
      }
      var k := ActiveIndex(c.rows, actor);
      if c.rows[k].role == Owner {
        var heir := Successor(c.rows, actor);
        if heir < |c.rows| {
          c := c.(rows := c.rows[heir := c.rows[heir].(role := Owner)]);
        }
      }
      c := c.(rows := c.rows[k := c.rows[k].(leftAt := Some(now))]);
      conversations := conversations[id := c];
      return Ok(c);
    }

    method Delete(id: ConvId, actor: UserId, now: nat) returns (r: Result<Conversation, ConvError>)
      requires Valid()
      modifies this
      ensures (conversations, r) == Perform(old(conversations), id, actor, DeleteGroup, now) && Valid()
    {
      PerformKeepsTableOk(conversations, id, actor, DeleteGroup, now);
      var found := RequireMembership(id, actor);
      if found.Err? {
        return Err(found.error);
      }
      var c := found.value;
      if c.kind != GroupChat {
        return Err(NotGroup);
      }
      if c.createdBy != actor {
        return Err(NotCreator);
      }
      var rows := LeaveAll(c.rows, now);
      c := c.(rows := rows, deleted := true);
      conversations := conversations[id := c];
      return Ok(c);
    }

    /** The loop of `deleteGroup`. */
    method LeaveAll(start: seq<Row>, now: nat) returns (rows: seq<Row>)
      ensures rows == AllLeft(start, now)
    {
      rows := start;
      for i := 0 to |rows|
        invariant |rows| == |start|
        invariant forall j :: 0 <= j < |rows| ==> rows[j] == if j < i then AllLeft(start, now)[j] else start[j]
      {
        if rows[i].leftAt.None? {
          rows := rows[i := rows[i].(leftAt := Some(now))];
        }
      }
    }

    method OpenPrivate(id: ConvId, actor: UserId, other: UserId, blocked: bool, now: nat)
      returns (r: Result<ConvId, ConvError>)
      requires Valid() && id !in conversations
      modifies this
      ensures (conversations, r) == CreatePrivate(old(conversations), id, actor, other, blocked, now) && Valid()
    {
      CreatePrivateKeepsTableOk(conversations, id, actor, other, blocked, now);
      if actor == other {
        return Err(SelfChat);
      }
      var key := PairKey.Key(actor.text, other.text);
      var existing := set k | k in conversations.Keys && conversations[k].kind == PrivateChat &&
                              conversations[k].pairKey == Some(key) && !conversations[k].deleted;
      if existing != {} {
        var k :| k in existing;
        assert KeyedPrivate(conversations, key, k);
        return Ok(k);
      }
      assert forall k :: KeyedPrivate(conversations, key, k) ==> k in existing;
      if blocked {
        return Err(BlockedByPeer);
      }
      var rows := [NewRow(actor, Member, now), NewRow(other, Member, now)];
      conversations := conversations[id := Conversation(PrivateChat, actor, Some(key), rows, false)];
      return Ok(id);
    }

    method OpenGroup(id: ConvId, actor: UserId, named: bool, ids: seq<UserId>, now: nat)
      returns (r: Result<Conversation, ConvError>)
      requires Valid() && id !in conversations
      modifies this
      ensures (conversations, r) == CreateGroup(old(conversations), id, actor, named, ids, now) && Valid()
    {
      CreateGroupKeepsTableOk(conversations, id, actor, named, ids, now);
      if !named {
        return Err(NameRequired);
      }
      var others := OtherIds(ids, actor);
      if |others| < 1 {
        return Err(NoIds);
      }
      if |others| + 1 > MAX_GROUP_MEMBERS {
        return Err(TooMany);
      }
      var c := Conversation(GroupChat, actor, None, FoundingRows(actor, others, now), false);
      conversations := conversations[id := c];
      return Ok(c);
    }
  }
}
