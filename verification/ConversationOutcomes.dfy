/** The full outcome of every request to a conversation: each refusal, each row that changes, and what stays. */
module ConversationOutcomes {
  import opened Conversations
  import opened GroupRows
  import opened Ids
  import opened Lists
  import PairKey

  /** Row `i` is the user's active one. */
  ghost predicate SeatOf(rows: seq<Row>, u: UserId, i: int) {
    0 <= i < |rows| && rows[i].leftAt.None? && rows[i].userId == u
  }

  ghost predicate Seated(rows: seq<Row>, u: UserId) {
    exists i :: SeatOf(rows, u, i)
  }

  ghost predicate SeatedAs(rows: seq<Row>, u: UserId, role: Role) {
    exists i :: SeatOf(rows, u, i) && rows[i].role == role
  }

  /** Owner or admin. */
  ghost predicate Manages(rows: seq<Row>, u: UserId) {
    SeatedAs(rows, u, Owner) || SeatedAs(rows, u, Admin)
  }

  /** Only row `i` differs. */
  ghost predicate OnlyRow(rows: seq<Row>, next: seq<Row>, i: int) {
    |next| == |rows| && 0 <= i < |rows| && forall j :: 0 <= j < |rows| && j != i ==> next[j] == rows[j]
  }

  lemma Seats(rows: seq<Row>, u: UserId)
    ensures IsActiveMember(rows, u) <==> Seated(rows, u)
    ensures IsActiveMember(rows, u) ==> SeatOf(rows, u, ActiveIndex(rows, u))
  {
    if IsActiveMember(rows, u) {
      assert SeatOf(rows, u, ActiveIndex(rows, u));
    }
    if exists i :: SeatOf(rows, u, i) {
      var i :| SeatOf(rows, u, i);
      assert ActiveAt(rows, i);
    }
  }

  lemma SeatsOfAll(rows: seq<Row>)
    ensures forall u :: IsActiveMember(rows, u) <==> Seated(rows, u)
  {
    forall u ensures IsActiveMember(rows, u) <==> Seated(rows, u) {
      Seats(rows, u);
    }
  }

  /** In a group a seat is unique, and so is the role. */
  lemma RoleSeats(rows: seq<Row>, u: UserId)
    requires GroupOk(rows) && IsActiveMember(rows, u)
    ensures forall role :: SeatedAs(rows, u, role) <==> RoleOf(rows, u) == role
    ensures forall i :: SeatOf(rows, u, i) <==> i == ActiveIndex(rows, u)
  {
    Seats(rows, u);
    forall i | SeatOf(rows, u, i) ensures i == ActiveIndex(rows, u) {
      assert ActiveAt(rows, i) && ActiveAt(rows, ActiveIndex(rows, u));
    }
  }

  // ---------------------------------------------------------------- requests

  /** A request reaches a conversation that is there, from somebody with a seat in it; only that conversation changes,
      and only if the request is granted. */
  lemma PerformOutcome(t: Table, id: ConvId, actor: UserId, q: Request, now: nat)
    ensures var (next, r) := Perform(t, id, actor, q, now);
            var found := id in t && !t[id].deleted;
            && (!found ==> r == Err(NotFound))
            && (found && !Seated(t[id].rows, actor) ==> r == Err(NotMember))
            && (found && Seated(t[id].rows, actor) ==>
                  IsActiveMember(t[id].rows, actor) && r == Answer(t[id], actor, q, now))
            && (r.Err? ==> next == t)
            && (r.Ok? ==> next == t[id := r.value])
  {
    if id in t {
      Seats(t[id].rows, actor);
    }
  }

  /** What a list of ids comes down to: each other id once. */
  lemma OthersOnce(ids: seq<UserId>, actor: UserId)
    ensures var others := set u | u in ids && u != actor;
            && Elems(OtherIds(ids, actor)) == others && |OtherIds(ids, actor)| == |others|
            && (others == {} <==> OtherIds(ids, actor) == [])
  {
    var others := OtherIds(ids, actor);
    NoDupSize(others);
    assert Elems(others) == set u | u in ids && u != actor;
    if others != [] {
      assert others[0] in Elems(others);
    }
  }

  /** Adding is for owners and admins of a group of at most 50, all the ids counted. */
  lemma AddErrors(c: Conversation, actor: UserId, ids: seq<UserId>, now: nat)
    requires ConversationOk(c) && IsActiveMember(c.rows, actor)
    ensures var r := Answer(c, actor, AddMembers(ids), now);
            var may := c.kind == GroupChat && Manages(c.rows, actor);
            var others := set u | u in ids && u != actor;
            && (r == Err(NotGroup) <==> c.kind != GroupChat)
            && (r == Err(NotAdmin) <==> c.kind == GroupChat && !may)
            && (r == Err(NoIds) <==> may && others == {})
            && (r == Err(TooMany) <==> may && others != {} && ActiveCount(c.rows) + |others| > 50)
            && (r.Ok? <==> may && others != {} && ActiveCount(c.rows) + |others| <= 50)
  {
    OthersOnce(ids, actor);
    if c.kind == GroupChat {
      RoleSeats(c.rows, actor);
    }
  }

  /** The rows after adding: the new members come last, each a plain member from now on. */
  lemma AddOutcome(c: Conversation, actor: UserId, ids: seq<UserId>, now: nat)
    requires ConversationOk(c) && IsActiveMember(c.rows, actor) && Answer(c, actor, AddMembers(ids), now).Ok?
    ensures var next := Answer(c, actor, AddMembers(ids), now).value;
            && next == c.(rows := next.rows) && c.rows <= next.rows
            && (forall i :: |c.rows| <= i < |next.rows| ==>
                  && next.rows[i] == Row(next.rows[i].userId, Member, now, None, None)
                  && !Seated(c.rows, next.rows[i].userId))
            && (forall u :: Seated(next.rows, u) <==> Seated(c.rows, u) || (u in ids && u != actor))
  {
    var others := OtherIds(ids, actor);
    SeatsOfAll(c.rows);
    SeatsOfAll(WithAdded(c.rows, others, now));
    AddedRows(c.rows, others, now);
    AddedFields(c.rows, others, now);
    AddedMembers(c.rows, others, now);
  }

  lemma {:induction false} AddedFields(rows: seq<Row>, ids: seq<UserId>, now: nat)
    ensures var next := WithAdded(rows, ids, now);
            && |rows| <= |next|
            && forall i :: |rows| <= i < |next| ==> next[i].joinedAt == now && next[i].lastReadAt.None?
  {
    if ids != [] {
      AddedFields(rows, ids[..|ids| - 1], now);
    }
  }

  /** Removing: for owners and admins, somebody else who has a seat and is not the owner; that seat ends now. */
  lemma RemoveOutcome(c: Conversation, actor: UserId, target: UserId, now: nat)
    requires ConversationOk(c) && IsActiveMember(c.rows, actor)
    ensures var r := Answer(c, actor, RemoveMember(target), now);
            var may := c.kind == GroupChat && Manages(c.rows, actor);
            && (r == Err(NotGroup) <==> c.kind != GroupChat)
            && (r == Err(NotAdmin) <==> c.kind == GroupChat && !Manages(c.rows, actor))
            && (r == Err(UseLeave) <==> may && target == actor)
            && (r == Err(NoSuchMember) <==> may && target != actor && !Seated(c.rows, target))
            && (r == Err(OwnerProtected) <==> may && target != actor && SeatedAs(c.rows, target, Owner))
            && (r.Ok? <==> may && target != actor && Seated(c.rows, target) && !SeatedAs(c.rows, target, Owner))
            && (r.Ok? ==> r.value == c.(rows := r.value.rows) &&
                          forall i :: SeatOf(c.rows, target, i) ==>
                            OnlyRow(c.rows, r.value.rows, i) && r.value.rows[i] == c.rows[i].(leftAt := Some(now)))
  {
    Seats(c.rows, target);
    if c.kind == GroupChat {
      RoleSeats(c.rows, actor);
      if IsActiveMember(c.rows, target) {
        RoleSeats(c.rows, target);
      }
    }
  }

  /** Changing a role: for the owner, somebody else who has a seat; that seat has the asked role, which is not
      ownership. */
  lemma RoleOutcome(c: Conversation, actor: UserId, member: UserId, role: Role, now: nat)
    requires ConversationOk(c) && IsActiveMember(c.rows, actor)
    ensures var r := Answer(c, actor, SetMemberRole(member, role), now);
            var may := c.kind == GroupChat && SeatedAs(c.rows, actor, Owner);
            && (r == Err(NotGroup) <==> c.kind != GroupChat)
            && (r == Err(OwnerOnly) <==> c.kind == GroupChat && !SeatedAs(c.rows, actor, Owner))
            && (r == Err(BadRole) <==> may && role == Owner)
            && (r == Err(NoSuchMember) <==> may && role != Owner && !Seated(c.rows, member))
            && (r == Err(OwnerProtected) <==> may && role != Owner && member == actor)
            && (r.Ok? <==> may && role != Owner && Seated(c.rows, member) && member != actor)
            && (r.Ok? ==> r.value == c.(rows := r.value.rows) &&
                          forall i :: SeatOf(c.rows, member, i) ==>
                            OnlyRow(c.rows, r.value.rows, i) && r.value.rows[i] == c.rows[i].(role := role))
  {
    Seats(c.rows, member);
    if c.kind == GroupChat {
      RoleSeats(c.rows, actor);
      if IsActiveMember(c.rows, member) {
        RoleSeats(c.rows, member);
        OneOwner(c.rows, actor, member);
      }
    }
  }

  lemma OneOwner(rows: seq<Row>, u: UserId, v: UserId)
    requires GroupOk(rows) && IsActiveMember(rows, u) && IsActiveMember(rows, v)
    ensures RoleOf(rows, u) == Owner && RoleOf(rows, v) == Owner ==> u == v
  {
    Seats(rows, u);
    Seats(rows, v);
    assert ActiveAt(rows, ActiveIndex(rows, u)) && ActiveAt(rows, ActiveIndex(rows, v));
  }

  /** Leaving: for anybody in a group; the seat ends now, and if it was the owner's, the earliest of the others becomes
      owner; no other row changes. */
  lemma LeaveOutcome(c: Conversation, actor: UserId, now: nat)
    requires ConversationOk(c) && IsActiveMember(c.rows, actor)
    ensures var r := Answer(c, actor, LeaveGroup, now);
            && (r.Ok? <==> c.kind == GroupChat)
            && (r.Err? ==> r == Err(CannotLeavePrivate))
            && (r.Ok? ==>
                  && r.value == c.(rows := r.value.rows) && |r.value.rows| == |c.rows|
                  && forall i :: SeatOf(c.rows, actor, i) ==>
                       && r.value.rows[i] == c.rows[i].(leftAt := Some(now))
                       && (c.rows[i].role != Owner ==> OnlyRow(c.rows, r.value.rows, i))
                       && (c.rows[i].role == Owner ==> HandedOn(c.rows, r.value.rows, i)))
  {
    if c.kind == GroupChat {
      RoleSeats(c.rows, actor);
      var k := ActiveIndex(c.rows, actor);
      assert ActiveAt(c.rows, k);
      if c.rows[k].role == Owner {
        HeirIsEarliest(c.rows, k, now);
      }
    }
  }

  /** The owner in row `k` is gone: nobody else had a seat, or an earliest other seat is the owner's now. */
  ghost predicate HandedOn(rows: seq<Row>, next: seq<Row>, k: int)
    requires |next| == |rows| && 0 <= k < |rows|
  {
    || ((forall i :: ActiveAt(rows, i) ==> i == k) && OnlyRow(rows, next, k))
    || exists heir ::
         && ActiveAt(rows, heir) && heir != k && next[heir] == rows[heir].(role := Owner)
         && (forall i :: ActiveAt(rows, i) && i != k ==> rows[heir].joinedAt <= rows[i].joinedAt)
         && (forall i :: 0 <= i < |rows| && i != heir && i != k ==> next[i] == rows[i])
  }

  lemma HeirIsEarliest(rows: seq<Row>, k: nat, now: nat)
    requires GroupOk(rows) && ActiveAt(rows, k) && rows[k].role == Owner
    ensures HandedOn(rows, WithLeaver(rows, k, now), k)
    ensures WithLeaver(rows, k, now)[k] == rows[k].(leftAt := Some(now))
  {
    var heir, next := Successor(rows, rows[k].userId), WithLeaver(rows, k, now);
    assert forall i :: ActiveAt(rows, i) && i != k ==> rows[i].userId != rows[k].userId;
    if heir < |rows| {
      assert ActiveAt(rows, heir) && heir != k && next[heir] == rows[heir].(role := Owner);
    }
  }

  /** Deleting: for the creator of a group; every seat ends now and the group is gone. */
  lemma DeleteOutcome(c: Conversation, actor: UserId, now: nat)
    requires ConversationOk(c) && IsActiveMember(c.rows, actor)
    ensures var r := Answer(c, actor, DeleteGroup, now);
            && (r == Err(NotGroup) <==> c.kind != GroupChat)
            && (r == Err(NotCreator) <==> c.kind == GroupChat && c.createdBy != actor)
            && (r.Ok? <==> c.kind == GroupChat && c.createdBy == actor)
            && (r.Ok? ==>
                  && r.value == c.(rows := r.value.rows, deleted := true) && |r.value.rows| == |c.rows|
                  && forall i :: 0 <= i < |c.rows| ==>
                       r.value.rows[i] == if c.rows[i].leftAt.None? then c.rows[i].(leftAt := Some(now)) else c.rows[i])
  {
  }

  // ---------------------------------------------------------------- creation

  /** A new group: named, with one to 49 others, each once; its creator is the owner and everybody else a plain member,
      all from now on. */
  lemma CreateGroupOutcome(t: Table, id: ConvId, actor: UserId, named: bool, ids: seq<UserId>, now: nat)
    ensures var (next, r) := CreateGroup(t, id, actor, named, ids, now);
            var others := set u | u in ids && u != actor;
            && (r == Err(NameRequired) <==> !named)
            && (r == Err(NoIds) <==> named && others == {})
            && (r == Err(TooMany) <==> named && |others| > 49)
            && (r.Ok? <==> named && 1 <= |others| <= 49)
            && (r.Err? ==> next == t)
            && (r.Ok? ==> next == t[id := r.value] &&
                          r.value == Conversation(GroupChat, actor, None, r.value.rows, false) &&
                          Founded(r.value.rows, actor, others, now))
  {
    OthersOnce(ids, actor);
    FoundedRows(actor, OtherIds(ids, actor), now);
  }

  /** The creator owns the group, and each of the others is a plain member once. */
  ghost predicate Founded(rows: seq<Row>, actor: UserId, others: set<UserId>, now: nat) {
    && |rows| == 1 + |others| && rows[0] == Row(actor, Owner, now, None, None)
    && (forall i :: 1 <= i < |rows| ==> rows[i] == Row(rows[i].userId, Member, now, None, None))
    && (set i | 1 <= i < |rows| :: rows[i].userId) == others
  }

  lemma FoundedRows(actor: UserId, others: seq<UserId>, now: nat)
    requires NoDup(others)
    ensures Founded(FoundingRows(actor, others, now), actor, Elems(others), now)
  {
    var rows := FoundingRows(actor, others, now);
    NoDupSize(others);
    assert forall i :: 1 <= i < |rows| ==> rows[i].userId == others[i - 1];
    forall u | u in others ensures u in (set i | 1 <= i < |rows| :: rows[i].userId) {
      var i :| 0 <= i < |others| && others[i] == u;
      assert rows[i + 1].userId == u;
    }
  }

  /** Opening a private chat: with somebody else; the pair's chat if there is one, and otherwise, unless the other has
      blocked the actor, a new one of exactly the two. */
  lemma CreatePrivateOutcome(t: Table, id: ConvId, actor: UserId, other: UserId, blocked: bool, now: nat)
    requires id !in t
    ensures var (next, r) := CreatePrivate(t, id, actor, other, blocked, now);
            var key := PairKey.Key(actor.text, other.text);
            var open := exists k :: k in t && t[k].kind == PrivateChat && t[k].pairKey == Some(key) && !t[k].deleted;
            && (r == Err(SelfChat) <==> actor == other)
            && (r == Err(BlockedByPeer) <==> actor != other && !open && blocked)
            && (r.Ok? <==> actor != other && (open || !blocked))
            && (r.Err? ==> next == t)
            && (r.Ok? && open ==>
                  && next == t && r.value in t && t[r.value].kind == PrivateChat
                  && t[r.value].pairKey == Some(key) && !t[r.value].deleted)
            && (r.Ok? && !open ==>
                  && r.value == id && id in next && next == t[id := next[id]]
                  && next[id] == Conversation(PrivateChat, actor, Some(key), next[id].rows, false)
                  && next[id].rows == [Row(actor, Member, now, None, None), Row(other, Member, now, None, None)])
  {
    var key := PairKey.Key(actor.text, other.text);
    if exists k :: k in t && t[k].kind == PrivateChat && t[k].pairKey == Some(key) && !t[k].deleted {
      var k :| k in t && t[k].kind == PrivateChat && t[k].pairKey == Some(key) && !t[k].deleted;
      assert KeyedPrivate(t, key, k);
    }
  }
}
