/** The member rows of a conversation: what each membership operation does to them, and what all of them keep. */
module GroupRows {
  import opened Ids
  import opened Lists

  const MAX_GROUP_MEMBERS: nat := 50

  datatype Role = Owner | Admin | Member

  /** A row is active until it carries a leaving time; rejoining creates a new row. The database keeps `joinedAt` in
      microseconds, but the service only compares JavaScript dates: it stands here cut down to its millisecond. */
  datatype Row = Row(userId: UserId, role: Role, joinedAt: nat, leftAt: Option<nat>, lastReadAt: Option<nat>)

  function NewRow(u: UserId, role: Role, now: nat): Row {
    Row(u, role, now, None, None)
  }

  predicate ActiveAt(rows: seq<Row>, i: int) {
    0 <= i < |rows| && rows[i].leftAt.None?
  }

  function ActiveCount(rows: seq<Row>): nat {
    if rows == [] then 0 else ActiveCount(rows[..|rows| - 1]) + if rows[|rows| - 1].leftAt.None? then 1 else 0
  }

  /** `members.find((m) => m.userId === u && !m.leftAt)`. */
  function ActiveIndex(rows: seq<Row>, u: UserId): (k: nat)
    ensures k <= |rows|
    ensures k < |rows| ==> ActiveAt(rows, k) && rows[k].userId == u
    ensures k == |rows| ==> forall i :: ActiveAt(rows, i) ==> rows[i].userId != u
  {
    IndexFrom(rows, u, 0)
  }

  function IndexFrom(rows: seq<Row>, u: UserId, i: nat): (k: nat)
    requires i <= |rows|
    requires forall j :: 0 <= j < i && ActiveAt(rows, j) ==> rows[j].userId != u
    ensures i <= k <= |rows|
    ensures k < |rows| ==> ActiveAt(rows, k) && rows[k].userId == u
    ensures k == |rows| ==> forall j :: ActiveAt(rows, j) ==> rows[j].userId != u
    decreases |rows| - i
  {
    if i == |rows| then i
    else if ActiveAt(rows, i) && rows[i].userId == u then i
    else IndexFrom(rows, u, i + 1)
  }

  predicate IsActiveMember(rows: seq<Row>, u: UserId) {
    ActiveIndex(rows, u) < |rows|
  }

  /** What every group keeps. */
  ghost predicate GroupOk(rows: seq<Row>) {
    && (forall i, j :: ActiveAt(rows, i) && ActiveAt(rows, j) && rows[i].userId == rows[j].userId ==> i == j)
    && (forall i, j ::
          ActiveAt(rows, i) && ActiveAt(rows, j) && rows[i].role == Owner && rows[j].role == Owner ==> i == j)
    && ((exists i :: ActiveAt(rows, i)) ==> exists i :: OwnerAt(rows, i))
    && ActiveCount(rows) <= MAX_GROUP_MEMBERS
  }

  predicate OwnerAt(rows: seq<Row>, i: int) {
    ActiveAt(rows, i) && rows[i].role == Owner
  }

  /** Among active members the index of `u` is determined by `u`. */
  lemma IndexIsUnique(rows: seq<Row>, i: nat)
    requires GroupOk(rows) && ActiveAt(rows, i)
    ensures ActiveIndex(rows, rows[i].userId) == i
  {
    assert ActiveIndex(rows, rows[i].userId) < |rows|;
  }

  // ---------------------------------------------------------------- counting rows

  lemma {:induction false} CountUpdate(rows: seq<Row>, k: nat, row: Row)
    requires k < |rows|
    ensures ActiveCount(rows[k := row]) ==
            ActiveCount(rows) - (if rows[k].leftAt.None? then 1 else 0) + (if row.leftAt.None? then 1 else 0)
  {
    var n := |rows| - 1;
    if k < n {
      CountUpdate(rows[..n], k, row);
      assert rows[k := row][..n] == rows[..n][k := row];
    } else {
      assert rows[k := row][..n] == rows[..n];
    }
  }

  lemma CountSnoc(rows: seq<Row>, row: Row)
    ensures ActiveCount(rows + [row]) == ActiveCount(rows) + if row.leftAt.None? then 1 else 0
  {
    assert (rows + [row])[..|rows|] == rows;
  }

  lemma {:induction false} CountNone(rows: seq<Row>)
    requires forall i :: !ActiveAt(rows, i)
    ensures ActiveCount(rows) == 0
  {
    if rows != [] {
      var init := rows[..|rows| - 1];
      assert forall i :: ActiveAt(init, i) ==> ActiveAt(rows, i);
      assert !ActiveAt(rows, |rows| - 1);
      CountNone(init);
    }
  }

  // ---------------------------------------------------------------- creating a group

  /** Owner first, then the other members, all active. */
  function FoundingRows(actor: UserId, others: seq<UserId>, now: nat): (r: seq<Row>)
    ensures |r| == 1 + |others|
  {
    [NewRow(actor, Owner, now)] + seq(|others|, i requires 0 <= i < |others| => NewRow(others[i], Member, now))
  }

  lemma {:induction false} CountAll(rows: seq<Row>)
    requires forall i :: 0 <= i < |rows| ==> rows[i].leftAt.None?
    ensures ActiveCount(rows) == |rows|
  {
    if rows != [] {
      CountAll(rows[..|rows| - 1]);
    }
  }

  lemma FoundingGroupOk(actor: UserId, others: seq<UserId>, now: nat)
    requires NoDup(others) && actor !in others && 1 + |others| <= MAX_GROUP_MEMBERS
    ensures GroupOk(FoundingRows(actor, others, now))
  {
    var rows := FoundingRows(actor, others, now);
    CountAll(rows);
    assert OwnerAt(rows, 0);
    assert forall i :: 1 <= i < |rows| ==> rows[i].userId == others[i - 1];
  }

  // ---------------------------------------------------------------- adding members

  /** A new row for each id that is not an active member yet. */
  function WithAdded(rows: seq<Row>, ids: seq<UserId>, now: nat): seq<Row> {
    if ids == [] then rows
    else
      var before := WithAdded(rows, ids[..|ids| - 1], now);
      if IsActiveMember(rows, ids[|ids| - 1]) then before else before + [NewRow(ids[|ids| - 1], Member, now)]
  }

  /** Adding keeps the old rows and appends active plain members, each once, from the ids not active before. */
  lemma {:induction false} AddedRows(rows: seq<Row>, ids: seq<UserId>, now: nat)
    requires NoDup(ids)
    ensures var next := WithAdded(rows, ids, now);
            && rows <= next
            && (forall i :: |rows| <= i < |next| ==> next[i].role == Member && next[i].leftAt.None? &&
                                                     next[i].userId in ids && !IsActiveMember(rows, next[i].userId))
            && (forall i, j :: |rows| <= i < j < |next| ==> next[i].userId != next[j].userId)
  {
    if ids != [] {
      var init, last := ids[..|ids| - 1], ids[|ids| - 1];
      AddedRows(rows, init, now);
      assert ids == init + [last];
      assert last !in init;
    }
  }

  /** Every id that was not active gets its row, and the count grows by at most one per id. */
  lemma {:induction false} AddedIds(rows: seq<Row>, ids: seq<UserId>, now: nat)
    ensures var next := WithAdded(rows, ids, now);
            && |rows| <= |next|
            && (forall u :: u in ids && !IsActiveMember(rows, u) ==>
                  exists i :: |rows| <= i < |next| && next[i].userId == u)
            && ActiveCount(next) <= ActiveCount(rows) + |ids|
  {
    if ids != [] {
      var init, last := ids[..|ids| - 1], ids[|ids| - 1];
      AddedIds(rows, init, now);
      var before, next := WithAdded(rows, init, now), WithAdded(rows, ids, now);
      CountSnoc(before, NewRow(last, Member, now));
      forall u | u in ids && !IsActiveMember(rows, u) ensures exists i :: |rows| <= i < |next| && next[i].userId == u {
        if u == last {
          assert next[|next| - 1].userId == u;
        } else {
          assert u in init;
          var i :| |rows| <= i < |before| && before[i].userId == u;
          assert next[i].userId == u;
        }
      }
    }
  }

  lemma AddedKeepsGroupOk(rows: seq<Row>, ids: seq<UserId>, now: nat)
    requires GroupOk(rows) && NoDup(ids) && ActiveCount(rows) + |ids| <= MAX_GROUP_MEMBERS
    requires exists i :: ActiveAt(rows, i)
    ensures GroupOk(WithAdded(rows, ids, now))
  {
    AddedRows(rows, ids, now);
    AddedIds(rows, ids, now);
    var next := WithAdded(rows, ids, now);
    forall i | ActiveAt(rows, i) ensures ActiveAt(next, i) && IsActiveMember(rows, rows[i].userId) {
    }
    var o :| OwnerAt(rows, o);
    assert OwnerAt(next, o);
  }

  /** Exactly the given ids become members. */
  lemma AddedMembers(rows: seq<Row>, ids: seq<UserId>, now: nat)
    requires NoDup(ids)
    ensures forall u :: IsActiveMember(WithAdded(rows, ids, now), u) <==> IsActiveMember(rows, u) || u in ids
  {
    AddedRows(rows, ids, now);
    AddedIds(rows, ids, now);
    var next := WithAdded(rows, ids, now);
    forall u ensures IsActiveMember(next, u) <==> IsActiveMember(rows, u) || u in ids {
      if IsActiveMember(rows, u) {
        assert ActiveAt(next, ActiveIndex(rows, u));
      } else if u in ids {
        var i :| |rows| <= i < |next| && next[i].userId == u;
        assert ActiveAt(next, i);
      } else if IsActiveMember(next, u) {
        var i := ActiveIndex(next, u);
        assert i < |rows| ==> ActiveAt(rows, i);
      }
    }
  }

  // ---------------------------------------------------------------- removing, roles, leaving

  function WithLeft(rows: seq<Row>, k: nat, now: nat): seq<Row>
    requires k < |rows|
  {
    rows[k := rows[k].(leftAt := Some(now))]
  }

  lemma RemovedKeepsGroupOk(rows: seq<Row>, k: nat, now: nat)
    requires GroupOk(rows) && ActiveAt(rows, k) && rows[k].role != Owner
    ensures GroupOk(WithLeft(rows, k, now))
    ensures forall u :: IsActiveMember(WithLeft(rows, k, now), u) <==> IsActiveMember(rows, u) && u != rows[k].userId
  {
    var next := WithLeft(rows, k, now);
    CountUpdate(rows, k, rows[k].(leftAt := Some(now)));
    assert forall i :: ActiveAt(next, i) <==> ActiveAt(rows, i) && i != k;
    var o :| OwnerAt(rows, o);
    assert OwnerAt(next, o);
    LeftMembers(rows, k, now);
  }

  lemma LeftMembers(rows: seq<Row>, k: nat, now: nat)
    requires GroupOk(rows) && ActiveAt(rows, k)
    ensures forall u :: IsActiveMember(WithLeft(rows, k, now), u) <==> IsActiveMember(rows, u) && u != rows[k].userId
  {
    var next := WithLeft(rows, k, now);
    assert forall i :: ActiveAt(next, i) <==> ActiveAt(rows, i) && i != k;
    forall u ensures IsActiveMember(next, u) <==> IsActiveMember(rows, u) && u != rows[k].userId {
      if IsActiveMember(rows, u) && u != rows[k].userId {
        assert ActiveAt(next, ActiveIndex(rows, u));
      }
      if IsActiveMember(next, u) {
        assert ActiveAt(rows, ActiveIndex(next, u));
      }
    }
  }

  function WithRole(rows: seq<Row>, k: nat, role: Role): seq<Row>
    requires k < |rows|
  {
    rows[k := rows[k].(role := role)]
  }

  lemma RoleKeepsGroupOk(rows: seq<Row>, k: nat, role: Role)
    requires GroupOk(rows) && ActiveAt(rows, k) && rows[k].role != Owner && role != Owner
    ensures GroupOk(WithRole(rows, k, role))
  {
    var next := WithRole(rows, k, role);
    CountUpdate(rows, k, rows[k].(role := role));
    assert forall i :: ActiveAt(next, i) <==> ActiveAt(rows, i);
    var o :| OwnerAt(rows, o);
    assert OwnerAt(next, o);
  }

  /** The first entry of the remaining active rows sorted by joining time: a row nobody joined before. */
  function Successor(rows: seq<Row>, leaver: UserId): (k: nat)
    ensures k <= |rows|
    ensures k < |rows| ==> ActiveAt(rows, k) && rows[k].userId != leaver &&
                           forall i :: ActiveAt(rows, i) && rows[i].userId != leaver ==>
                                         rows[k].joinedAt <= rows[i].joinedAt
    ensures k == |rows| ==> forall i :: ActiveAt(rows, i) ==> rows[i].userId == leaver
  {
    EarliestFrom(rows, leaver, 0, |rows|)
  }

  function EarliestFrom(rows: seq<Row>, leaver: UserId, i: nat, best: nat): (k: nat)
    requires i <= |rows| && best <= |rows|
    requires best < |rows| ==> ActiveAt(rows, best) && rows[best].userId != leaver
    requires forall j :: 0 <= j < i && ActiveAt(rows, j) && rows[j].userId != leaver ==>
                           best < |rows| && rows[best].joinedAt <= rows[j].joinedAt
    ensures k <= |rows|
    ensures k < |rows| ==> ActiveAt(rows, k) && rows[k].userId != leaver
    ensures forall j :: ActiveAt(rows, j) && rows[j].userId != leaver ==>
                          k < |rows| && rows[k].joinedAt <= rows[j].joinedAt
    decreases |rows| - i
  {
    if i == |rows| then best
    else if ActiveAt(rows, i) && rows[i].userId != leaver && (best == |rows| || rows[i].joinedAt < rows[best].joinedAt)
    then EarliestFrom(rows, leaver, i + 1, i)
    else EarliestFrom(rows, leaver, i + 1, best)
  }

  /** The rows after active row `k` left, its ownership handed on first. */
  function WithLeaver(rows: seq<Row>, k: nat, now: nat): seq<Row>
    requires k < |rows|
  {
    var heir := Successor(rows, rows[k].userId);
    var crowned := if rows[k].role == Owner && heir < |rows| then WithRole(rows, heir, Owner) else rows;
    WithLeft(crowned, k, now)
  }

  lemma CrowningKeepsGroupOk(rows: seq<Row>, k: nat, heir: nat, now: nat)
    requires GroupOk(rows) && OwnerAt(rows, k) && ActiveAt(rows, heir) && heir != k
    ensures GroupOk(WithLeft(WithRole(rows, heir, Owner), k, now))
  {
    var crowned := WithRole(rows, heir, Owner);
    var next := WithLeft(crowned, k, now);
    CountUpdate(rows, heir, rows[heir].(role := Owner));
    CountUpdate(crowned, k, crowned[k].(leftAt := Some(now)));
    assert forall i :: ActiveAt(next, i) <==> ActiveAt(rows, i) && i != k;
    forall i | OwnerAt(next, i) ensures i == heir {
      assert i != heir ==> OwnerAt(rows, i);
    }
    assert OwnerAt(next, heir);
  }

  lemma LeaverKeepsGroupOk(rows: seq<Row>, k: nat, now: nat)
    requires GroupOk(rows) && ActiveAt(rows, k)
    ensures GroupOk(WithLeaver(rows, k, now))
  {
    var heir := Successor(rows, rows[k].userId);
    if rows[k].role != Owner {
      RemovedKeepsGroupOk(rows, k, now);
    } else if heir < |rows| {
      CrowningKeepsGroupOk(rows, k, heir, now);
    } else {
      var next := WithLeft(rows, k, now);
      assert forall i :: ActiveAt(rows, i) ==> i == k;
      assert forall i :: !ActiveAt(next, i);
      CountNone(next);
    }
  }

  /** Only the leaver's membership ends. */
  lemma LeaverMembers(rows: seq<Row>, k: nat, now: nat)
    requires GroupOk(rows) && ActiveAt(rows, k)
    ensures forall u :: IsActiveMember(WithLeaver(rows, k, now), u) <==> IsActiveMember(rows, u) && u != rows[k].userId
  {
    SameUsersSameMembers(WithLeft(rows, k, now), WithLeaver(rows, k, now));
    LeftMembers(rows, k, now);
  }

  lemma SameUsersSameMembers(rows: seq<Row>, next: seq<Row>)
    requires |rows| == |next|
    requires forall i :: 0 <= i < |rows| ==> rows[i].userId == next[i].userId && rows[i].leftAt == next[i].leftAt
    ensures forall u :: IsActiveMember(rows, u) <==> IsActiveMember(next, u)
  {
    forall u ensures IsActiveMember(rows, u) <==> IsActiveMember(next, u) {
      if IsActiveMember(rows, u) {
        assert ActiveAt(next, ActiveIndex(rows, u));
      }
      if IsActiveMember(next, u) {
        assert ActiveAt(rows, ActiveIndex(next, u));
      }
    }
  }

  /** Succession: when the owner leaves and somebody remains, exactly one remaining member becomes the owner, one
      whom no other remaining member preceded by a millisecond; everybody else keeps their role. */
  lemma OwnerSuccession(rows: seq<Row>, k: nat, now: nat)
    requires GroupOk(rows) && OwnerAt(rows, k)
    ensures var next := WithLeaver(rows, k, now);
            if forall i :: ActiveAt(rows, i) ==> i == k then forall i :: !ActiveAt(next, i)
            else
              exists heir ::
                && OwnerAt(next, heir) && heir != k && ActiveAt(rows, heir)
                && (forall i :: OwnerAt(next, i) ==> i == heir)
                && (forall i :: ActiveAt(rows, i) && i != k ==> rows[heir].joinedAt <= rows[i].joinedAt)
                && (forall i :: 0 <= i < |rows| && i != heir && i != k ==> next[i] == rows[i])
  {
    var heir := Successor(rows, rows[k].userId);
    var next := WithLeaver(rows, k, now);
    assert forall i :: ActiveAt(rows, i) && i != k ==> rows[i].userId != rows[k].userId;
    if heir < |rows| {
      assert ActiveAt(rows, heir) && heir != k;
      assert OwnerAt(next, heir);
      assert forall i :: OwnerAt(next, i) ==> i == heir;
    }
  }

  /** Every active row is marked as left. */
  function AllLeft(rows: seq<Row>, now: nat): (r: seq<Row>)
    ensures |r| == |rows|
    ensures forall i :: 0 <= i < |rows| ==>
              r[i] == if rows[i].leftAt.None? then rows[i].(leftAt := Some(now)) else rows[i]
  {
    seq(|rows|, i requires 0 <= i < |rows| => if rows[i].leftAt.None? then rows[i].(leftAt := Some(now)) else rows[i])
  }

  lemma AllLeftGroupOk(rows: seq<Row>, now: nat)
    ensures GroupOk(AllLeft(rows, now)) && forall i :: !ActiveAt(AllLeft(rows, now), i)
  {
    CountNone(AllLeft(rows, now));
  }
}
