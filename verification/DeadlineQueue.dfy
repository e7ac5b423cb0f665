/** Rows waiting for a deadline, served in batches of at most `k`, earliest deadline first. Scheduled messages
    (batches of 25) and expiring messages (batches of 40) are both served this way. */
module DeadlineQueue {
  import opened Lists

  type RowId = nat

  /** The waiting rows and their deadlines. */
  type Queue = map<RowId, nat>

  ghost function Due(q: Queue, t: nat): set<RowId> {
    set r | r in q && q[r] <= t
  }

  /** The result of `WHERE deadline <= now ORDER BY deadline ASC LIMIT k`; ties may fall either way. */
  ghost predicate IsBatch(q: Queue, now: nat, k: nat, batch: set<RowId>) {
    && batch <= Due(q, now)
    && |batch| == (if |Due(q, now)| <= k then |Due(q, now)| else k)
    && forall x, y :: x in batch && y in Due(q, now) - batch ==> q[x] <= q[y]
  }

  /** A queue event: a batch is served at some time, a row is filed with a later deadline, a row is withdrawn. */
  datatype Event =
    | Serve(now: nat, batch: set<RowId>)
    | File(now: nat, row: RowId, deadline: nat)
    | Withdraw(now: nat, row: RowId)

  /** Filing is only possible with a deadline still ahead. */
  ghost predicate Enabled(q: Queue, k: nat, e: Event) {
    match e
    case Serve(now, batch) => IsBatch(q, now, k, batch)
    case File(now, row, deadline) => row !in q && now < deadline
    case Withdraw(_, _) => true
  }

  ghost function Apply(q: Queue, e: Event): Queue {
    match e
    case Serve(_, batch) => q - batch
    case File(_, row, deadline) => q[row := deadline]
    case Withdraw(_, row) => q - {row}
  }

  ghost function After(q: Queue, es: seq<Event>): Queue {
    if es == [] then q else Apply(After(q, es[..|es| - 1]), es[|es| - 1])
  }

  /** A run from time `t` on: every event is enabled where it happens, and none happens before `t`. */
  ghost predicate IsRun(q: Queue, k: nat, t: nat, es: seq<Event>) {
    es != [] ==>
      var init, last := es[..|es| - 1], es[|es| - 1];
      IsRun(q, k, t, init) && t <= last.now && Enabled(After(q, init), k, last)
  }

  ghost function Serves(es: seq<Event>): nat {
    if es == [] then 0 else Serves(es[..|es| - 1]) + if es[|es| - 1].Serve? then 1 else 0
  }

  /** One batch takes the rows due at `t` first: either a full batch of them, or all of them. */
  lemma ServeDrains(q: Queue, k: nat, t: nat, now: nat, batch: set<RowId>)
    requires t <= now && IsBatch(q, now, k, batch)
    ensures Due(q - batch, t) == Due(q, t) - batch
    ensures |Due(q - batch, t)| <= if |Due(q, t)| <= k then 0 else |Due(q, t)| - k
  {
    var owed := Due(q, t);
    assert Due(q - batch, t) == owed - batch;
    if batch <= owed {
      assert owed == (owed - batch) + batch;
      assert owed <= Due(q, now);
      SubsetSize(owed, Due(q, now));
    } else {
      var x :| x in batch && x !in owed;
      assert forall y :: y in owed - batch ==> y in Due(q, now) - batch;
      assert owed - batch == {};
    }
  }

  /** Other events never put a row under a deadline that has already passed. */
  lemma OthersOweNothing(q: Queue, k: nat, t: nat, e: Event)
    requires t <= e.now && Enabled(q, k, e) && !e.Serve?
    ensures Due(Apply(q, e), t) <= Due(q, t)
  {
  }

  /** How many rows `m` full batches take. */
  function Capacity(k: nat, m: nat): nat {
    if m == 0 then 0 else k + Capacity(k, m - 1)
  }

  /** Every batch takes `k` of the rows due at time `t`, or all that are left of them, however filing and withdrawing
      are interleaved with the batches. */
  lemma {:induction false} BatchesDrain(q: Queue, k: nat, t: nat, es: seq<Event>)
    requires IsRun(q, k, t, es)
    ensures var n, taken := |Due(q, t)|, Capacity(k, Serves(es));
            |Due(After(q, es), t)| <= if n <= taken then 0 else n - taken
  {
    if es != [] {
      var init, last := es[..|es| - 1], es[|es| - 1];
      BatchesDrain(q, k, t, init);
      var before := After(q, init);
      if last.Serve? {
        ServeDrains(before, k, t, last.now, last.batch);
      } else {
        OthersOweNothing(before, k, t, last);
        SubsetSize(Due(Apply(before, last), t), Due(before, t));
      }
    }
  }

  lemma {:induction false} CapacityIsProduct(k: nat, m: nat)
    ensures Capacity(k, m) == k * m
  {
    if m > 0 {
      CapacityIsProduct(k, m - 1);
      assert k * m == k * (m - 1) + k;
    }
  }

  /** In particular the original rows, each of which was due at `t`, are gone after ceil(n / k) batches. */
  lemma EveryDueRowIsServed(q: Queue, k: nat, t: nat, es: seq<Event>, row: RowId)
    requires k > 0 && IsRun(q, k, t, es)
    requires |Due(q, t)| <= k * Serves(es)
    ensures row in After(q, es) ==> After(q, es)[row] > t
  {
    BatchesDrain(q, k, t, es);
    CapacityIsProduct(k, Serves(es));
    assert row !in Due(After(q, es), t);
  }

  /** One more event at the end of a run. */
  lemma RunSnoc(q: Queue, k: nat, t: nat, es: seq<Event>, e: Event)
    ensures After(q, es + [e]) == Apply(After(q, es), e)
    ensures Serves(es + [e]) == Serves(es) + if e.Serve? then 1 else 0
    ensures IsRun(q, k, t, es + [e]) <==> IsRun(q, k, t, es) && t <= e.now && Enabled(After(q, es), k, e)
  {
    assert (es + [e])[..|es|] == es;
  }

  /** Every row of `taken` is due no later than any row of `left`. */
  ghost predicate Ahead(q: Queue, taken: set<RowId>, left: set<RowId>) {
    taken <= q.Keys && left <= q.Keys && forall x, y :: x in taken && y in left ==> q[x] <= q[y]
  }

  lemma TakeOneMore(q: Queue, taken: set<RowId>, left: set<RowId>, x: RowId)
    requires Ahead(q, taken, left) && taken !! left
    requires x in left && forall y :: y in left ==> q[x] <= q[y]
    ensures Ahead(q, taken + {x}, left - {x}) && taken + {x} !! left - {x}
    ensures taken + {x} + (left - {x}) == taken + left
  {
  }

  lemma AheadIsBatch(q: Queue, now: nat, k: nat, taken: set<RowId>, left: set<RowId>)
    requires taken + left == Due(q, now) && taken !! left && Ahead(q, taken, left)
    requires |taken| <= k && (left == {} || |taken| == k)
    ensures IsBatch(q, now, k, taken)
  {
    assert |Due(q, now)| == |taken| + |left|;
  }

  /** Selects a batch: repeatedly an earliest waiting row. */
  method TakeEarliest(q: Queue, now: nat, k: nat) returns (batch: seq<RowId>)
    ensures NoDup(batch) && IsBatch(q, now, k, Elems(batch))
  {
    batch := [];
    var left := set r | r in q.Keys && q[r] <= now;
    ghost var taken := {};
    while |batch| < k && left != {}
      invariant NoDup(batch) && taken == Elems(batch)
      invariant taken + left == Due(q, now) && taken !! left
      invariant Ahead(q, taken, left)
      invariant |batch| <= k
      decreases left
    {
      var x := Earliest(q, left);
      TakeOneMore(q, taken, left, x);
      assert Elems(batch + [x]) == taken + {x};
      batch, taken, left := batch + [x], taken + {x}, left - {x};
    }
    NoDupSize(batch);
    AheadIsBatch(q, now, k, taken, left);
  }

  method Earliest(q: Queue, rows: set<RowId>) returns (x: RowId)
    requires rows != {} && rows <= q.Keys
    ensures x in rows && forall y :: y in rows ==> q[x] <= q[y]
  {
    x :| x in rows;
    var left := rows - {x};
    while left != {}
      invariant x in rows && left <= rows
      invariant forall y :: y in rows - left ==> q[x] <= q[y]
      decreases left
    {
      var y :| y in left;
      left := left - {y};
      if q[y] < q[x] {
        x := y;
      }
    }
  }
}
