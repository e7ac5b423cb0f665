/** Order-preserving operations on id lists: what `filter` and `[...new Set(xs)]` compute. */
module Lists {

  datatype Option<+T> = None | Some(value: T)

  /** A call that either succeeds with a value or is refused with an error. */
  datatype Result<+T, +E> = Ok(value: T) | Err(error: E)

  ghost predicate NoDup<T(!new)>(xs: seq<T>) {
    forall i, j :: 0 <= i < j < |xs| ==> xs[i] != xs[j]
  }

  ghost function Elems<T>(xs: seq<T>): set<T> {
    set x | x in xs
  }

  /** `xs.filter((id) => id !== x)`. */
  function Without<T(==, !new)>(xs: seq<T>, x: T): (r: seq<T>)
    ensures forall y :: y in r <==> y in xs && y != x
    ensures NoDup(xs) ==> NoDup(r)
    ensures x !in xs ==> r == xs
    ensures |r| <= |xs|
  {
    if xs == [] then []
    else
      var init := Without(xs[..|xs| - 1], x);
      assert xs == xs[..|xs| - 1] + [xs[|xs| - 1]];
      assert NoDup(xs) ==> xs[|xs| - 1] !in init;
      if xs[|xs| - 1] == x then init else init + [xs[|xs| - 1]]
  }

  /** The elements of `xs` satisfying `p`, in order. */
  function Filter<T(!new)>(xs: seq<T>, p: T -> bool): (r: seq<T>)
    ensures forall y :: y in r <==> y in xs && p(y)
    ensures NoDup(xs) ==> NoDup(r)
    ensures |r| <= |xs|
  {
    if xs == [] then []
    else
      var init := Filter(xs[..|xs| - 1], p);
      assert xs == xs[..|xs| - 1] + [xs[|xs| - 1]];
      assert NoDup(xs) ==> xs[|xs| - 1] !in init;
      if p(xs[|xs| - 1]) then init + [xs[|xs| - 1]] else init
  }

  /** `[...new Set(xs)]`: the first occurrence of every element. */
  function Distinct<T(==, !new)>(xs: seq<T>): (r: seq<T>)
    ensures NoDup(r)
    ensures forall y :: y in r <==> y in xs
    ensures NoDup(xs) ==> r == xs
  {
    if xs == [] then []
    else
      var init := Distinct(xs[..|xs| - 1]);
      assert xs == xs[..|xs| - 1] + [xs[|xs| - 1]];
      if xs[|xs| - 1] in init then init else init + [xs[|xs| - 1]]
  }

  /** Adding one element to a list through a JavaScript Set appends it only when it is new. */
  lemma DistinctSnoc<T(!new)>(xs: seq<T>, x: T)
    requires NoDup(xs)
    ensures Distinct(xs + [x]) == if x in xs then xs else xs + [x]
  {
    assert (xs + [x])[..|xs|] == xs;
  }

  lemma WithoutOne<T(!new)>(y: T, x: T)
    ensures Without([y], x) == if y == x then [] else [y]
  {
    assert [y][..0] == [];
  }

  /** Removing keeps the order: it acts on each part of a list by itself. */
  lemma {:induction false} WithoutConcat<T(!new)>(a: seq<T>, b: seq<T>, x: T)
    ensures Without(a + b, x) == Without(a, x) + Without(b, x)
  {
    if b == [] {
      assert a + b == a;
    } else {
      var init, last := b[..|b| - 1], b[|b| - 1];
      WithoutConcat(a, init, x);
      assert (a + b)[..|a + b| - 1] == a + init && (a + b)[|a + b| - 1] == last;
    }
  }

  lemma FilterOne<T(!new)>(y: T, p: T -> bool)
    ensures Filter([y], p) == if p(y) then [y] else []
  {
    assert [y][..0] == [];
  }

  lemma {:induction false} FilterNone<T(!new)>(xs: seq<T>, p: T -> bool)
    requires forall y :: y in xs ==> !p(y)
    ensures Filter(xs, p) == []
  {
    if xs != [] {
      FilterNone(xs[..|xs| - 1], p);
    }
  }

  lemma {:induction false} FilterConcat<T(!new)>(a: seq<T>, b: seq<T>, p: T -> bool)
    ensures Filter(a + b, p) == Filter(a, p) + Filter(b, p)
  {
    if b == [] {
      assert a + b == a;
    } else {
      var init, last := b[..|b| - 1], b[|b| - 1];
      FilterConcat(a, init, p);
      assert (a + b)[..|a + b| - 1] == a + init && (a + b)[|a + b| - 1] == last;
    }
  }

  lemma DistinctNew<T(!new)>(xs: seq<T>, x: T)
    requires x !in xs
    ensures Distinct(xs + [x]) == Distinct(xs) + [x]
  {
    assert (xs + [x])[..|xs|] == xs;
  }

  /** Dropping repetitions keeps first occurrences: what the beginning of a list yields stays in front. */
  lemma {:induction false} DistinctPrefix<T(!new)>(a: seq<T>, b: seq<T>)
    ensures Distinct(a) <= Distinct(a + b)
  {
    if b == [] {
      assert a + b == a;
    } else {
      var init := b[..|b| - 1];
      DistinctPrefix(a, init);
      assert (a + b)[..|a + b| - 1] == a + init;
    }
  }

  /** What comes earlier in `ys` comes earlier in `xs`, before any occurrence of the later. */
  ghost predicate InOrder<T(!new)>(ys: seq<T>, xs: seq<T>) {
    forall a, b, j :: 0 <= a < b < |ys| && 0 <= j < |xs| && xs[j] == ys[b] ==> ys[a] in xs[..j]
  }

  /** Taking one more element of `xs` into `ys`, or passing it by. */
  lemma InOrderSnoc<T(!new)>(ys: seq<T>, xs: seq<T>, x: T)
    requires InOrder(ys, xs) && forall y :: y in ys ==> y in xs
    ensures InOrder(ys, xs + [x])
    ensures x !in xs ==> InOrder(ys + [x], xs + [x])
  {
    var all := xs + [x];
    forall a, b, j | 0 <= a < b < |ys| && 0 <= j < |all| && all[j] == ys[b] ensures ys[a] in all[..j] {
      assert ys[a] in ys && ys[b] in ys;
      assert all[..j] == if j < |xs| then xs[..j] else xs;
    }
    if x !in xs {
      forall a, j | 0 <= a < |ys| && 0 <= j < |all| && all[j] == x ensures ys[a] in all[..j] {
        assert ys[a] in ys && j == |xs| && all[..j] == xs;
      }
    }
  }

  lemma {:induction false} DistinctInOrder<T(!new)>(xs: seq<T>)
    ensures InOrder(Distinct(xs), xs)
  {
    if xs != [] {
      var init, last := xs[..|xs| - 1], xs[|xs| - 1];
      assert xs == init + [last];
      DistinctInOrder(init);
      InOrderSnoc(Distinct(init), init, last);
    }
  }

  lemma {:induction false} FilterInOrder<T(!new)>(xs: seq<T>, p: T -> bool)
    requires NoDup(xs)
    ensures InOrder(Filter(xs, p), xs)
  {
    if xs != [] {
      var init, last := xs[..|xs| - 1], xs[|xs| - 1];
      assert xs == init + [last] && last !in init;
      FilterInOrder(init, p);
      InOrderSnoc(Filter(init, p), init, last);
    }
  }

  lemma InOrderTransitive<T(!new)>(zs: seq<T>, ys: seq<T>, xs: seq<T>)
    requires InOrder(zs, ys) && InOrder(ys, xs) && forall z :: z in zs ==> z in ys
    ensures InOrder(zs, xs)
  {
    forall a, b, j | 0 <= a < b < |zs| && 0 <= j < |xs| && xs[j] == zs[b] ensures zs[a] in xs[..j] {
      assert zs[b] in ys;
      var k :| 0 <= k < |ys| && ys[k] == zs[b];
      assert zs[a] in ys[..k];
      var i :| 0 <= i < k && ys[i] == zs[a];
    }
  }

  lemma NoDupSize<T(!new)>(xs: seq<T>)
    requires NoDup(xs)
    ensures |Elems(xs)| == |xs|
  {
    if xs != [] {
      var init, last := xs[..|xs| - 1], xs[|xs| - 1];
      NoDupSize(init);
      assert Elems(xs) == Elems(init) + {last};
      assert last !in init;
    }
  }

  lemma SubsetSize<T>(a: set<T>, b: set<T>)
    requires a <= b
    ensures |a| <= |b|
  {
    assert b == a + (b - a);
  }
}
