/** The key under which a private conversation is found: both user ids, sorted and joined by a colon. */
module PairKey {

  /** JavaScript's default string order. It compares code units and `char` code points; the two orders agree on the
      text of UUIDs. */
  predicate Before(a: string, b: string) {
    if b == "" then false
    else if a == "" then true
    else a[0] < b[0] || (a[0] == b[0] && Before(a[1..], b[1..]))
  }

  function Key(a: string, b: string): string {
    if Before(b, a) then b + ":" + a else a + ":" + b
  }

  lemma {:induction false} BeforeIsTotal(a: string, b: string)
    ensures !(Before(a, b) && Before(b, a))
    ensures !Before(a, b) && !Before(b, a) ==> a == b
  {
    if a != "" && b != "" {
      BeforeIsTotal(a[1..], b[1..]);
      assert a == [a[0]] + a[1..] && b == [b[0]] + b[1..];
    }
  }

  /** After `k` equal characters `a` ends or has the smaller one. */
  ghost predicate EarlierAt(a: string, b: string, k: nat) {
    k <= |a| && k < |b| && a[..k] == b[..k] && (k == |a| || a[k] < b[k])
  }

  /** The order of dictionaries. */
  ghost predicate Earlier(a: string, b: string) {
    exists k: nat :: EarlierAt(a, b, k)
  }

  lemma EarlierTails(a: string, b: string, k: nat)
    requires a != "" && b != "" && a[0] == b[0]
    ensures EarlierAt(a, b, k + 1) <==> EarlierAt(a[1..], b[1..], k)
  {
    if k < |a| && k < |b| {
      assert a[..k + 1] == [a[0]] + a[1..][..k] && b[..k + 1] == [b[0]] + b[1..][..k];
    }
  }

  lemma {:induction false} BeforeIsEarlier(a: string, b: string)
    ensures Before(a, b) <==> Earlier(a, b)
  {
    if a == "" || b == "" || a[0] != b[0] {
      assert Before(a, b) ==> EarlierAt(a, b, 0);
      assert forall k: nat :: k > 0 && k <= |a| && k < |b| && a[..k] == b[..k] ==> a[..k][0] == b[..k][0];
    } else {
      BeforeIsEarlier(a[1..], b[1..]);
      if Earlier(a, b) {
        var k: nat :| EarlierAt(a, b, k);
        EarlierTails(a, b, k - 1);
      }
      if Earlier(a[1..], b[1..]) {
        var k: nat :| EarlierAt(a[1..], b[1..], k);
        EarlierTails(a, b, k);
      }
    }
  }

  /** The key is the two ids, the later one never in front, with a colon between them. */
  lemma KeyOutcome(a: string, b: string)
    ensures Key(a, b) == a + ":" + b || Key(a, b) == b + ":" + a
    ensures Earlier(a, b) ==> Key(a, b) == a + ":" + b
    ensures Earlier(b, a) ==> Key(a, b) == b + ":" + a
  {
    BeforeIsEarlier(a, b);
    BeforeIsEarlier(b, a);
    BeforeIsTotal(a, b);
  }

  /** The order of the two users does not matter. */
  lemma KeyIsSymmetric(a: string, b: string)
    ensures Key(a, b) == Key(b, a)
  {
    BeforeIsTotal(a, b);
  }

  /** A colon-free prefix is determined by the joined text. */
  lemma {:induction false} SplitAtColon(a: string, b: string, c: string, d: string)
    requires ':' !in a && ':' !in c
    requires a + ":" + b == c + ":" + d
    ensures a == c && b == d
  {
    var left, right := a + ":" + b, c + ":" + d;
    assert left[|a|] == ':' && right[|c|] == ':';
    assert forall i :: 0 <= i < |a| ==> left[i] != ':';
    assert forall i :: 0 <= i < |c| ==> right[i] != ':';
    assert |a| == |c|;
    assert left[..|a|] == a && right[..|c|] == c;
    assert left[|a| + 1..] == b && right[|c| + 1..] == d;
  }

  /** For ids without a colon, two pairs share a key exactly when they are the same unordered pair. */
  lemma KeyIdentifiesPair(a: string, b: string, c: string, d: string)
    requires ':' !in a && ':' !in b && ':' !in c && ':' !in d
    ensures Key(a, b) == Key(c, d) <==> {a, b} == {c, d}
  {
    var (x, y) := if Before(b, a) then (b, a) else (a, b);
    var (u, v) := if Before(d, c) then (d, c) else (c, d);
    if Key(a, b) == Key(c, d) {
      SplitAtColon(x, y, u, v);
      assert {a, b} == {x, y} && {c, d} == {u, v};
    }
    if {a, b} == {c, d} {
      KeyIsSymmetric(a, b);
      SamePair(a, b, c, d);
    }
  }

  lemma SamePair(a: string, b: string, c: string, d: string)
    requires {a, b} == {c, d}
    ensures (a == c && b == d) || (a == d && b == c)
  {
    assert a in {c, d} && b in {c, d} && c in {a, b} && d in {a, b};
  }

  /** With colons in ids two different pairs can collide. */
  lemma ColonsCollide()
    ensures Key("a", "b:c") == Key("a:b", "c") && {"a", "b:c"} != {"a:b", "c"}
  {
    assert "a" + ":" + "b:c" == "a:b:c" == "a:b" + ":" + "c";
    assert "a" !in {"a:b", "c"};
  }
}
