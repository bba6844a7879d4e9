/** An ordered dictionary's key order, least recently used first. */
module Lru {
  ghost predicate Distinct(s: seq<int>) { forall i, j | 0 <= i < j < |s| :: s[i] != s[j] }

  /** Everything but x, in order: what remains before x is moved to the end, or when x is deleted. */
  function Without(order: seq<int>, x: int): seq<int> {
    if order == [] then []
    else if order[0] == x then Without(order[1..], x)
    else [order[0]] + Without(order[1..], x)
  }

  lemma {:induction false} WithoutDropsOnlyOne(order: seq<int>, x: int)
    requires Distinct(order)
    ensures Distinct(Without(order, x))
    ensures forall y :: y in Without(order, x) <==> y in order && y != x
  {
    if order != [] {
      WithoutDropsOnlyOne(order[1..], x);
      assert order == [order[0]] + order[1..];
      assert order[0] !in order[1..];
    }
  }

  lemma {:induction false} WithoutNothing(order: seq<int>, x: int)
    requires x !in order
    ensures Without(order, x) == order
  {
    if order != [] { WithoutNothing(order[1..], x); }
  }

  /** Taking the p-th of a distinct order out. */
  lemma {:induction false} WithoutTakesOut(order: seq<int>, p: nat)
    requires Distinct(order) && p < |order|
    ensures Without(order, order[p]) == order[..p] + order[p + 1..]
  {
    if p == 0 {
      WithoutNothing(order[1..], order[0]);
    } else {
      assert order[1..][..p - 1] == order[1..p];
      assert order == [order[0]] + order[1..];
      WithoutTakesOut(order[1..], p - 1);
      assert order[..p] == [order[0]] + order[1..p];
    }
  }

  /** Two entries of `part` come in the order in which they come in `whole`. */
  ghost predicate InOrder(part: seq<int>, whole: seq<int>) {
    forall a, b | 0 <= a < b < |part| :: Follows(whole, part[a], part[b])
  }

  ghost predicate Follows(order: seq<int>, x: int, y: int) {
    exists p, q :: 0 <= p < q < |order| && order[p] == x && order[q] == y
  }

  lemma OrderFromTail(t: seq<int>, head: int, tail: seq<int>)
    requires InOrder(t, tail) && forall x | x in t :: x in tail
    ensures InOrder(t, [head] + tail) && InOrder([head] + t, [head] + tail)
  {
    var whole, more := [head] + tail, [head] + t;
    forall a, b | 0 <= a < b < |t| ensures Follows(whole, t[a], t[b]) {
      assert Follows(tail, t[a], t[b]);
      var p, q :| 0 <= p < q < |tail| && tail[p] == t[a] && tail[q] == t[b];
      assert whole[p + 1] == t[a] && whole[q + 1] == t[b];
    }
    forall a, b | 0 <= a < b < |more| ensures Follows(whole, more[a], more[b]) {
      if a > 0 {
        assert more[a] == t[a - 1] && more[b] == t[b - 1] && Follows(whole, t[a - 1], t[b - 1]);
      } else {
        assert more[b] == t[b - 1] && t[b - 1] in tail;
        var q :| 0 <= q < |tail| && tail[q] == t[b - 1];
        assert whole[0] == more[0] && whole[q + 1] == more[b];
      }
    }
  }
}
