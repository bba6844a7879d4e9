/** Small shared datatypes. */
module Common {
  datatype Option<+T> = None | Some(value: T)

  function Max(a: int, b: int): int { if a >= b then a else b }

  function Min(a: int, b: int): int { if a <= b then a else b }

  ghost predicate Unrepeated<T>(s: seq<T>) { forall i, j | 0 <= i < j < |s| :: s[i] != s[j] }

  lemma {:induction false} UnrepeatedCardinality<T>(s: seq<T>)
    requires Unrepeated(s)
    ensures |set x | x in s| == |s|
  {
    if s != [] {
      var last := s[|s| - 1];
      var init := s[..|s| - 1];
      assert s == init + [last];
      UnrepeatedCardinality(init);
      assert (set x | x in s) == (set x | x in init) + {last};
    }
  }

  lemma {:induction false} CardinalityAtMostLength<T>(s: seq<T>)
    ensures |set x | x in s| <= |s|
  {
    if s == [] {
      assert (set x | x in s) == {};
    } else {
      var last := s[|s| - 1];
      var init := s[..|s| - 1];
      assert s == init + [last];
      CardinalityAtMostLength(init);
      assert (set x | x in s) == (set x | x in init) + {last};
    }
  }

  lemma SubsetCardinality<T>(a: set<T>, b: set<T>)
    requires a <= b
    ensures |a| <= |b|
  {
    assert b * a == a;
    assert |b - a| == |b| - |b * a|;
  }

  /** Different entries, all taken from b, cannot be more than b has. */
  lemma UnrepeatedWithin<T>(a: seq<T>, b: seq<T>)
    requires Unrepeated(a) && forall i | 0 <= i < |a| :: a[i] in b
    ensures |a| <= |b|
  {
    UnrepeatedCardinality(a);
    CardinalityAtMostLength(b);
    SubsetCardinality(set x | x in a, set x | x in b);
  }
}
