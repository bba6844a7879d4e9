/** Holdings coverage and the overlap of two holdings snapshots. Weights are real percentages. */
module EtfHoldings {
  import opened Common
  import opened Lru

  /** A weight as published; a decimal may also be no number. */
  datatype Amount = Finite(value: real) | NotFinite

  /** `isin` is None for a missing or malformed identifier. */
  datatype Holding = Holding(isin: Option<int>, weight: Option<Amount>)

  datatype Snapshot = Snapshot(current: bool, secondary: bool, asOf: int, holdings: seq<Holding>)

  /** A dictionary with its key order. */
  datatype Weights = Weights(keys: seq<int>, values: map<int, real>)

  const NO_WEIGHTS := Weights([], map[])

  datatype Reason = MissingOrStale | Unverified | InvalidOrDuplicate | Incomplete

  datatype Coverage = Coverage(reason: Option<Reason>, coverage: Option<real>, weights: Weights, asOf: Option<int>,
                               topTen: Option<real>)
  {
    predicate Valid() { reason.None? }
  }

  const MINIMUM_COVERAGE := 95.0
  const MAX_DATE_GAP_DAYS := 7

  // ---------------------------------------------------------------- sums over distinct keys

  function Sum(keys: seq<int>, f: int -> real): real {
    if keys == [] then 0.0 else f(keys[0]) + Sum(keys[1..], f)
  }

  lemma {:induction false} SumWithout(keys: seq<int>, k: int, f: int -> real)
    requires Distinct(keys) && k in keys
    ensures Sum(keys, f) == f(k) + Sum(Without(keys, k), f)
  {
    if keys[0] == k {
      assert k !in keys[1..];
      WithoutNothing(keys[1..], k);
    } else {
      assert k in keys[1..];
      SumWithout(keys[1..], k, f);
    }
  }

  /** Keys at which f vanishes do not matter. */
  lemma {:induction false} SumOverMore(keys: seq<int>, all: seq<int>, f: int -> real)
    requires Distinct(keys) && Distinct(all)
    requires forall k | k in keys :: k in all
    requires forall k | k in all && k !in keys :: f(k) == 0.0
    ensures Sum(keys, f) == Sum(all, f)
    decreases |keys|
  {
    if keys == [] {
      SumOfZeros(all, f);
    } else {
      var k := keys[0];
      assert k in keys && keys == [k] + keys[1..];
      SumWithout(all, k, f);
      WithoutDropsOnlyOne(all, k);
      SumOverMore(keys[1..], Without(all, k), f);
    }
  }

  lemma {:induction false} SumOfZeros(keys: seq<int>, f: int -> real)
    requires forall k | k in keys :: f(k) == 0.0
    ensures Sum(keys, f) == 0.0
  {
    if keys != [] {
      var k := keys[0];
      assert k in keys;
      SumOfZeros(keys[1..], f);
    }
  }

  lemma {:induction false} SumIsMonotone(keys: seq<int>, f: int -> real, g: int -> real)
    requires forall k | k in keys :: f(k) <= g(k)
    ensures Sum(keys, f) <= Sum(keys, g)
  {
    if keys != [] {
      var k := keys[0];
      assert k in keys;
      SumIsMonotone(keys[1..], f, g);
    }
  }

  lemma {:induction false} SumsAdd(keys: seq<int>, f: int -> real, g: int -> real, h: int -> real)
    requires forall k :: h(k) == f(k) + g(k)
    ensures Sum(keys, h) == Sum(keys, f) + Sum(keys, g)
  {
    if keys != [] { SumsAdd(keys[1..], f, g, h); }
  }

  lemma {:induction false} SumsAgree(keys: seq<int>, f: int -> real, g: int -> real)
    requires forall k | k in keys :: f(k) == g(k)
    ensures Sum(keys, f) == Sum(keys, g)
  {
    if keys != [] {
      var k := keys[0];
      assert k in keys;
      SumsAgree(keys[1..], f, g);
    }
  }

  // ---------------------------------------------------------------- coverage

  ghost predicate WellFormed(w: Weights) {
    && Distinct(w.keys) && (forall k :: k in w.keys <==> k in w.values)
    && (forall k | k in w.values :: 0.0 <= w.values[k] <= 100.0)
  }

  /** The weight of a constituent, nothing when it is not held. */
  function WeightOf(w: Weights): int -> real { k => if k in w.values then w.values[k] else 0.0 }

  function Total(w: Weights): real { Sum(w.keys, WeightOf(w)) }

  predicate Considered(h: Holding) { h.isin.Some? && h.weight.Some? }

  /** Every identified weight is a percentage and no constituent is listed twice. */
  ghost predicate Acceptable(holdings: seq<Holding>) {
    && (forall i | 0 <= i < |holdings| && Considered(holdings[i]) ::
          holdings[i].weight.value.Finite? && 0.0 <= holdings[i].weight.value.value <= 100.0)
    && (forall i, j | 0 <= i < j < |holdings| && Considered(holdings[i]) && Considered(holdings[j]) ::
          holdings[i].isin != holdings[j].isin)
  }

  /** The dictionary holds exactly the identified weights. */
  ghost predicate Reflects(w: Weights, holdings: seq<Holding>) {
    && WellFormed(w)
    && (forall i | 0 <= i < |holdings| && Considered(holdings[i]) ::
          holdings[i].weight.value.Finite? && holdings[i].isin.value in w.values
          && w.values[holdings[i].isin.value] == holdings[i].weight.value.value)
    && (forall k | k in w.values ::
          exists i :: 0 <= i < |holdings| && Considered(holdings[i]) && holdings[i].isin.value == k)
  }

  lemma ReflectsOneMore(w: Weights, holdings: seq<Holding>, h: Holding)
    requires Reflects(w, holdings) && Considered(h) && h.isin.value !in w.values
    requires h.weight.value.Finite? && 0.0 <= h.weight.value.value <= 100.0
    ensures Reflects(Weights(w.keys + [h.isin.value], w.values[h.isin.value := h.weight.value.value]), holdings + [h])
  {
    var v := Weights(w.keys + [h.isin.value], w.values[h.isin.value := h.weight.value.value]);
    var all := holdings + [h];
    assert all[|holdings|] == h;
    forall k | k in v.values ensures exists i :: 0 <= i < |all| && Considered(all[i]) && all[i].isin.value == k {
      if k != h.isin.value {
        var i :| 0 <= i < |holdings| && Considered(holdings[i]) && holdings[i].isin.value == k;
        assert all[i] == holdings[i];
      }
    }
  }

  lemma AcceptableOneMore(holdings: seq<Holding>, h: Holding, w: Weights)
    requires Acceptable(holdings) && Reflects(w, holdings)
    ensures Acceptable(holdings + [h]) <==>
      !Considered(h) || (h.isin.value !in w.values && h.weight.value.Finite? && 0.0 <= h.weight.value.value <= 100.0)
  {
    var all := holdings + [h];
    assert all[|holdings|] == h;
    forall i | 0 <= i < |holdings| ensures all[i] == holdings[i] { }
    if Considered(h) && h.isin.value in w.values {
      var i :| 0 <= i < |holdings| && Considered(holdings[i]) && holdings[i].isin.value == h.isin.value;
      assert all[i] == holdings[i];
    }
  }

  lemma AcceptablePrefix(holdings: seq<Holding>, n: nat)
    requires n <= |holdings| && !Acceptable(holdings[..n])
    ensures !Acceptable(holdings)
  {
    var part := holdings[..n];
    assert forall i | 0 <= i < n :: part[i] == holdings[i];
  }

  /** The loop over the holdings; false for an invalid weight or a repeated constituent. */
  method ReadWeights(holdings: seq<Holding>) returns (weights: Weights, ok: bool)
    ensures ok <==> Acceptable(holdings)
    ensures ok ==> Reflects(weights, holdings)
  {
    weights := NO_WEIGHTS;
    for n := 0 to |holdings|
      invariant Acceptable(holdings[..n]) && Reflects(weights, holdings[..n])
    {
      var h := holdings[n];
      assert holdings[..n + 1] == holdings[..n] + [h];
      AcceptableOneMore(holdings[..n], h, weights);
      if Considered(h) {
        var isin, weight := h.isin.value, h.weight.value;
        if isin in weights.values || !weight.Finite? || !(0.0 <= weight.value <= 100.0) {
          AcceptablePrefix(holdings, n + 1);
          return NO_WEIGHTS, false;
        }
        ReflectsOneMore(weights, holdings[..n], h);
        weights := Weights(weights.keys + [isin], weights.values[isin := weight.value]);
      }
    }
    assert holdings[..|holdings|] == holdings;
    ok := true;
  }

  // ---------------------------------------------------------------- the ten largest

  const CONCENTRATION_SIZE := 10

  function Inserted(k: int, sorted: seq<int>, f: int -> real): seq<int> {
    if sorted == [] || f(k) >= f(sorted[0]) then [k] + sorted else [sorted[0]] + Inserted(k, sorted[1..], f)
  }

  /** The keys by falling weight. */
  function Sorted(keys: seq<int>, f: int -> real): seq<int> {
    if keys == [] then [] else Inserted(keys[0], Sorted(keys[1..], f), f)
  }

  ghost predicate Descending(s: seq<int>, f: int -> real) { forall i, j | 0 <= i < j < |s| :: f(s[i]) >= f(s[j]) }

  lemma {:induction false} InsertedDescends(k: int, sorted: seq<int>, f: int -> real)
    requires Descending(sorted, f) && Distinct(sorted) && k !in sorted
    ensures Descending(Inserted(k, sorted, f), f) && Distinct(Inserted(k, sorted, f))
    ensures forall x :: x in Inserted(k, sorted, f) <==> x == k || x in sorted
  {
    if sorted != [] && f(k) < f(sorted[0]) {
      var tail := sorted[1..];
      assert sorted == [sorted[0]] + tail;
      InsertedDescends(k, tail, f);
      var rest := Inserted(k, tail, f);
      forall i | 0 <= i < |rest| ensures f(sorted[0]) >= f(rest[i]) && sorted[0] != rest[i] {
        assert rest[i] == k || rest[i] in tail;
      }
    }
  }

  lemma {:induction false} SortedDescends(keys: seq<int>, f: int -> real)
    requires Distinct(keys)
    ensures Descending(Sorted(keys, f), f) && Distinct(Sorted(keys, f))
    ensures forall x :: x in Sorted(keys, f) <==> x in keys
  {
    if keys != [] {
      assert keys == [keys[0]] + keys[1..];
      SortedDescends(keys[1..], f);
      InsertedDescends(keys[0], Sorted(keys[1..], f), f);
    }
  }

  lemma DescendingTail(sorted: seq<int>, f: int -> real)
    requires Descending(sorted, f) && Distinct(sorted) && sorted != []
    ensures Descending(sorted[1..], f) && Distinct(sorted[1..])
    ensures forall k :: k in sorted <==> k == sorted[0] || k in sorted[1..]
    ensures forall k | k in sorted :: f(k) <= f(sorted[0])
  {
    assert sorted == [sorted[0]] + sorted[1..];
  }

  lemma OneKeyOut(keys: seq<int>, k: int, f: int -> real)
    requires Distinct(keys) && k in keys
    ensures Distinct(Without(keys, k)) && |Without(keys, k)| == |keys| - 1
    ensures forall x :: x in Without(keys, k) <==> x in keys && x != k
    ensures Sum(keys, f) == f(k) + Sum(Without(keys, k), f)
  {
    SumWithout(keys, k, f);
    WithoutDropsOnlyOne(keys, k);
    var p :| 0 <= p < |keys| && keys[p] == k;
    WithoutTakesOut(keys, p);
  }

  lemma OneMoreFirst(sorted: seq<int>, n: nat, f: int -> real)
    requires n > 0 && sorted != []
    ensures Sum(sorted[..Min(n, |sorted|)], f) == f(sorted[0]) + Sum(sorted[1..][..Min(n - 1, |sorted| - 1)], f)
  {
    assert sorted[..Min(n, |sorted|)][1..] == sorted[1..][..Min(n - 1, |sorted| - 1)];
  }

  /** Up to n different keys weigh no more than the first n by falling weight. */
  lemma {:induction false} FirstAreHeaviest(sorted: seq<int>, f: int -> real, n: nat, keys: seq<int>)
    requires Descending(sorted, f) && Distinct(sorted) && forall k | k in sorted :: f(k) >= 0.0
    requires Distinct(keys) && |keys| <= n && forall k | k in keys :: k in sorted
    ensures Sum(keys, f) <= Sum(sorted[..Min(n, |sorted|)], f)
    decreases |sorted|
  {
    if keys == [] {
      SumOfFirst(sorted, f, n);
    } else {
      var k := keys[0];
      assert k in keys;
      DescendingTail(sorted, f);
      OneMoreFirst(sorted, n, f);
      var out := if sorted[0] in keys then sorted[0] else k;
      OneKeyOut(keys, out, f);
      FirstAreHeaviest(sorted[1..], f, n - 1, Without(keys, out));
    }
  }

  lemma SumOfFirst(sorted: seq<int>, f: int -> real, n: nat)
    requires forall k | k in sorted :: f(k) >= 0.0
    ensures Sum(sorted[..Min(n, |sorted|)], f) >= 0.0
  {
    var first := sorted[..Min(n, |sorted|)];
    forall k | k in first ensures f(k) >= 0.0 { assert k in sorted; }
    SumOfZeros(first, k => 0.0);
    SumIsMonotone(first, k => 0.0, f);
  }

  ghost predicate Choice(w: Weights, keys: seq<int>) {
    Distinct(keys) && |keys| <= 10 && forall k | k in keys :: k in w.values
  }

  /** The greatest total that up to ten constituents reach. */
  ghost predicate TopTotal(w: Weights, x: real) {
    && (exists keys :: Choice(w, keys) && Sum(keys, WeightOf(w)) == x)
    && (forall keys | Choice(w, keys) :: Sum(keys, WeightOf(w)) <= x)
  }

  /** The sum of the ten largest weights. */
  function TopTen(w: Weights): real {
    var sorted := Sorted(w.keys, WeightOf(w));
    Sum(sorted[..Min(CONCENTRATION_SIZE, |sorted|)], WeightOf(w))
  }

  lemma TopTenIsTheTopTotal(w: Weights)
    requires WellFormed(w)
    ensures TopTotal(w, TopTen(w)) && 0.0 <= TopTen(w) <= Total(w)
  {
    var f, sorted := WeightOf(w), Sorted(w.keys, WeightOf(w));
    SortedDescends(w.keys, f);
    var first := sorted[..Min(CONCENTRATION_SIZE, |sorted|)];
    forall k | k in first ensures k in w.values { assert k in sorted; }
    assert Choice(w, first);
    forall keys | Choice(w, keys) ensures Sum(keys, f) <= TopTen(w) {
      FirstAreHeaviest(sorted, f, CONCENTRATION_SIZE, keys);
    }
    assert Choice(w, []);
    SortedDescends(first, f);
    FirstAreWithin(first, w.keys, f);
  }

  /** Part of the keys weighs no more than all of them. */
  lemma {:induction false} FirstAreWithin(part: seq<int>, keys: seq<int>, f: int -> real)
    requires Distinct(part) && Distinct(keys) && forall k | k in part :: k in keys
    requires forall k | k in keys :: f(k) >= 0.0
    ensures Sum(part, f) <= Sum(keys, f)
  {
    if part == [] {
      SumOfZeros(keys, k => 0.0);
      SumIsMonotone(keys, k => 0.0, f);
    } else {
      var k := part[0];
      assert k in part && part == [k] + part[1..];
      SumWithout(keys, k, f);
      WithoutDropsOnlyOne(keys, k);
      FirstAreWithin(part[1..], Without(keys, k), f);
    }
  }

  /** What `holdings_coverage` returns for a snapshot. */
  ghost predicate Covers(c: Coverage, snapshot: Option<Snapshot>) {
    && WellFormed(c.weights)
    && (c.reason == Some(MissingOrStale) <==> snapshot.None? || !snapshot.value.current)
    && (c.topTen.Some? <==> c.Valid()) && (c.topTen.Some? ==> TopTotal(c.weights, c.topTen.value))
    && (c.asOf.Some? <==> c.coverage.Some?) && (c.asOf.Some? ==> snapshot.Some? && c.asOf == Some(snapshot.value.asOf))
    && (snapshot.Some? && snapshot.value.current ==>
          && (c.reason == Some(Unverified) <==> snapshot.value.secondary)
          && (!snapshot.value.secondary ==>
                && (c.reason == Some(InvalidOrDuplicate) <==> !Acceptable(snapshot.value.holdings))
                && (Acceptable(snapshot.value.holdings) ==>
                      && Reflects(c.weights, snapshot.value.holdings) && c.coverage == Some(Total(c.weights))
                      && (c.Valid() <==> 95.0 <= Total(c.weights) <= 100.0))))
  }

  /** `holdings_coverage` */
  method HoldingsCoverage(snapshot: Option<Snapshot>) returns (c: Coverage)
    ensures Covers(c, snapshot)
  {
    if snapshot.None? || !snapshot.value.current {
      return Coverage(Some(MissingOrStale), None, NO_WEIGHTS, None, None);
    }
    if snapshot.value.secondary { return Coverage(Some(Unverified), None, NO_WEIGHTS, None, None); }
    var weights, ok := ReadWeights(snapshot.value.holdings);
    if !ok { return Coverage(Some(InvalidOrDuplicate), None, NO_WEIGHTS, None, None); }
    var coverage := Total(weights);
    var valid := MINIMUM_COVERAGE <= coverage <= 100.0;
    TopTenIsTheTopTotal(weights);
    return Coverage(if valid then None else Some(Incomplete), Some(coverage), weights, Some(snapshot.value.asOf),
                    if valid then Some(TopTen(weights)) else None);
  }

  /** Every answer to a snapshot is the same but for the order of the dictionary. */
  lemma CoverageIsDetermined(c: Coverage, d: Coverage, snapshot: Option<Snapshot>)
    requires Covers(c, snapshot) && Covers(d, snapshot) && c.coverage.Some? && d.coverage.Some?
    requires Reflects(c.weights, snapshot.value.holdings) && Reflects(d.weights, snapshot.value.holdings)
    ensures c.weights.values == d.weights.values && c.asOf == d.asOf && c.topTen == d.topTen
  {
    WeightsAreDetermined(c.weights, d.weights, snapshot.value.holdings);
    if c.topTen.Some? && d.topTen.Some? { TopTotalIsUnique(c.weights, d.weights, c.topTen.value, d.topTen.value); }
  }

  lemma TopTotalIsUnique(v: Weights, w: Weights, x: real, y: real)
    requires v.values == w.values && TopTotal(v, x) && TopTotal(w, y)
    ensures x == y
  {
    var ks :| Choice(v, ks) && Sum(ks, WeightOf(v)) == x;
    var js :| Choice(w, js) && Sum(js, WeightOf(w)) == y;
    assert Choice(w, ks) && Choice(v, js);
    SumsAgree(ks, WeightOf(v), WeightOf(w));
    SumsAgree(js, WeightOf(v), WeightOf(w));
  }

  /** The dictionary of an acceptable snapshot does not depend on how it was built. */
  lemma WeightsAreDetermined(v: Weights, w: Weights, holdings: seq<Holding>)
    requires Reflects(v, holdings) && Reflects(w, holdings)
    ensures v.values == w.values && Total(v) == Total(w)
  {
    forall k ensures k in v.values <==> k in w.values {
      if k in v.values { var i :| 0 <= i < |holdings| && Considered(holdings[i]) && holdings[i].isin.value == k; }
      if k in w.values { var i :| 0 <= i < |holdings| && Considered(holdings[i]) && holdings[i].isin.value == k; }
    }
    forall k | k in v.values ensures v.values[k] == w.values[k] {
      var i :| 0 <= i < |holdings| && Considered(holdings[i]) && holdings[i].isin.value == k;
    }
    assert v.values == w.values;
    SumOverMore(v.keys, w.keys, WeightOf(v));
    SumsAgree(w.keys, WeightOf(v), WeightOf(w));
  }

  // ---------------------------------------------------------------- overlap

  function MinReal(x: real, y: real): real { if x <= y then x else y }

  /** The common part of two weights of one constituent. */
  function Shared(a: Weights, b: Weights): int -> real {
    k => if k in a.values && k in b.values then MinReal(a.values[k], b.values[k]) else 0.0
  }

  /** `SUM_MIN_COMMON_ISIN_WEIGHT_PERCENT` over the items of the left side. */
  function OverlapOf(a: Weights, b: Weights): real { Sum(a.keys, Shared(a, b)) }

  /** `holdings_overlap`: the percentage, present exactly when both sides are valid and close enough in time. */
  method HoldingsOverlap(left: Option<Snapshot>, right: Option<Snapshot>)
    returns (value: Option<real>, a: Coverage, b: Coverage)
    ensures Covers(a, left) && Covers(b, right)
    ensures value.Some? <==> a.Valid() && b.Valid() && -7 <= left.value.asOf - right.value.asOf <= 7
    ensures value.Some? ==> value.value == OverlapOf(a.weights, b.weights)
    ensures value.Some? ==> GreatestCommon(value.value, a.weights, b.weights)
  {
    a := HoldingsCoverage(left);
    b := HoldingsCoverage(right);
    value := if a.Valid() && b.Valid() && Aligned(left, right) then Some(OverlapOf(a.weights, b.weights)) else None;
    OverlapIsTheGreatestCommonPart(a.weights, b.weights);
  }

  /** A portfolio that is nowhere heavier than either side. */
  ghost predicate CommonPart(c: Weights, a: Weights, b: Weights) {
    WellFormed(c) && forall k :: WeightOf(c)(k) <= WeightOf(a)(k) && WeightOf(c)(k) <= WeightOf(b)(k)
  }

  /** The greatest total of a portfolio that is nowhere heavier than either side. */
  ghost predicate GreatestCommon(x: real, a: Weights, b: Weights) {
    (exists c :: CommonPart(c, a, b) && Total(c) == x) && (forall c | CommonPart(c, a, b) :: Total(c) <= x)
  }

  /** What both sides hold of the constituents of the left. */
  function SharedPart(a: Weights, b: Weights): Weights {
    Weights(a.keys, map k | k in a.keys :: Shared(a, b)(k))
  }

  lemma SharedPartIsCommon(a: Weights, b: Weights)
    requires WellFormed(a) && WellFormed(b)
    ensures CommonPart(SharedPart(a, b), a, b) && Total(SharedPart(a, b)) == OverlapOf(a, b)
  {
    SumsAgree(a.keys, WeightOf(SharedPart(a, b)), Shared(a, b));
  }

  lemma NoCommonPartIsHeavier(c: Weights, a: Weights, b: Weights)
    requires WellFormed(a) && WellFormed(b) && CommonPart(c, a, b)
    ensures Total(c) <= OverlapOf(a, b)
  {
    var all := Together(c.keys, a.keys);
    SumOverMore(c.keys, all, WeightOf(c));
    SumOverMore(a.keys, all, Shared(a, b));
    forall k | k in all ensures WeightOf(c)(k) <= Shared(a, b)(k) {
      assert WeightOf(c)(k) <= WeightOf(a)(k) && WeightOf(c)(k) <= WeightOf(b)(k);
    }
    SumIsMonotone(all, WeightOf(c), Shared(a, b));
  }

  /** The overlap is the greatest total that a portfolio nowhere heavier than either side can have. */
  lemma OverlapIsTheGreatestCommonPart(a: Weights, b: Weights)
    requires WellFormed(a) && WellFormed(b)
    ensures GreatestCommon(OverlapOf(a, b), a, b)
  {
    SharedPartIsCommon(a, b);
    forall c | CommonPart(c, a, b) ensures Total(c) <= OverlapOf(a, b) { NoCommonPartIsHeavier(c, a, b); }
  }

  predicate Aligned(left: Option<Snapshot>, right: Option<Snapshot>) {
    left.Some? && right.Some? &&
    -MAX_DATE_GAP_DAYS <= left.value.asOf - right.value.asOf <= MAX_DATE_GAP_DAYS
  }

  /** Keys of either side, each once. */
  function Together(a: seq<int>, b: seq<int>): (r: seq<int>)
    requires Distinct(a) && Distinct(b)
    ensures Distinct(r) && forall k :: k in r <==> k in a || k in b
    decreases |b|
  {
    if b == [] then a
    else
      var rest := Together(a, b[..|b| - 1]);
      var k := b[|b| - 1];
      assert b == b[..|b| - 1] + [k];
      if k in rest then rest else rest + [k]
  }

  /** The overlap and a side's total as sums over any wider list of constituents. */
  lemma OverlapOver(all: seq<int>, a: Weights, b: Weights)
    requires WellFormed(a) && Distinct(all) && forall k | k in a.keys :: k in all
    ensures OverlapOf(a, b) == Sum(all, Shared(a, b)) && Total(a) == Sum(all, WeightOf(a))
  {
    SumOverMore(a.keys, all, Shared(a, b));
    SumOverMore(a.keys, all, WeightOf(a));
  }

  lemma OverlapIsSymmetric(a: Weights, b: Weights)
    requires WellFormed(a) && WellFormed(b)
    ensures OverlapOf(a, b) == OverlapOf(b, a)
  {
    var all := Together(a.keys, b.keys);
    OverlapOver(all, a, b);
    OverlapOver(all, b, a);
    SumsAgree(all, Shared(a, b), Shared(b, a));
  }

  lemma OverlapIsBounded(a: Weights, b: Weights)
    requires WellFormed(a) && WellFormed(b)
    ensures 0.0 <= OverlapOf(a, b) <= MinReal(Total(a), Total(b))
  {
    var all := Together(a.keys, b.keys);
    OverlapOver(all, a, b);
    OverlapOver(all, b, a);
    SumOfZeros(all, k => 0.0);
    SumIsMonotone(all, k => 0.0, Shared(a, b));
    SumIsMonotone(all, Shared(a, b), WeightOf(a));
    SumIsMonotone(all, Shared(a, b), WeightOf(b));
  }

  lemma OverlapWithItself(a: Weights)
    requires WellFormed(a)
    ensures OverlapOf(a, a) == Total(a)
  {
    SumsAgree(a.keys, Shared(a, a), WeightOf(a));
  }

  function Plus(f: int -> real, g: int -> real): int -> real { k => f(k) + g(k) }

  lemma OneConstituent(a: Weights, b: Weights, c: Weights, k: int)
    requires WellFormed(a) && WellFormed(b) && WellFormed(c)
    ensures Plus(Shared(a, b), Shared(b, c))(k) <= Plus(WeightOf(b), Shared(a, c))(k)
  {
  }

  /** What b shares with both sides cannot exceed b unless the sides share it too. */
  lemma OverlapTriangle(a: Weights, b: Weights, c: Weights)
    requires WellFormed(a) && WellFormed(b) && WellFormed(c)
    ensures OverlapOf(a, b) + OverlapOf(b, c) <= Total(b) + OverlapOf(a, c)
  {
    var all := Together(Together(a.keys, b.keys), c.keys);
    OverlapOver(all, a, b);
    OverlapOver(all, b, c);
    OverlapOver(all, a, c);
    var f, g := Plus(Shared(a, b), Shared(b, c)), Plus(WeightOf(b), Shared(a, c));
    SumsAdd(all, Shared(a, b), Shared(b, c), f);
    SumsAdd(all, WeightOf(b), Shared(a, c), g);
    forall k | k in all ensures f(k) <= g(k) { OneConstituent(a, b, c, k); }
    SumIsMonotone(all, f, g);
  }

  /** For two valid sides the overlap is a percentage, the same from either side. */
  lemma ValidOverlapIsAPercentage(left: Option<Snapshot>, right: Option<Snapshot>, a: Coverage, b: Coverage)
    requires Covers(a, left) && Covers(b, right) && a.Valid() && b.Valid()
    ensures OverlapOf(a.weights, b.weights) == OverlapOf(b.weights, a.weights)
    ensures 0.0 <= OverlapOf(a.weights, b.weights) <= MinReal(a.coverage.value, b.coverage.value) <= 100.0
    ensures Aligned(left, right) <==> Aligned(right, left)
  {
    OverlapIsSymmetric(a.weights, b.weights);
    OverlapIsBounded(a.weights, b.weights);
  }
}
