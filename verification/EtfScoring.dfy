/** The ETF rule engine: piecewise scores, the weighted average, risk gates and the recommendation. Values are real
    numbers; a metric, fact or snapshot that is missing, stale or without enough history is `None`. */
module EtfScoring {
  import opened Common

  // ---------------------------------------------------------------- piecewise-linear tables

  type Point = (real, real)

  /** Tables are sorted by input, with distinct inputs. */
  ghost predicate Table(points: seq<Point>) {
    points != [] && forall i | 0 <= i < |points| - 1 :: points[i].0 < points[i + 1].0
  }

  function Segment(v: real, p: Point, q: Point): real {
    if p.0 == q.0 then p.1 else p.1 + (q.1 - p.1) * (v - p.0) / (q.0 - p.0)
  }

  /** The broken line through the points, continued flat on both sides. */
  function Line(v: real, points: seq<Point>): real
    requires points != []
  {
    if v <= points[0].0 || |points| == 1 then points[0].1
    else if v <= points[1].0 then Segment(v, points[0], points[1])
    else Line(v, points[1..])
  }

  lemma SegmentEnds(p: Point, q: Point)
    requires p.0 < q.0
    ensures Segment(p.0, p, q) == p.1 && Segment(q.0, p, q) == q.1
  {
    assert (q.1 - p.1) * (q.0 - p.0) / (q.0 - p.0) == q.1 - p.1;
    assert (q.1 - p.1) * (p.0 - p.0) == 0.0;
  }

  lemma {:induction false} LineBeyondTheEnd(v: real, points: seq<Point>)
    requires Table(points) && v >= points[|points| - 1].0
    ensures points[0].0 <= v && Line(v, points) == points[|points| - 1].1
  {
    if |points| > 1 {
      LineBeyondTheEnd(v, points[1..]);
      assert points[0].0 < points[1].0;
      SegmentEnds(points[0], points[1]);
    }
  }

  lemma LineOneFurther(v: real, points: seq<Point>, n: nat)
    requires n + 1 < |points| && points[n].0 < v
    ensures Line(v, points[n..]) ==
            if v <= points[n + 1].0 then Segment(v, points[n], points[n + 1]) else Line(v, points[n + 1..])
  {
    assert points[n..][1..] == points[n + 1..];
  }

  /** r lies on the straight line through p and q at v. */
  predicate OnTheLine(r: real, v: real, p: Point, q: Point) {
    (r - p.1) * (q.0 - p.0) == (q.1 - p.1) * (v - p.0)
  }

  lemma SegmentIsStraight(v: real, p: Point, q: Point)
    requires p.0 < q.0
    ensures OnTheLine(Segment(v, p, q), v, p, q)
  {
    var rise := (q.1 - p.1) * (v - p.0);
    assert rise / (q.0 - p.0) * (q.0 - p.0) == rise;
  }

  lemma {:induction false} Ascending(points: seq<Point>, i: nat, j: nat)
    requires Table(points) && i < j < |points|
    ensures points[i].0 < points[j].0
  {
    if i + 1 < j { Ascending(points, i, j - 1); }
  }

  /** Between two neighbouring points the table is the straight line through them. */
  lemma {:induction false} LineInterpolates(v: real, points: seq<Point>, i: nat)
    requires Table(points) && i + 1 < |points| && points[i].0 <= v <= points[i + 1].0
    ensures OnTheLine(Line(v, points), v, points[i], points[i + 1])
    decreases i
  {
    var p, q := points[i], points[i + 1];
    assert p.0 < q.0;
    if i == 0 {
      if p.0 < v { SegmentIsStraight(v, p, q); } else { assert (q.1 - p.1) * (v - p.0) == 0.0; }
    } else {
      Ascending(points, 0, i);
      if i > 1 { Ascending(points, 1, i); }
      if points[1].0 < v {
        LineInterpolates(v, points[1..], i - 1);
      } else {
        assert i == 1 && v == p.0;
        SegmentEnds(points[0], p);
        assert (q.1 - p.1) * (v - p.0) == 0.0;
      }
    }
  }

  /** `_piecewise`: flat outside the table, straight between neighbouring points. */
  method Piecewise(v: real, points: seq<Point>) returns (r: real)
    requires Table(points)
    ensures r == Line(v, points)
    ensures v <= points[0].0 ==> r == points[0].1
    ensures v >= points[|points| - 1].0 ==> r == points[|points| - 1].1
    ensures forall i: nat | i + 1 < |points| && points[i].0 <= v <= points[i + 1].0 ::
      OnTheLine(r, v, points[i], points[i + 1])
  {
    forall i: nat | i + 1 < |points| && points[i].0 <= v <= points[i + 1].0
      ensures OnTheLine(Line(v, points), v, points[i], points[i + 1])
    {
      LineInterpolates(v, points, i);
    }
    if v >= points[|points| - 1].0 { LineBeyondTheEnd(v, points); }
    var last := points[|points| - 1];
    if v <= points[0].0 { return points[0].1; }
    if v >= last.0 {
      LineBeyondTheEnd(v, points);
      return last.1;
    }
    for n := 0 to |points| - 1
      invariant points[n].0 < v && Line(v, points) == Line(v, points[n..])
    {
      LineOneFurther(v, points, n);
      if points[n].0 <= v <= points[n + 1].0 { return Segment(v, points[n], points[n + 1]); }
    }
    return last.1;
  }

  ghost predicate Rising(points: seq<Point>) { forall i | 0 <= i < |points| - 1 :: points[i].1 <= points[i + 1].1 }

  ghost predicate Falling(points: seq<Point>) { forall i | 0 <= i < |points| - 1 :: points[i].1 >= points[i + 1].1 }

  lemma Proportion(a: real, b: real, d: real, h: real)
    requires 0.0 <= a <= b <= d && 0.0 < d && 0.0 <= h
    ensures 0.0 <= h * a / d <= h * b / d <= h
  {
    var x, y := h * a / d, h * b / d;
    assert x * d == h * a && y * d == h * b;
    assert 0.0 <= h * a <= h * b <= h * d by {
      assert h * (b - a) >= 0.0 && h * (d - b) >= 0.0;
    }
    Dividing(0.0, x, d);
    Dividing(x, y, d);
    Dividing(y, h, d);
  }

  lemma Dividing(x: real, y: real, d: real)
    requires 0.0 < d && x * d <= y * d
    ensures x <= y
  {
    assert (y - x) * d >= 0.0;
  }

  lemma RisingSegment(v: real, w: real, p: Point, q: Point)
    requires p.0 < q.0 && p.1 <= q.1 && p.0 <= v <= w <= q.0
    ensures p.1 <= Segment(v, p, q) <= Segment(w, p, q) <= q.1
  {
    Proportion(v - p.0, w - p.0, q.0 - p.0, q.1 - p.1);
  }

  lemma {:induction false} RisingLine(v: real, w: real, points: seq<Point>)
    requires Table(points) && Rising(points) && v <= w
    ensures points[0].1 <= Line(v, points) <= Line(w, points) <= points[|points| - 1].1
    decreases |points|
  {
    if |points| > 1 {
      var p, q := points[0], points[1];
      assert p.0 < q.0 && p.1 <= q.1;
      RisingLine(v, w, points[1..]);
      if p.0 < v <= q.0 { RisingSegment(v, if w <= q.0 then w else q.0, p, q); }
      if p.0 < w <= q.0 { RisingSegment(w, w, p, q); }
    }
  }

  function Mirrored(points: seq<Point>): seq<Point> {
    seq(|points|, i requires 0 <= i < |points| => (points[i].0, -points[i].1))
  }

  lemma {:induction false} MirroredLine(v: real, points: seq<Point>)
    requires Table(points)
    ensures Table(Mirrored(points)) && Line(v, Mirrored(points)) == -Line(v, points)
  {
    if v > points[0].0 && |points| > 1 {
      if v <= points[1].0 {
        var p, q := points[0], points[1];
        assert (-q.1 + p.1) * (v - p.0) == -((q.1 - p.1) * (v - p.0));
      } else {
        assert Mirrored(points)[1..] == Mirrored(points[1..]);
        MirroredLine(v, points[1..]);
      }
    }
  }

  lemma FallingLine(v: real, w: real, points: seq<Point>)
    requires Table(points) && Falling(points) && v <= w
    ensures points[0].1 >= Line(v, points) >= Line(w, points) >= points[|points| - 1].1
  {
    MirroredLine(v, points);
    MirroredLine(w, points);
    RisingLine(v, w, Mirrored(points));
  }

  const RETURN_POINTS: seq<Point> := [(-50.0, 0.0), (0.0, 50.0), (25.0, 100.0)]
  const MOMENTUM_POINTS: seq<Point> := [(-20.0, 0.0), (0.0, 50.0), (20.0, 100.0)]
  const DRAWDOWN_POINTS: seq<Point> := [(-60.0, 0.0), (-10.0, 70.0), (0.0, 100.0)]
  const VOLATILITY_POINTS: seq<Point> := [(0.0, 100.0), (25.0, 60.0), (60.0, 0.0)]
  const VOLUME_POINTS: seq<Point> := [(0.0, 0.0), (10000.0, 60.0), (500000.0, 100.0)]
  const SPREAD_POINTS: seq<Point> := [(0.0, 100.0), (1.0, 60.0), (5.0, 0.0)]
  const TRACKING_POINTS: seq<Point> := [(0.0, 100.0), (1.0, 60.0), (3.0, 0.0)]
  const COST_POINTS: seq<Point> := [(0.0, 100.0), (0.5, 70.0), (1.5, 20.0), (3.0, 0.0)]
  const PREMIUM_POINTS: seq<Point> := [(0.0, 100.0), (1.0, 70.0), (5.0, 0.0)]
  const TOP_TEN_POINTS: seq<Point> := [(0.0, 100.0), (40.0, 70.0), (70.0, 30.0), (100.0, 0.0)]

  /** The tables in which more is better, and those in which less is. */
  ghost predicate Up(points: seq<Point>) {
    Table(points) && Rising(points) && points[0].1 == 0.0 && points[|points| - 1].1 == 100.0
  }

  ghost predicate Down(points: seq<Point>) {
    Table(points) && Falling(points) && points[0].1 == 100.0 && points[|points| - 1].1 == 0.0
  }

  lemma RisingTables()
    ensures Up(RETURN_POINTS) && Up(MOMENTUM_POINTS) && Up(DRAWDOWN_POINTS) && Up(VOLUME_POINTS)
  {
  }

  lemma FallingTables()
    ensures Down(VOLATILITY_POINTS) && Down(SPREAD_POINTS) && Down(TRACKING_POINTS) && Down(PREMIUM_POINTS)
  {
  }

  lemma LongerFallingTables()
    ensures Down(COST_POINTS) && Down(TOP_TEN_POINTS)
  {
  }

  // ---------------------------------------------------------------- evidence and factor scores

  datatype Nav = Nav(value: real, date: int, currency: int)
  datatype Price = Price(value: real, date: int, unit: int)
  datatype Aum = Aum(value: real, inr: bool)

  datatype Evidence = Evidence(
    return1m: Option<real>, return3m: Option<real>, return6m: Option<real>, return1y: Option<real>,
    momentum: Option<real>, drawdown: Option<real>, volatility: Option<real>,
    volume: Option<real>, spread: Option<real>, trackingError: Option<real>, trackingDifference: Option<real>,
    expenseRatio: Option<real>, nav: Option<Nav>, price: Option<Price>, aum: Option<Aum>, topTen: Option<real>,
    mandatoryTechnical: bool, ready: bool)

  function Abs(x: real): real { if x < 0.0 then -x else x }

  /** Premium or discount in percent of the NAV; the gate, unlike the score, does not compare currencies. */
  function Premium(e: Evidence, sameCurrency: bool): Option<real> {
    if e.nav.None? || e.price.None? || e.nav.value.value == 0.0 || e.nav.value.date != e.price.value.date
       || (sameCurrency && e.nav.value.currency != e.price.value.unit)
    then None
    else Some(Abs((e.price.value.value - e.nav.value.value) / e.nav.value.value * 100.0))
  }

  function Measured(x: Option<real>, points: seq<Point>): seq<real> requires points != [] {
    if x.None? then [] else [Line(x.value, points)]
  }

  function Sum(s: seq<real>): real { if s == [] then 0.0 else s[0] + Sum(s[1..]) }

  /** The mean of the components, or unavailable when there are none. */
  function Mean(s: seq<real>): Option<real> { if s == [] then None else Some(Sum(s) / |s| as real) }

  function AbsOf(x: Option<real>): Option<real> { if x.None? then None else Some(Abs(x.value)) }

  function Performance(e: Evidence): seq<real> {
    Measured(e.return1m, RETURN_POINTS) + Measured(e.return3m, RETURN_POINTS) + Measured(e.return6m, RETURN_POINTS)
    + Measured(e.return1y, RETURN_POINTS) + Measured(e.momentum, MOMENTUM_POINTS)
  }

  function Risk(e: Evidence): seq<real> {
    Measured(e.drawdown, DRAWDOWN_POINTS) + Measured(e.volatility, VOLATILITY_POINTS)
  }

  function Liquidity(e: Evidence): seq<real> {
    Measured(e.volume, VOLUME_POINTS) + Measured(e.spread, SPREAD_POINTS)
  }

  function Tracking(e: Evidence): seq<real> {
    Measured(e.trackingError, TRACKING_POINTS) + Measured(AbsOf(e.trackingDifference), TRACKING_POINTS)
  }

  function Cost(e: Evidence): seq<real> { Measured(e.expenseRatio, COST_POINTS) }

  function NavPremium(e: Evidence): seq<real> { Measured(Premium(e, true), PREMIUM_POINTS) }

  function Diversification(e: Evidence): seq<real> { Measured(e.topTen, TOP_TEN_POINTS) }

  datatype Factor = Factor(weight: nat, score: Option<real>) {
    function Available(): nat { if score.Some? then weight else 0 }

    function Contribution(): real { if score.Some? then score.value * weight as real / 100.0 else 0.0 }
  }

  datatype Scores = Scores(performance: Option<real>, risk: Option<real>, liquidity: Option<real>,
                           tracking: Option<real>, cost: Option<real>,
                           premium: Option<real>, diversification: Option<real>)

  function Weighted(s: Scores): seq<Factor> {
    [Factor(25, s.performance), Factor(20, s.risk), Factor(15, s.liquidity), Factor(15, s.tracking),
     Factor(10, s.cost), Factor(5, s.premium), Factor(5, s.diversification)]
  }

  function ScoresOf(e: Evidence): Scores {
    Scores(Mean(Performance(e)), Mean(Risk(e)), Mean(Liquidity(e)), Mean(Tracking(e)), Mean(Cost(e)),
           Mean(NavPremium(e)), Mean(Diversification(e)))
  }

  /** The seven factors that depend on evidence. */
  function EvidenceFactors(e: Evidence): seq<Factor> { Weighted(ScoresOf(e)) }

  function AvailableWeight(factors: seq<Factor>): nat {
    if factors == [] then 0 else factors[0].Available() + AvailableWeight(factors[1..])
  }

  function TotalWeight(factors: seq<Factor>): nat {
    if factors == [] then 0 else factors[0].weight + TotalWeight(factors[1..])
  }

  function Contributions(factors: seq<Factor>): real {
    if factors == [] then 0.0 else factors[0].Contribution() + Contributions(factors[1..])
  }

  /** DATA_COMPLETENESS: the share of the other factors' weight that was scored. */
  function Completeness(others: seq<Factor>): Factor {
    Factor(5, Some(if TotalWeight(others) == 0 then 0.0
                   else 100.0 * AvailableWeight(others) as real / TotalWeight(others) as real))
  }

  datatype Result = Result(overall: Option<real>, completeness: real)

  function Averaged(factors: seq<Factor>): Result {
    var available := AvailableWeight(factors);
    Result(if available == 0 then None else Some(Contributions(factors) * 100.0 / available as real),
           available as real / 100.0)
  }

  function Scored(others: seq<Factor>): Result { Averaged(others + [Completeness(others)]) }

  /** `score_etf` */
  function ScoreEtf(e: Evidence): Result { Scored(EvidenceFactors(e)) }

  // ---------------------------------------------------------------- every score lies between 0 and 100

  ghost predicate InRange(s: seq<real>) { forall i | 0 <= i < |s| :: 0.0 <= s[i] <= 100.0 }

  lemma {:induction false} SumInRange(s: seq<real>)
    requires InRange(s)
    ensures 0.0 <= Sum(s) <= 100.0 * |s| as real
  {
    if s != [] { SumInRange(s[1..]); }
  }

  lemma MeanInRange(s: seq<real>)
    requires InRange(s) && s != []
    ensures 0.0 <= Mean(s).value <= 100.0
  {
    SumInRange(s);
    var n := |s| as real;
    var m := Sum(s) / n;
    assert m * n == Sum(s);
    Dividing(0.0, m, n);
    Dividing(m, 100.0, n);
  }

  lemma MeasuredInRange(x: Option<real>, points: seq<Point>)
    requires Up(points) || Down(points)
    ensures InRange(Measured(x, points))
  {
    if x.Some? {
      if Up(points) { RisingLine(x.value, x.value, points); } else { FallingLine(x.value, x.value, points); }
    }
  }

  lemma InRangeTogether(s: seq<real>, x: Option<real>, points: seq<Point>)
    requires InRange(s) && (Up(points) || Down(points))
    ensures InRange(s + Measured(x, points))
  {
    MeasuredInRange(x, points);
  }

  lemma PerformanceInRange(e: Evidence)
    ensures InRange(Performance(e))
  {
    RisingTables();
    var s := Measured(e.return1m, RETURN_POINTS);
    MeasuredInRange(e.return1m, RETURN_POINTS);
    InRangeTogether(s, e.return3m, RETURN_POINTS);
    s := s + Measured(e.return3m, RETURN_POINTS);
    InRangeTogether(s, e.return6m, RETURN_POINTS);
    s := s + Measured(e.return6m, RETURN_POINTS);
    InRangeTogether(s, e.return1y, RETURN_POINTS);
    s := s + Measured(e.return1y, RETURN_POINTS);
    InRangeTogether(s, e.momentum, MOMENTUM_POINTS);
  }

  lemma RiskAndLiquidityInRange(e: Evidence)
    ensures InRange(Risk(e)) && InRange(Liquidity(e))
  {
    RisingTables();
    FallingTables();
    MeasuredInRange(e.drawdown, DRAWDOWN_POINTS);
    MeasuredInRange(e.volatility, VOLATILITY_POINTS);
    MeasuredInRange(e.volume, VOLUME_POINTS);
    MeasuredInRange(e.spread, SPREAD_POINTS);
  }

  lemma TrackingInRange(e: Evidence)
    ensures InRange(Tracking(e)) && InRange(Cost(e)) && InRange(NavPremium(e)) && InRange(Diversification(e))
  {
    FallingTables();
    LongerFallingTables();
    MeasuredInRange(e.trackingError, TRACKING_POINTS);
    MeasuredInRange(AbsOf(e.trackingDifference), TRACKING_POINTS);
    MeasuredInRange(e.expenseRatio, COST_POINTS);
    MeasuredInRange(Premium(e, true), PREMIUM_POINTS);
    MeasuredInRange(e.topTen, TOP_TEN_POINTS);
  }

  ghost predicate ScoreInRange(x: Option<real>) { x.Some? ==> 0.0 <= x.value <= 100.0 }

  ghost predicate FactorsInRange(factors: seq<Factor>) {
    forall i | 0 <= i < |factors| :: ScoreInRange(factors[i].score)
  }

  lemma MeansInRange(s: seq<real>)
    requires InRange(s)
    ensures ScoreInRange(Mean(s))
  {
    if s != [] { MeanInRange(s); }
  }

  lemma EvidenceFactorsInRange(e: Evidence)
    ensures FactorsInRange(EvidenceFactors(e))
  {
    PerformanceInRange(e);
    RiskAndLiquidityInRange(e);
    TrackingInRange(e);
    MeansInRange(Performance(e));
    MeansInRange(Risk(e));
    MeansInRange(Liquidity(e));
    MeansInRange(Tracking(e));
    MeansInRange(Cost(e));
    MeansInRange(NavPremium(e));
    MeansInRange(Diversification(e));
  }

  lemma ContributionInRange(f: Factor)
    requires ScoreInRange(f.score)
    ensures 0.0 <= f.Contribution() <= f.Available() as real
  {
    if f.score.Some? {
      var w := f.weight as real;
      assert 0.0 <= f.score.value * w;
      assert (100.0 - f.score.value) * w >= 0.0;
      assert f.score.value * w <= 100.0 * w;
    }
  }

  lemma {:induction false} ContributionsInRange(factors: seq<Factor>)
    requires FactorsInRange(factors)
    ensures 0.0 <= Contributions(factors) <= AvailableWeight(factors) as real
  {
    if factors != [] {
      ContributionsInRange(factors[1..]);
      ContributionInRange(factors[0]);
    }
  }

  lemma {:induction false} AvailableWithinTotal(factors: seq<Factor>)
    ensures AvailableWeight(factors) <= TotalWeight(factors)
  {
    if factors != [] { AvailableWithinTotal(factors[1..]); }
  }

  lemma {:induction false} LastFactor(factors: seq<Factor>, f: Factor)
    ensures AvailableWeight(factors + [f]) == AvailableWeight(factors) + f.Available()
    ensures TotalWeight(factors + [f]) == TotalWeight(factors) + f.weight
    ensures Contributions(factors + [f]) == Contributions(factors) + f.Contribution()
  {
    if factors == [] {
      assert [f][1..] == [];
    } else {
      assert (factors + [f])[1..] == factors[1..] + [f];
      LastFactor(factors[1..], f);
    }
  }

  lemma CompletenessInRange(others: seq<Factor>)
    ensures ScoreInRange(Completeness(others).score)
  {
    AvailableWithinTotal(others);
    if TotalWeight(others) > 0 {
      PartOfAHundred(AvailableWeight(others) as real, TotalWeight(others) as real);
    }
  }

  lemma PartOfAHundred(a: real, n: real)
    requires 0.0 <= a <= n && 0.0 < n
    ensures 0.0 <= 100.0 * a / n <= 100.0
  {
    var c := 100.0 * a / n;
    assert c * n == 100.0 * a;
    Dividing(0.0, c, n);
    Dividing(c, 100.0, n);
  }

  lemma AverageInRange(c: real, n: real)
    requires 0.0 <= c <= n && 0.0 < n
    ensures 0.0 <= c * 100.0 / n <= 100.0
  {
    var m := c * 100.0 / n;
    assert m * n == c * 100.0;
    Dividing(0.0, m, n);
    Dividing(m, 100.0, n);
  }

  lemma AverageImproves(c: real, d: real, n: real)
    requires c <= d && 0.0 < n
    ensures c * 100.0 / n <= d * 100.0 / n
  {
    var x, y := c * 100.0 / n, d * 100.0 / n;
    assert x * n == c * 100.0 && y * n == d * 100.0;
    Dividing(x, y, n);
  }

  /** The average with DATA_COMPLETENESS, which is always scored. */
  lemma ScoredIs(others: seq<Factor>)
    ensures var c := Contributions(others) + Completeness(others).Contribution();
      var n := AvailableWeight(others) + 5;
      Scored(others) == Result(Some(c * 100.0 / n as real), n as real / 100.0)
  {
    LastFactor(others, Completeness(others));
  }

  lemma ScoredInRange(others: seq<Factor>)
    requires FactorsInRange(others)
    ensures Scored(others).overall.Some? && 0.0 <= Scored(others).overall.value <= 100.0
  {
    ScoredIs(others);
    CompletenessInRange(others);
    ContributionInRange(Completeness(others));
    ContributionsInRange(others);
    AverageInRange(Contributions(others) + Completeness(others).Contribution(), (AvailableWeight(others) + 5) as real);
  }

  lemma TotalWeightFrom(factors: seq<Factor>, n: nat)
    requires n < |factors|
    ensures TotalWeight(factors[n..]) == factors[n].weight + TotalWeight(factors[n + 1..])
  {
    assert factors[n..][1..] == factors[n + 1..];
  }

  lemma WeightsAddUp(s: Scores)
    ensures TotalWeight(Weighted(s)) == 95
  {
    var f := Weighted(s);
    TotalWeightFrom(f, 0);
    TotalWeightFrom(f, 1);
    TotalWeightFrom(f, 2);
    TotalWeightFrom(f, 3);
    TotalWeightFrom(f, 4);
    TotalWeightFrom(f, 5);
    TotalWeightFrom(f, 6);
    assert f[0..] == f && f[7..] == [];
  }

  /** The overall score always exists and lies in [0, 100]; the weights add up to 100, and completeness is the scored
      share of them, DATA_COMPLETENESS itself included. */
  lemma OverallScoreExists(e: Evidence)
    ensures ScoreEtf(e).overall.Some? && 0.0 <= ScoreEtf(e).overall.value <= 100.0
    ensures ScoreEtf(e).completeness == (AvailableWeight(EvidenceFactors(e)) + 5) as real / 100.0
    ensures AvailableWeight(EvidenceFactors(e)) <= TotalWeight(EvidenceFactors(e)) == 95
  {
    EvidenceFactorsInRange(e);
    ScoredIs(EvidenceFactors(e));
    ScoredInRange(EvidenceFactors(e));
    AvailableWithinTotal(EvidenceFactors(e));
    WeightsAddUp(ScoresOf(e));
  }

  // ---------------------------------------------------------------- gates and recommendation

  datatype Category = TechnicalFailure | InsufficientData | PoorCharacteristics
  datatype Severity = Blocking | Warning
  datatype Gate = Gate(category: Category, severity: Severity, triggered: bool)

  predicate Exceeds(x: Option<real>, limit: real) { x.Some? && x.value > limit }
  predicate Below(x: Option<real>, limit: real) { x.Some? && x.value < limit }

  /** What the gates look at. */
  datatype Signals = Signals(technical: bool, unready: bool, shortHistory: bool, illiquid: bool, drawdown: bool,
                             premium: bool, smallAum: bool, tracking: bool, incomplete: bool)

  function DataGates(s: Signals): seq<Gate> {
    [Gate(TechnicalFailure, Blocking, s.technical), Gate(InsufficientData, Blocking, s.unready),
     Gate(InsufficientData, Warning, s.shortHistory)]
  }

  function MarketGates(s: Signals): seq<Gate> {
    [Gate(PoorCharacteristics, Blocking, s.illiquid), Gate(PoorCharacteristics, Warning, s.drawdown),
     Gate(PoorCharacteristics, Warning, s.premium)]
  }

  function FundGates(s: Signals): seq<Gate> {
    [Gate(PoorCharacteristics, Warning, s.smallAum), Gate(PoorCharacteristics, Warning, s.tracking),
     Gate(InsufficientData, Blocking, s.incomplete)]
  }

  function Gates(s: Signals): seq<Gate> { DataGates(s) + MarketGates(s) + FundGates(s) }

  function SignalsOf(e: Evidence, completeness: real): Signals {
    Signals(e.mandatoryTechnical, !e.ready && !e.mandatoryTechnical, e.return1m.None?, Below(e.volume, 1000.0),
            e.drawdown.Some? && e.drawdown.value <= -50.0, Exceeds(Premium(e, false), 5.0),
            e.aum.Some? && e.aum.value.inr && e.aum.value.value < 100000000.0, Exceeds(e.trackingError, 2.0),
            completeness < 0.3)
  }

  /** `evaluate_etf_risk_gates` */
  function RiskGates(e: Evidence, r: Result): seq<Gate> { Gates(SignalsOf(e, r.completeness)) }

  datatype Recommendation = Avoid | Watch | Opportunity | StrongOpportunity | Insufficient {
    function Rank(): int {
      match this
      case Avoid => 0
      case Watch => 1
      case Opportunity => 2
      case StrongOpportunity => 3
      case Insufficient => -1
    }
  }

  predicate Triggered(gates: seq<Gate>, c: Category, s: Severity) {
    exists i :: 0 <= i < |gates| && gates[i] == Gate(c, s, true)
  }

  function PoorWarnings(gates: seq<Gate>): nat {
    if gates == [] then 0
    else (if gates[0].triggered && gates[0].category.PoorCharacteristics? then 1 else 0) + PoorWarnings(gates[1..])
  }

  /** `derive_etf_recommendation` */
  function Recommend(overall: Option<real>, gates: seq<Gate>): Recommendation {
    if Triggered(gates, TechnicalFailure, Blocking) || Triggered(gates, TechnicalFailure, Warning) then Insufficient
    else if Triggered(gates, InsufficientData, Blocking) || overall.None? then Insufficient
    else if Triggered(gates, PoorCharacteristics, Blocking) then Avoid
    else
      var poor, score := PoorWarnings(gates), overall.value;
      if poor >= 2 then (if score < 50.0 then Avoid else Watch)
      else if score >= 75.0 then (if poor == 0 then StrongOpportunity else Opportunity)
      else if score >= 60.0 then Opportunity
      else if score >= 40.0 then Watch
      else Avoid
  }

  function Assess(e: Evidence): Recommendation { Recommend(ScoreEtf(e).overall, RiskGates(e, ScoreEtf(e))) }

  lemma {:induction false} NoPoorWarnings(gates: seq<Gate>)
    ensures PoorWarnings(gates) == 0 <==>
      forall i | 0 <= i < |gates| && gates[i].triggered :: !gates[i].category.PoorCharacteristics?
  {
    if gates != [] {
      NoPoorWarnings(gates[1..]);
      if PoorWarnings(gates) == 0 {
        forall i | 0 <= i < |gates| && gates[i].triggered ensures !gates[i].category.PoorCharacteristics? {
          if i > 0 { assert gates[i] == gates[1..][i - 1]; }
        }
      } else if PoorWarnings(gates[1..]) != 0 {
        var i :| 0 <= i < |gates[1..]| && gates[1..][i].triggered && gates[1..][i].category.PoorCharacteristics?;
        assert gates[i + 1] == gates[1..][i];
      }
    }
  }

  /** The best recommendation needs 75 points and that nothing at all was triggered but warnings about missing data. */
  lemma StrongOpportunityMeans(score: real, gates: seq<Gate>)
    ensures Recommend(Some(score), gates).StrongOpportunity? <==>
      && score >= 75.0
      && forall i | 0 <= i < |gates| && gates[i].triggered ::
           gates[i].category.InsufficientData? && gates[i].severity.Warning?
  {
    NoPoorWarnings(gates);
    if Recommend(Some(score), gates).StrongOpportunity? {
      forall i | 0 <= i < |gates| && gates[i].triggered
        ensures gates[i].category.InsufficientData? && gates[i].severity.Warning?
      {
        var s, c := gates[i].severity, gates[i].category;
        assert Triggered(gates, c, s);
        assert s == Blocking || s == Warning;
        assert c == TechnicalFailure || c == InsufficientData || c == PoorCharacteristics;
      }
    }
  }

  // ---------------------------------------------------------------- better evidence, better recommendation

  /** A gate that can only be lifted, and not at all if it speaks of missing data. */
  predicate Eased(g: Gate, h: Gate) {
    && g.category == h.category && g.severity == h.severity && (h.triggered ==> g.triggered)
    && (!g.category.PoorCharacteristics? ==> g == h)
  }

  ghost predicate NoHarder(g: seq<Gate>, h: seq<Gate>) {
    |g| == |h| && forall i | 0 <= i < |g| :: Eased(g[i], h[i])
  }

  lemma {:induction false} FewerWarnings(g: seq<Gate>, h: seq<Gate>)
    requires NoHarder(g, h)
    ensures PoorWarnings(h) <= PoorWarnings(g)
  {
    if g != [] { FewerWarnings(g[1..], h[1..]); }
  }

  lemma TriggeredBefore(g: seq<Gate>, h: seq<Gate>, c: Category, s: Severity)
    requires NoHarder(g, h)
    ensures Triggered(h, c, s) ==> Triggered(g, c, s)
    ensures !c.PoorCharacteristics? ==> (Triggered(h, c, s) <==> Triggered(g, c, s))
  {
    if i :| 0 <= i < |h| && h[i] == Gate(c, s, true) { assert g[i] == Gate(c, s, true); }
    if i :| 0 <= i < |g| && g[i] == Gate(c, s, true) && !c.PoorCharacteristics? { assert h[i] == Gate(c, s, true); }
  }

  lemma RecommendIsMonotone(x: real, y: real, g: seq<Gate>, h: seq<Gate>)
    requires x <= y && NoHarder(g, h)
    ensures Recommend(Some(x), g).Rank() <= Recommend(Some(y), h).Rank()
    ensures Recommend(Some(x), g).Insufficient? <==> Recommend(Some(y), h).Insufficient?
  {
    FewerWarnings(g, h);
    TriggeredBefore(g, h, TechnicalFailure, Blocking);
    TriggeredBefore(g, h, TechnicalFailure, Warning);
    TriggeredBefore(g, h, InsufficientData, Blocking);
    TriggeredBefore(g, h, PoorCharacteristics, Blocking);
  }

  ghost predicate Higher(x: Option<real>, y: Option<real>) {
    (x.Some? <==> y.Some?) && (x.Some? ==> x.value <= y.value)
  }

  /** The same evidence is available in f as in e, and each measure is at least as good. */
  ghost predicate NoWorse(e: Evidence, f: Evidence) {
    && Higher(e.return1m, f.return1m) && Higher(e.return3m, f.return3m) && Higher(e.return6m, f.return6m)
    && Higher(e.return1y, f.return1y) && Higher(e.momentum, f.momentum) && Higher(e.drawdown, f.drawdown)
    && Higher(f.volatility, e.volatility) && Higher(e.volume, f.volume) && Higher(f.spread, e.spread)
    && Higher(f.trackingError, e.trackingError) && Higher(AbsOf(f.trackingDifference), AbsOf(e.trackingDifference))
    && Higher(f.expenseRatio, e.expenseRatio) && Higher(f.topTen, e.topTen)
    && Higher(Premium(f, true), Premium(e, true)) && Higher(Premium(f, false), Premium(e, false))
    && (e.aum.Some? <==> f.aum.Some?)
    && (e.aum.Some? ==> e.aum.value.inr == f.aum.value.inr && e.aum.value.value <= f.aum.value.value)
    && e.mandatoryTechnical == f.mandatoryTechnical && e.ready == f.ready
  }

  ghost predicate Pointwise(s: seq<real>, t: seq<real>) {
    |s| == |t| && forall i | 0 <= i < |s| :: s[i] <= t[i]
  }

  lemma MeasuredUp(x: Option<real>, y: Option<real>, points: seq<Point>)
    requires Up(points) && Higher(x, y)
    ensures Pointwise(Measured(x, points), Measured(y, points))
  {
    if x.Some? { RisingLine(x.value, y.value, points); }
  }

  lemma MeasuredDown(x: Option<real>, y: Option<real>, points: seq<Point>)
    requires Down(points) && Higher(y, x)
    ensures Pointwise(Measured(x, points), Measured(y, points))
  {
    if x.Some? { FallingLine(y.value, x.value, points); }
  }

  lemma {:induction false} SumPointwise(s: seq<real>, t: seq<real>)
    requires Pointwise(s, t)
    ensures Sum(s) <= Sum(t)
  {
    if s != [] { SumPointwise(s[1..], t[1..]); }
  }

  lemma MeanPointwise(s: seq<real>, t: seq<real>)
    requires Pointwise(s, t)
    ensures Higher(Mean(s), Mean(t))
  {
    if s != [] {
      SumPointwise(s, t);
      var n := |s| as real;
      assert Mean(s).value * n == Sum(s) && Mean(t).value * n == Sum(t);
      Dividing(Mean(s).value, Mean(t).value, n);
    }
  }

  lemma PointwiseTogether(s: seq<real>, t: seq<real>, x: Option<real>, y: Option<real>, points: seq<Point>)
    requires Pointwise(s, t) && Up(points) && Higher(x, y)
    ensures Pointwise(s + Measured(x, points), t + Measured(y, points))
  {
    MeasuredUp(x, y, points);
  }

  lemma PerformanceImproves(e: Evidence, f: Evidence)
    requires NoWorse(e, f)
    ensures Higher(Mean(Performance(e)), Mean(Performance(f)))
  {
    RisingTables();
    var s, t := Measured(e.return1m, RETURN_POINTS), Measured(f.return1m, RETURN_POINTS);
    MeasuredUp(e.return1m, f.return1m, RETURN_POINTS);
    PointwiseTogether(s, t, e.return3m, f.return3m, RETURN_POINTS);
    s, t := s + Measured(e.return3m, RETURN_POINTS), t + Measured(f.return3m, RETURN_POINTS);
    PointwiseTogether(s, t, e.return6m, f.return6m, RETURN_POINTS);
    s, t := s + Measured(e.return6m, RETURN_POINTS), t + Measured(f.return6m, RETURN_POINTS);
    PointwiseTogether(s, t, e.return1y, f.return1y, RETURN_POINTS);
    s, t := s + Measured(e.return1y, RETURN_POINTS), t + Measured(f.return1y, RETURN_POINTS);
    PointwiseTogether(s, t, e.momentum, f.momentum, MOMENTUM_POINTS);
    MeanPointwise(Performance(e), Performance(f));
  }

  lemma RiskAndLiquidityImprove(e: Evidence, f: Evidence)
    requires NoWorse(e, f)
    ensures Higher(Mean(Risk(e)), Mean(Risk(f))) && Higher(Mean(Liquidity(e)), Mean(Liquidity(f)))
  {
    RisingTables();
    FallingTables();
    MeasuredUp(e.drawdown, f.drawdown, DRAWDOWN_POINTS);
    MeasuredDown(e.volatility, f.volatility, VOLATILITY_POINTS);
    MeanPointwise(Risk(e), Risk(f));
    MeasuredUp(e.volume, f.volume, VOLUME_POINTS);
    MeasuredDown(e.spread, f.spread, SPREAD_POINTS);
    MeanPointwise(Liquidity(e), Liquidity(f));
  }

  lemma TrackingAndCostImprove(e: Evidence, f: Evidence)
    requires NoWorse(e, f)
    ensures Higher(Mean(Tracking(e)), Mean(Tracking(f))) && Higher(Mean(Cost(e)), Mean(Cost(f)))
    ensures Higher(Mean(NavPremium(e)), Mean(NavPremium(f)))
      && Higher(Mean(Diversification(e)), Mean(Diversification(f)))
  {
    FallingTables();
    LongerFallingTables();
    MeasuredDown(e.trackingError, f.trackingError, TRACKING_POINTS);
    MeasuredDown(AbsOf(e.trackingDifference), AbsOf(f.trackingDifference), TRACKING_POINTS);
    MeanPointwise(Tracking(e), Tracking(f));
    MeasuredDown(e.expenseRatio, f.expenseRatio, COST_POINTS);
    MeanPointwise(Cost(e), Cost(f));
    MeasuredDown(Premium(e, true), Premium(f, true), PREMIUM_POINTS);
    MeanPointwise(NavPremium(e), NavPremium(f));
    MeasuredDown(e.topTen, f.topTen, TOP_TEN_POINTS);
    MeanPointwise(Diversification(e), Diversification(f));
  }

  ghost predicate FactorsHigher(s: seq<Factor>, t: seq<Factor>) {
    |s| == |t| && forall i | 0 <= i < |s| :: s[i].weight == t[i].weight && Higher(s[i].score, t[i].score)
  }

  lemma ContributionImproves(f: Factor, g: Factor)
    requires f.weight == g.weight && Higher(f.score, g.score)
    ensures f.Contribution() <= g.Contribution() && f.Available() == g.Available()
  {
    if f.score.Some? {
      var w := f.weight as real;
      assert (g.score.value - f.score.value) * w >= 0.0;
      assert f.score.value * w <= g.score.value * w;
    }
  }

  lemma {:induction false} ContributionsImprove(s: seq<Factor>, t: seq<Factor>)
    requires FactorsHigher(s, t)
    ensures AvailableWeight(s) == AvailableWeight(t) && TotalWeight(s) == TotalWeight(t)
    ensures Contributions(s) <= Contributions(t)
  {
    if s != [] {
      ContributionsImprove(s[1..], t[1..]);
      ContributionImproves(s[0], t[0]);
    }
  }

  lemma ScoredImproves(s: seq<Factor>, t: seq<Factor>)
    requires FactorsHigher(s, t)
    ensures Scored(s).overall.Some? && Scored(t).overall.Some?
    ensures Scored(s).overall.value <= Scored(t).overall.value && Scored(s).completeness == Scored(t).completeness
  {
    ContributionsImprove(s, t);
    ScoredIs(s);
    ScoredIs(t);
    AverageImproves(Contributions(s) + Completeness(s).Contribution(),
                    Contributions(t) + Completeness(t).Contribution(),
                    (AvailableWeight(s) + 5) as real);
  }

  ghost predicate ScoresHigher(s: Scores, t: Scores) {
    && Higher(s.performance, t.performance) && Higher(s.risk, t.risk) && Higher(s.liquidity, t.liquidity)
    && Higher(s.tracking, t.tracking) && Higher(s.cost, t.cost) && Higher(s.premium, t.premium)
    && Higher(s.diversification, t.diversification)
  }

  lemma WeightedHigher(s: Scores, t: Scores)
    requires ScoresHigher(s, t)
    ensures FactorsHigher(Weighted(s), Weighted(t))
  {
  }

  lemma OverallImproves(e: Evidence, f: Evidence)
    requires NoWorse(e, f)
    ensures ScoreEtf(e).overall.Some? && ScoreEtf(f).overall.Some?
    ensures ScoreEtf(e).overall.value <= ScoreEtf(f).overall.value
    ensures ScoreEtf(e).completeness == ScoreEtf(f).completeness
  {
    PerformanceImproves(e, f);
    RiskAndLiquidityImprove(e, f);
    TrackingAndCostImprove(e, f);
    WeightedHigher(ScoresOf(e), ScoresOf(f));
    ScoredImproves(Weighted(ScoresOf(e)), Weighted(ScoresOf(f)));
  }

  lemma GatesImprove(e: Evidence, f: Evidence, completeness: real)
    requires NoWorse(e, f)
    ensures NoHarder(Gates(SignalsOf(e, completeness)), Gates(SignalsOf(f, completeness)))
  {
    FewerSignals(SignalsOf(e, completeness), SignalsOf(f, completeness));
  }

  lemma NoHarderTogether(g: seq<Gate>, h: seq<Gate>, g1: seq<Gate>, h1: seq<Gate>)
    requires NoHarder(g, h) && NoHarder(g1, h1)
    ensures NoHarder(g + g1, h + h1)
  {
  }

  /** Every signal of s that t still has, and the same signals about missing data. */
  ghost predicate Clearer(s: Signals, t: Signals) {
    && s.technical == t.technical && s.unready == t.unready && s.shortHistory == t.shortHistory
    && s.incomplete == t.incomplete
    && (t.illiquid ==> s.illiquid) && (t.drawdown ==> s.drawdown) && (t.premium ==> s.premium)
    && (t.smallAum ==> s.smallAum) && (t.tracking ==> s.tracking)
  }

  lemma ThreeGates(a: Gate, b: Gate, c: Gate, x: Gate, y: Gate, z: Gate)
    requires Eased(a, x) && Eased(b, y) && Eased(c, z)
    ensures NoHarder([a, b, c], [x, y, z])
  {
    NoHarderTogether([a], [x], [b], [y]);
    NoHarderTogether([a, b], [x, y], [c], [z]);
  }

  lemma PoorGateEased(v: Severity, x: bool, y: bool)
    requires y ==> x
    ensures Eased(Gate(PoorCharacteristics, v, x), Gate(PoorCharacteristics, v, y))
  {
  }

  lemma EasedGates(s: Signals, t: Signals)
    requires Clearer(s, t)
    ensures NoHarder(DataGates(s), DataGates(t)) && NoHarder(MarketGates(s), MarketGates(t))
    ensures NoHarder(FundGates(s), FundGates(t))
  {
    assert DataGates(s) == DataGates(t);
    PoorGateEased(Blocking, s.illiquid, t.illiquid);
    PoorGateEased(Warning, s.drawdown, t.drawdown);
    PoorGateEased(Warning, s.premium, t.premium);
    ThreeGates(Gate(PoorCharacteristics, Blocking, s.illiquid), Gate(PoorCharacteristics, Warning, s.drawdown),
               Gate(PoorCharacteristics, Warning, s.premium),
               Gate(PoorCharacteristics, Blocking, t.illiquid), Gate(PoorCharacteristics, Warning, t.drawdown),
               Gate(PoorCharacteristics, Warning, t.premium));
    PoorGateEased(Warning, s.smallAum, t.smallAum);
    PoorGateEased(Warning, s.tracking, t.tracking);
    var last := Gate(InsufficientData, Blocking, s.incomplete);
    ThreeGates(Gate(PoorCharacteristics, Warning, s.smallAum), Gate(PoorCharacteristics, Warning, s.tracking), last,
               Gate(PoorCharacteristics, Warning, t.smallAum), Gate(PoorCharacteristics, Warning, t.tracking), last);
  }

  lemma FewerSignals(s: Signals, t: Signals)
    requires Clearer(s, t)
    ensures NoHarder(Gates(s), Gates(t))
  {
    EasedGates(s, t);
    NoHarderTogether(DataGates(s), DataGates(t), MarketGates(s), MarketGates(t));
    NoHarderTogether(DataGates(s) + MarketGates(s), DataGates(t) + MarketGates(t), FundGates(s), FundGates(t));
  }

  /** With the same evidence available, no measure that gets better makes the recommendation worse, and none of them
      decides whether there is a recommendation at all. */
  lemma BetterEvidenceNeverHurts(e: Evidence, f: Evidence)
    requires NoWorse(e, f)
    ensures Assess(e).Rank() <= Assess(f).Rank()
    ensures Assess(e).Insufficient? <==> Assess(f).Insufficient?
  {
    OverallImproves(e, f);
    var x, y := ScoreEtf(e), ScoreEtf(f);
    GatesImprove(e, f, x.completeness);
    RecommendIsMonotone(x.overall.value, y.overall.value, RiskGates(e, x), RiskGates(f, y));
  }

  lemma CheaperNeverHurts(e: Evidence, ratio: real)
    requires e.expenseRatio.Some? && ratio <= e.expenseRatio.value
    ensures var f := e.(expenseRatio := Some(ratio));
      Assess(e).Rank() <= Assess(f).Rank() && (Assess(e).Insufficient? <==> Assess(f).Insufficient?)
  {
    BetterEvidenceNeverHurts(e, e.(expenseRatio := Some(ratio)));
  }

  lemma CloserTrackingNeverHurts(e: Evidence, error: real)
    requires e.trackingError.Some? && error <= e.trackingError.value
    ensures var f := e.(trackingError := Some(error));
      Assess(e).Rank() <= Assess(f).Rank() && (Assess(e).Insufficient? <==> Assess(f).Insufficient?)
  {
    BetterEvidenceNeverHurts(e, e.(trackingError := Some(error)));
  }

  lemma WhatTheGatesDecide(s: Signals, score: real)
    ensures Recommend(Some(score), Gates(s)).Insufficient? <==> s.technical || s.unready || s.incomplete
    ensures s.illiquid ==> Recommend(Some(score), Gates(s)) in {Insufficient, Avoid}
  {
    var gates := Gates(s);
    assert gates[0] == Gate(TechnicalFailure, Blocking, s.technical);
    assert gates[1] == Gate(InsufficientData, Blocking, s.unready);
    assert gates[3] == Gate(PoorCharacteristics, Blocking, s.illiquid);
    assert gates[8] == Gate(InsufficientData, Blocking, s.incomplete);
  }

  /** There is no recommendation exactly when mandatory data failed or is not ready, or less than 25 of the 95 points
      of evidence weight could be scored; price history alone never decides it. A technical failure is never read as
      an opinion, and a fund known to be thinly traded is never recommended. */
  lemma WhenDataIsInsufficient(e: Evidence)
    ensures Assess(e).Insufficient? <==>
      e.mandatoryTechnical || !e.ready || AvailableWeight(EvidenceFactors(e)) < 25
    ensures Below(e.volume, 1000.0) ==> Assess(e) in {Insufficient, Avoid}
  {
    OverallScoreExists(e);
    WhatTheGatesDecide(SignalsOf(e, ScoreEtf(e).completeness), ScoreEtf(e).overall.value);
  }
}
