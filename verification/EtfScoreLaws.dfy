/** What the ETF rule engine's numbers are, measure by measure: the scales, the factor means, the shares of the overall
    score, and the recommendation in terms of the score and of the evidence. */
module EtfScoreLaws {
  import opened Common
  import opened EtfScoring

  // ---------------------------------------------------------------- the scales

  lemma OnTwoSegments(v: real, points: seq<Point>)
    requires Table(points) && |points| == 3
    ensures v <= points[0].0 ==> Line(v, points) == points[0].1
    ensures v >= points[2].0 ==> Line(v, points) == points[2].1
    ensures points[0].0 <= v <= points[1].0 ==> OnTheLine(Line(v, points), v, points[0], points[1])
    ensures points[1].0 <= v <= points[2].0 ==> OnTheLine(Line(v, points), v, points[1], points[2])
  {
    if v >= points[2].0 { LineBeyondTheEnd(v, points); }
    if points[0].0 <= v <= points[1].0 { LineInterpolates(v, points, 0); }
    if points[1].0 <= v <= points[2].0 { LineInterpolates(v, points, 1); }
  }

  lemma OnThreeSegments(v: real, points: seq<Point>)
    requires Table(points) && |points| == 4
    ensures v <= points[0].0 ==> Line(v, points) == points[0].1
    ensures v >= points[3].0 ==> Line(v, points) == points[3].1
    ensures points[0].0 <= v <= points[1].0 ==> OnTheLine(Line(v, points), v, points[0], points[1])
    ensures points[1].0 <= v <= points[2].0 ==> OnTheLine(Line(v, points), v, points[1], points[2])
    ensures points[2].0 <= v <= points[3].0 ==> OnTheLine(Line(v, points), v, points[2], points[3])
  {
    if v >= points[3].0 { LineBeyondTheEnd(v, points); }
    if points[0].0 <= v <= points[1].0 { LineInterpolates(v, points, 0); }
    if points[1].0 <= v <= points[2].0 { LineInterpolates(v, points, 1); }
    if points[2].0 <= v <= points[3].0 { LineInterpolates(v, points, 2); }
  }

  /** A return of -50 percent scores 0, none 50, and 25 percent 100. */
  lemma ReturnScale(v: real)
    ensures var r := Line(v, RETURN_POINTS);
      && (v <= -50.0 ==> r == 0.0) && (-50.0 <= v <= 0.0 ==> r == 50.0 + v)
      && (0.0 <= v <= 25.0 ==> r == 50.0 + 2.0 * v) && (v >= 25.0 ==> r == 100.0)
  {
    RisingTables();
    OnTwoSegments(v, RETURN_POINTS);
  }

  /** Momentum scores 2.5 points a percent about 50, from -20 to 20 percent. */
  lemma MomentumScale(v: real)
    ensures var r := Line(v, MOMENTUM_POINTS);
      && (v <= -20.0 ==> r == 0.0) && (-20.0 <= v <= 20.0 ==> r == 50.0 + 2.5 * v) && (v >= 20.0 ==> r == 100.0)
  {
    RisingTables();
    OnTwoSegments(v, MOMENTUM_POINTS);
  }

  lemma DrawdownScale(v: real)
    ensures var r := Line(v, DRAWDOWN_POINTS);
      && (v <= -60.0 ==> r == 0.0) && (-60.0 <= v <= -10.0 ==> r == 84.0 + 1.4 * v)
      && (-10.0 <= v <= 0.0 ==> r == 100.0 + 3.0 * v) && (v >= 0.0 ==> r == 100.0)
  {
    RisingTables();
    OnTwoSegments(v, DRAWDOWN_POINTS);
  }

  lemma VolatilityScale(v: real)
    ensures var r := Line(v, VOLATILITY_POINTS);
      && (v <= 0.0 ==> r == 100.0) && (0.0 <= v <= 25.0 ==> r == 100.0 - 1.6 * v)
      && (25.0 <= v <= 60.0 ==> 7.0 * r == 12.0 * (60.0 - v)) && (v >= 60.0 ==> r == 0.0)
  {
    FallingTables();
    OnTwoSegments(v, VOLATILITY_POINTS);
  }

  lemma VolumeScale(v: real)
    ensures var r := Line(v, VOLUME_POINTS);
      && (v <= 0.0 ==> r == 0.0) && (0.0 <= v <= 10000.0 ==> 1000.0 * r == 6.0 * v)
      && (10000.0 <= v <= 500000.0 ==> 12250.0 * (r - 60.0) == v - 10000.0) && (v >= 500000.0 ==> r == 100.0)
  {
    RisingTables();
    OnTwoSegments(v, VOLUME_POINTS);
  }

  lemma SpreadScale(v: real)
    ensures var r := Line(v, SPREAD_POINTS);
      && (v <= 0.0 ==> r == 100.0) && (0.0 <= v <= 1.0 ==> r == 100.0 - 40.0 * v)
      && (1.0 <= v <= 5.0 ==> r == 75.0 - 15.0 * v) && (v >= 5.0 ==> r == 0.0)
  {
    FallingTables();
    OnTwoSegments(v, SPREAD_POINTS);
  }

  lemma TrackingScale(v: real)
    ensures var r := Line(v, TRACKING_POINTS);
      && (v <= 0.0 ==> r == 100.0) && (0.0 <= v <= 1.0 ==> r == 100.0 - 40.0 * v)
      && (1.0 <= v <= 3.0 ==> r == 90.0 - 30.0 * v) && (v >= 3.0 ==> r == 0.0)
  {
    FallingTables();
    OnTwoSegments(v, TRACKING_POINTS);
  }

  lemma CostScale(v: real)
    ensures var r := Line(v, COST_POINTS);
      && (v <= 0.0 ==> r == 100.0) && (0.0 <= v <= 0.5 ==> r == 100.0 - 60.0 * v)
      && (0.5 <= v <= 1.5 ==> r == 95.0 - 50.0 * v) && (1.5 <= v <= 3.0 ==> 3.0 * r == 120.0 - 40.0 * v)
      && (v >= 3.0 ==> r == 0.0)
  {
    LongerFallingTables();
    OnThreeSegments(v, COST_POINTS);
  }

  lemma PremiumScale(v: real)
    ensures var r := Line(v, PREMIUM_POINTS);
      && (v <= 0.0 ==> r == 100.0) && (0.0 <= v <= 1.0 ==> r == 100.0 - 30.0 * v)
      && (1.0 <= v <= 5.0 ==> r == 87.5 - 17.5 * v) && (v >= 5.0 ==> r == 0.0)
  {
    FallingTables();
    OnTwoSegments(v, PREMIUM_POINTS);
  }

  lemma TopTenScale(v: real)
    ensures var r := Line(v, TOP_TEN_POINTS);
      && (v <= 0.0 ==> r == 100.0) && (0.0 <= v <= 40.0 ==> r == 100.0 - 0.75 * v)
      && (40.0 <= v <= 70.0 ==> 3.0 * (r - 70.0) == -4.0 * (v - 40.0))
      && (70.0 <= v <= 100.0 ==> r == 100.0 - v) && (v >= 100.0 ==> r == 0.0)
  {
    LongerFallingTables();
    OnThreeSegments(v, TOP_TEN_POINTS);
  }

  // ---------------------------------------------------------------- the factor means

  /** What a measure adds to its factor's sum, and to the number of its components. */
  function Part(x: Option<real>, points: seq<Point>): real requires points != [] {
    if x.Some? then Line(x.value, points) else 0.0
  }

  function Has<T>(x: Option<T>): nat { if x.Some? then 1 else 0 }

  /** The score is the mean of n components with this sum, and there is one exactly if n is not 0. */
  predicate IsMean(score: Option<real>, n: nat, sum: real) {
    (score.None? <==> n == 0) && (score.Some? ==> score.value * n as real == sum)
  }

  lemma {:induction false} SumOfTwo(s: seq<real>, t: seq<real>)
    ensures Sum(s + t) == Sum(s) + Sum(t)
  {
    if s == [] {
      assert s + t == t;
    } else {
      assert (s + t)[0] == s[0] && (s + t)[1..] == s[1..] + t;
      SumOfTwo(s[1..], t);
    }
  }

  lemma MeasuredIs(x: Option<real>, points: seq<Point>)
    requires points != []
    ensures |Measured(x, points)| == Has(x) && Sum(Measured(x, points)) == Part(x, points)
  {
    if x.Some? { assert Measured(x, points)[1..] == []; }
  }

  lemma MeanIs(s: seq<real>)
    ensures IsMean(Mean(s), |s|, Sum(s))
  {
    if s != [] { assert Sum(s) / |s| as real * |s| as real == Sum(s); }
  }

  lemma OneMeasure(x: Option<real>, points: seq<Point>)
    requires points != []
    ensures IsMean(Mean(Measured(x, points)), Has(x), Part(x, points))
  {
    MeasuredIs(x, points);
    MeanIs(Measured(x, points));
  }

  lemma TwoMeasures(x: Option<real>, p: seq<Point>, y: Option<real>, q: seq<Point>)
    requires p != [] && q != []
    ensures IsMean(Mean(Measured(x, p) + Measured(y, q)), Has(x) + Has(y), Part(x, p) + Part(y, q))
  {
    MeasuredIs(x, p);
    MeasuredIs(y, q);
    SumOfTwo(Measured(x, p), Measured(y, q));
    MeanIs(Measured(x, p) + Measured(y, q));
  }

  lemma PerformanceSum(e: Evidence)
    ensures |Performance(e)| == Has(e.return1m) + Has(e.return3m) + Has(e.return6m) + Has(e.return1y) + Has(e.momentum)
    ensures Sum(Performance(e)) ==
      Part(e.return1m, RETURN_POINTS) + Part(e.return3m, RETURN_POINTS) + Part(e.return6m, RETURN_POINTS)
      + Part(e.return1y, RETURN_POINTS) + Part(e.momentum, MOMENTUM_POINTS)
  {
    var a, b, c := Measured(e.return1m, RETURN_POINTS), Measured(e.return3m, RETURN_POINTS),
      Measured(e.return6m, RETURN_POINTS);
    var d, m := Measured(e.return1y, RETURN_POINTS), Measured(e.momentum, MOMENTUM_POINTS);
    MeasuredIs(e.return1m, RETURN_POINTS);
    MeasuredIs(e.return3m, RETURN_POINTS);
    MeasuredIs(e.return6m, RETURN_POINTS);
    MeasuredIs(e.return1y, RETURN_POINTS);
    MeasuredIs(e.momentum, MOMENTUM_POINTS);
    SumOfTwo(a, b);
    SumOfTwo(a + b, c);
    SumOfTwo(a + b + c, d);
    SumOfTwo(a + b + c + d, m);
  }

  /** Every factor is the mean of the scores of those of its measures that are there, each on its own scale. */
  lemma FactorsAreMeans(e: Evidence)
    ensures var s := ScoresOf(e);
      && IsMean(s.performance,
                Has(e.return1m) + Has(e.return3m) + Has(e.return6m) + Has(e.return1y) + Has(e.momentum),
                Part(e.return1m, RETURN_POINTS) + Part(e.return3m, RETURN_POINTS) + Part(e.return6m, RETURN_POINTS)
                + Part(e.return1y, RETURN_POINTS) + Part(e.momentum, MOMENTUM_POINTS))
      && IsMean(s.risk, Has(e.drawdown) + Has(e.volatility),
                Part(e.drawdown, DRAWDOWN_POINTS) + Part(e.volatility, VOLATILITY_POINTS))
      && IsMean(s.liquidity, Has(e.volume) + Has(e.spread), Part(e.volume, VOLUME_POINTS)
                + Part(e.spread, SPREAD_POINTS))
      && IsMean(s.cost, Has(e.expenseRatio), Part(e.expenseRatio, COST_POINTS))
      && IsMean(s.premium, Has(Premium(e, true)), Part(Premium(e, true), PREMIUM_POINTS))
      && IsMean(s.diversification, Has(e.topTen), Part(e.topTen, TOP_TEN_POINTS))
      && IsMean(s.tracking, Has(e.trackingError) + Has(e.trackingDifference),
                Part(e.trackingError, TRACKING_POINTS)
                + (if e.trackingDifference.None? then 0.0
                   else if e.trackingDifference.value < 0.0 then Line(-e.trackingDifference.value, TRACKING_POINTS)
                   else Line(e.trackingDifference.value, TRACKING_POINTS)))
  {
    PerformanceSum(e);
    MeanIs(Performance(e));
    TwoMeasures(e.drawdown, DRAWDOWN_POINTS, e.volatility, VOLATILITY_POINTS);
    TwoMeasures(e.volume, VOLUME_POINTS, e.spread, SPREAD_POINTS);
    TwoMeasures(e.trackingError, TRACKING_POINTS, AbsOf(e.trackingDifference), TRACKING_POINTS);
    OneMeasure(e.expenseRatio, COST_POINTS);
    OneMeasure(Premium(e, true), PREMIUM_POINTS);
    OneMeasure(e.topTen, TOP_TEN_POINTS);
  }

  /** The price's distance from the NAV, in percent of it, whichever side it is on; known only for a price of the NAV's
      day, and for the score only in the NAV's currency. */
  lemma PremiumIs(e: Evidence, sameCurrency: bool)
    ensures Premium(e, sameCurrency).Some? <==>
      && e.nav.Some? && e.price.Some? && e.nav.value.value != 0.0 && e.nav.value.date == e.price.value.date
      && (sameCurrency ==> e.nav.value.currency == e.price.value.unit)
    ensures Premium(e, sameCurrency).Some? ==>
      var n, p, x := e.nav.value.value, e.price.value.value, Premium(e, sameCurrency).value;
      x >= 0.0 && (x * n == 100.0 * (p - n) || x * n == 100.0 * (n - p))
  {
    if Premium(e, sameCurrency).Some? {
      var n, p := e.nav.value.value, e.price.value.value;
      var q := (p - n) / n;
      assert q * n == p - n;
      assert q * 100.0 * n == 100.0 * (q * n);
    }
  }

  // ---------------------------------------------------------------- the overall score

  /** A factor's weight out of 100, and its score. */
  type Share = (nat, Option<real>)

  function Shares(s: Scores): seq<Share> {
    [(25, s.performance), (20, s.risk), (15, s.liquidity), (15, s.tracking), (10, s.cost), (5, s.premium),
     (5, s.diversification)]
  }

  /** The weight of the factors that are scored. */
  function ScoredWeight(shares: seq<Share>): nat {
    if shares == [] then 0 else (if shares[0].1.Some? then shares[0].0 else 0) + ScoredWeight(shares[1..])
  }

  /** The scores, each times its weight. */
  function ScoredPoints(shares: seq<Share>): real {
    if shares == [] then 0.0
    else (if shares[0].1.Some? then shares[0].0 as real * shares[0].1.value else 0.0) + ScoredPoints(shares[1..])
  }

  lemma {:induction false} WeightedSums(factors: seq<Factor>, shares: seq<Share>)
    requires |factors| == |shares|
    requires forall i | 0 <= i < |factors| :: factors[i].weight == shares[i].0 && factors[i].score == shares[i].1
    ensures AvailableWeight(factors) == ScoredWeight(shares) && 100.0 * Contributions(factors) == ScoredPoints(shares)
  {
    if factors != [] {
      WeightedSums(factors[1..], shares[1..]);
      OneContribution(factors[0]);
    }
  }

  lemma OneContribution(f: Factor)
    ensures 100.0 * f.Contribution() == if f.score.Some? then f.weight as real * f.score.value else 0.0
  {
  }

  lemma WeightedMean(c: real, n: real, points: real, completeness: real)
    requires n > 0.0 && 100.0 * c == points + 5.0 * completeness
    ensures c * 100.0 / n * n == points + 5.0 * completeness
  {
    assert c * 100.0 / n * n == c * 100.0;
  }

  /** DATA_COMPLETENESS scores the scored weight in percent of 95. */
  lemma CompletenessIs(s: Scores)
    ensures Completeness(Weighted(s)) == Factor(5, Some(100.0 * ScoredWeight(Shares(s)) as real / 95.0))
  {
    WeightedSums(Weighted(s), Shares(s));
    WeightsAddUp(s);
  }

  /** The overall score averages the scored factors by their weights, together with their share of the 95 points of
      weight as one more factor, of weight 5. */
  lemma OverallIs(s: Scores)
    ensures var r := Scored(Weighted(s)); var w := ScoredWeight(Shares(s));
      && r.overall.Some?
      && r.overall.value * (w + 5) as real == ScoredPoints(Shares(s)) + 5.0 * (100.0 * w as real / 95.0)
      && r.completeness == (w + 5) as real / 100.0
  {
    var others, shares := Weighted(s), Shares(s);
    var w, x := ScoredWeight(shares), 100.0 * ScoredWeight(shares) as real / 95.0;
    ScoredIs(others);
    WeightedSums(others, shares);
    CompletenessIs(s);
    OneContribution(Completeness(others));
    WeightedMean(Contributions(others) + Completeness(others).Contribution(), (w + 5) as real, ScoredPoints(shares), x);
  }

  /** Where a factor is scored, raising its score by d raises the overall score by its weight times d, over the scored
      weight; and all factors scored have the weight 100. */
  lemma RaisingOneFactor(s: Scores, t: Scores, i: nat, d: real)
    requires i < 7 && Shares(s)[i].1.Some?
    requires Shares(t) == Shares(s)[i := (Shares(s)[i].0, Some(Shares(s)[i].1.value + d))]
    ensures var x, y := Scored(Weighted(s)).overall, Scored(Weighted(t)).overall;
      && x.Some? && y.Some?
      && (y.value - x.value) * (ScoredWeight(Shares(s)) + 5) as real == [25, 20, 15, 15, 10, 5, 5][i] as real * d
    ensures (forall j | 0 <= j < 7 :: Shares(s)[j].1.Some?) ==> ScoredWeight(Shares(s)) + 5 == 100
  {
    var shares, raised := Shares(s), Shares(t);
    RaisedPoints(shares, raised, i, d);
    SameCompleteness(s, t);
    assert shares[i].0 == [25, 20, 15, 15, 10, 5, 5][i];
    if forall j | 0 <= j < 7 :: shares[j].1.Some? { AllWeights(s); }
  }

  /** With the same weight scored, the overall score moves as the points do. */
  lemma SameCompleteness(s: Scores, t: Scores)
    requires ScoredWeight(Shares(s)) == ScoredWeight(Shares(t))
    ensures var x, y := Scored(Weighted(s)).overall, Scored(Weighted(t)).overall;
      && x.Some? && y.Some?
      && (y.value - x.value) * (ScoredWeight(Shares(s)) + 5) as real ==
        ScoredPoints(Shares(t)) - ScoredPoints(Shares(s))
  {
    OverallIs(s);
    OverallIs(t);
    Difference(Scored(Weighted(s)).overall.value, Scored(Weighted(t)).overall.value,
               (ScoredWeight(Shares(s)) + 5) as real);
  }

  lemma Difference(x: real, y: real, n: real)
    ensures (y - x) * n == y * n - x * n
  {
  }

  lemma Distributed(w: real, v: real, d: real)
    ensures w * (v + d) == w * v + w * d
  {
  }

  lemma {:induction false} RaisedPoints(shares: seq<Share>, raised: seq<Share>, i: nat, d: real)
    requires i < |shares| && shares[i].1.Some?
    requires raised == shares[i := (shares[i].0, Some(shares[i].1.value + d))]
    ensures ScoredWeight(raised) == ScoredWeight(shares)
    ensures ScoredPoints(raised) == ScoredPoints(shares) + shares[i].0 as real * d
  {
    if i == 0 {
      assert raised[1..] == shares[1..];
      Distributed(shares[0].0 as real, shares[0].1.value, d);
    } else {
      RaisedPoints(shares[1..], raised[1..], i - 1, d);
    }
  }

  lemma {:induction false} AllAvailable(factors: seq<Factor>)
    requires forall i | 0 <= i < |factors| :: factors[i].score.Some?
    ensures AvailableWeight(factors) == TotalWeight(factors)
  {
    if factors != [] { AllAvailable(factors[1..]); }
  }

  lemma AllWeights(s: Scores)
    requires forall j | 0 <= j < 7 :: Shares(s)[j].1.Some?
    ensures ScoredWeight(Shares(s)) == 95
  {
    forall i | 0 <= i < 7 ensures Weighted(s)[i].score.Some? { assert Shares(s)[i].1.Some?; }
    AllAvailable(Weighted(s));
    WeightedSums(Weighted(s), Shares(s));
    WeightsAddUp(s);
  }

  // ---------------------------------------------------------------- the recommendation

  ghost predicate Undecidable(gates: seq<Gate>) {
    exists i :: 0 <= i < |gates| && gates[i].triggered
                && (gates[i].category.TechnicalFailure?
                    || (gates[i].category.InsufficientData? && gates[i].severity.Blocking?))
  }

  predicate IsPoor(g: Gate) { g.triggered && g.category.PoorCharacteristics? }

  ghost predicate Ruled(gates: seq<Gate>) {
    exists i :: 0 <= i < |gates| && IsPoor(gates[i]) && gates[i].severity.Blocking?
  }

  ghost predicate SomePoor(gates: seq<Gate>) { exists i :: 0 <= i < |gates| && IsPoor(gates[i]) }

  ghost predicate TwoPoor(gates: seq<Gate>) {
    exists i, j :: 0 <= i < j < |gates| && IsPoor(gates[i]) && IsPoor(gates[j])
  }

  lemma {:induction false} PoorCount(gates: seq<Gate>)
    ensures PoorWarnings(gates) >= 1 <==> SomePoor(gates)
    ensures PoorWarnings(gates) >= 2 <==> TwoPoor(gates)
  {
    NoPoorWarnings(gates);
    if gates != [] {
      var rest := gates[1..];
      PoorCount(rest);
      if TwoPoor(gates) {
        var i, j :| 0 <= i < j < |gates| && IsPoor(gates[i]) && IsPoor(gates[j]);
        assert rest[j - 1] == gates[j];
        if i > 0 { assert rest[i - 1] == gates[i]; }
      }
      if TwoPoor(rest) {
        var i, j :| 0 <= i < j < |rest| && IsPoor(rest[i]) && IsPoor(rest[j]);
        assert gates[i + 1] == rest[i] && gates[j + 1] == rest[j];
      }
      if IsPoor(gates[0]) && SomePoor(rest) {
        var j :| 0 <= j < |rest| && IsPoor(rest[j]);
        assert gates[j + 1] == rest[j];
      }
    }
  }

  lemma UndecidableMeans(gates: seq<Gate>)
    ensures Undecidable(gates) <==>
      Triggered(gates, TechnicalFailure, Blocking) || Triggered(gates, TechnicalFailure, Warning)
      || Triggered(gates, InsufficientData, Blocking)
    ensures Ruled(gates) <==> Triggered(gates, PoorCharacteristics, Blocking)
  {
    if i :| 0 <= i < |gates| && gates[i].triggered
            && (gates[i].category.TechnicalFailure?
                || (gates[i].category.InsufficientData? && gates[i].severity.Blocking?)) {
      assert Triggered(gates, gates[i].category, gates[i].severity);
      assert gates[i].severity == Blocking || gates[i].severity == Warning;
    }
    if i :| 0 <= i < |gates| && IsPoor(gates[i]) && gates[i].severity.Blocking? {
      assert gates[i] == Gate(PoorCharacteristics, Blocking, true);
    }
  }

  /** Each recommendation, in score and triggered gates. Nothing is recommended where a technical failure or a blocking
      lack of data is in the way. A blocking characteristic means AVOID; two poor ones leave WATCH at best, from 50
      points on; one poor one leaves OPPORTUNITY at best. Otherwise 75, 60 and 40 points are the thresholds. */
  lemma RecommendationMeans(score: real, gates: seq<Gate>)
    ensures var r := Recommend(Some(score), gates);
      && (r == Insufficient <==> Undecidable(gates))
      && (r == Avoid <==>
            !Undecidable(gates)
            && (Ruled(gates) || (TwoPoor(gates) && score < 50.0) || (!TwoPoor(gates) && score < 40.0)))
      && (r == Watch <==>
            !Undecidable(gates) && !Ruled(gates)
            && ((TwoPoor(gates) && score >= 50.0) || (!TwoPoor(gates) && 40.0 <= score < 60.0)))
      && (r == Opportunity <==>
            !Undecidable(gates) && !Ruled(gates) && !TwoPoor(gates)
            && (60.0 <= score < 75.0 || (score >= 75.0 && SomePoor(gates))))
      && (r == StrongOpportunity <==> !Undecidable(gates) && !SomePoor(gates) && score >= 75.0)
    ensures Recommend(None, gates) == Insufficient
  {
    UndecidableMeans(gates);
    PoorCount(gates);
  }

  function One(b: bool): nat { if b then 1 else 0 }

  /** The warnings about a fund: a drawdown of half or more, a price over five percent off the NAV, less than ten crore
      rupees under management, a tracking error above two percent. */
  function FundWarnings(e: Evidence): nat {
    One(e.drawdown.Some? && e.drawdown.value <= -50.0)
    + One(Premium(e, false).Some? && Premium(e, false).value > 5.0)
    + One(e.aum.Some? && e.aum.value.inr && e.aum.value.value < 100000000.0)
    + One(e.trackingError.Some? && e.trackingError.value > 2.0)
  }

  predicate ThinlyTraded(e: Evidence) { e.volume.Some? && e.volume.value < 1000.0 }

  /** Mandatory data failed or is not ready, or less than 25 of the 95 points of weight are scored. */
  predicate NothingToSay(e: Evidence) { e.mandatoryTechnical || !e.ready || ScoredWeight(Shares(ScoresOf(e))) < 25 }

  lemma {:induction false} PoorOfTwo(a: seq<Gate>, b: seq<Gate>)
    ensures PoorWarnings(a + b) == PoorWarnings(a) + PoorWarnings(b)
  {
    if a == [] {
      assert a + b == b;
    } else {
      assert (a + b)[0] == a[0] && (a + b)[1..] == a[1..] + b;
      PoorOfTwo(a[1..], b);
    }
  }

  lemma PoorOfThree(a: Gate, b: Gate, c: Gate)
    ensures PoorWarnings([a, b, c]) == One(IsPoor(a)) + One(IsPoor(b)) + One(IsPoor(c))
  {
    assert [a, b, c][1..] == [b, c] && [b, c][1..] == [c] && [c][1..] == [];
    assert PoorWarnings([c]) == One(IsPoor(c)) && PoorWarnings([b, c]) == One(IsPoor(b)) + PoorWarnings([c]);
  }

  lemma PoorOfEvidence(s: Signals)
    ensures PoorWarnings(Gates(s)) ==
      One(s.illiquid) + One(s.drawdown) + One(s.premium) + One(s.smallAum) + One(s.tracking)
  {
    var d, m, f := DataGates(s), MarketGates(s), FundGates(s);
    PoorOfThree(d[0], d[1], d[2]);
    PoorOfThree(m[0], m[1], m[2]);
    PoorOfThree(f[0], f[1], f[2]);
    PoorOfTwo(d, m);
    PoorOfTwo(d + m, f);
  }

  lemma OfSame(gates: seq<Gate>, c: Category, v: Severity, i: nat, b: bool)
    requires i < |gates| && gates[i] == Gate(c, v, b)
    requires forall j | 0 <= j < |gates| && j != i && gates[j].category == c && gates[j].severity == v ::
      !gates[j].triggered
    ensures Triggered(gates, c, v) <==> b
  {
  }

  lemma NineGates(s: Signals)
    ensures var g := Gates(s);
      && |g| == 9 && g[..3] == DataGates(s) && g[3..6] == MarketGates(s) && g[6..] == FundGates(s)
      && g[0] == Gate(TechnicalFailure, Blocking, s.technical) && g[1] == Gate(InsufficientData, Blocking, s.unready)
      && g[2] == Gate(InsufficientData, Warning, s.shortHistory)
        && g[3] == Gate(PoorCharacteristics, Blocking, s.illiquid)
      && g[4] == Gate(PoorCharacteristics, Warning, s.drawdown) && g[5] == Gate(PoorCharacteristics, Warning, s.premium)
      && g[6] == Gate(PoorCharacteristics, Warning, s.smallAum)
        && g[7] == Gate(PoorCharacteristics, Warning, s.tracking)
      && g[8] == Gate(InsufficientData, Blocking, s.incomplete)
  {
  }

  lemma GatesOfEvidence(s: Signals)
    ensures Undecidable(Gates(s)) <==> s.technical || s.unready || s.incomplete
    ensures Ruled(Gates(s)) <==> s.illiquid
  {
    var g := Gates(s);
    NineGates(s);
    if s.illiquid { assert IsPoor(g[3]) && g[3].severity.Blocking?; }
    if s.technical { assert g[0].triggered; }
    if s.unready { assert g[1].triggered; }
    if s.incomplete { assert g[8].triggered; }
  }

  /** The recommendation of a fund, in its evidence and its overall score. */
  lemma AssessmentMeans(e: Evidence)
    ensures ScoreEtf(e).overall.Some?
    ensures var score := ScoreEtf(e).overall.value; var n := FundWarnings(e);
      && (Assess(e) == Insufficient <==> NothingToSay(e))
      && (Assess(e) == Avoid <==>
            !NothingToSay(e) && (ThinlyTraded(e) || (n >= 2 && score < 50.0) || (n < 2 && score < 40.0)))
      && (Assess(e) == Watch <==>
            !NothingToSay(e) && !ThinlyTraded(e)
            && ((n >= 2 && score >= 50.0) || (n < 2 && 40.0 <= score < 60.0)))
      && (Assess(e) == Opportunity <==>
            !NothingToSay(e) && !ThinlyTraded(e)
            && ((n == 0 && 60.0 <= score < 75.0) || (n == 1 && score >= 60.0)))
      && (Assess(e) == StrongOpportunity <==>
            !NothingToSay(e) && !ThinlyTraded(e) && n == 0 && score >= 75.0)
  {
    OverallIs(ScoresOf(e));
    var signals := SignalsOf(e, ScoreEtf(e).completeness);
    var gates := Gates(signals);
    GatesOfEvidence(signals);
    PoorOfEvidence(signals);
    PoorCount(gates);
    RecommendationMeans(ScoreEtf(e).overall.value, gates);
  }
}
