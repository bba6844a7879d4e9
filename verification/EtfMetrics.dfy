/** Deterministic ETF metrics over daily bars: the usable close series, period returns and the maximum drawdown.
    Dates are day numbers, prices real numbers. */
module EtfMetrics {
  import opened Common
  import opened EtfScoring

  datatype Bar = Bar(date: int, close: Option<real>)

  datatype Close = Close(date: int, price: real)

  predicate UsableBar(b: Bar) { b.close.Some? && b.close.value > 0.0 }

  // ---------------------------------------------------------------- the close series

  ghost predicate Ascending(s: seq<Close>) { forall i, j | 0 <= i < j < |s| :: s[i].date < s[j].date }

  ghost predicate Positive(s: seq<Close>) { forall i | 0 <= i < |s| :: s[i].price > 0.0 }

  ghost predicate LastAt(bars: seq<Bar>, d: int, i: int) {
    && 0 <= i < |bars| && UsableBar(bars[i]) && bars[i].date == d
    && forall j | i < j < |bars| && UsableBar(bars[j]) :: bars[j].date != d
  }

  /** The last usable bar of a date is the one that counts. */
  ghost predicate Quotes(bars: seq<Bar>, d: int, price: real) {
    exists i :: LastAt(bars, d, i) && bars[i].close.value == price
  }

  /** The dictionary of closes, later bars of a date replacing earlier ones. */
  ghost predicate Deduplicates(closes: map<int, real>, bars: seq<Bar>) {
    && (forall i | 0 <= i < |bars| && UsableBar(bars[i]) :: bars[i].date in closes)
    && (forall d | d in closes :: Quotes(bars, d, closes[d]))
  }

  lemma DeduplicatesOneMore(closes: map<int, real>, bars: seq<Bar>, b: Bar)
    requires Deduplicates(closes, bars)
    ensures Deduplicates(if UsableBar(b) then closes[b.date := b.close.value] else closes, bars + [b])
  {
    var all := bars + [b];
    var after := if UsableBar(b) then closes[b.date := b.close.value] else closes;
    assert all[|bars|] == b;
    forall d | d in after ensures Quotes(all, d, after[d]) {
      if UsableBar(b) && d == b.date { assert LastAt(all, d, |bars|); }
      if !UsableBar(b) || d != b.date {
        var i :| LastAt(bars, d, i) && bars[i].close.value == closes[d];
        assert all[i] == bars[i];
        assert forall j | i < j < |bars| :: all[j] == bars[j];
        assert LastAt(all, d, i);
      }
    }
  }

  function Inserted(dates: seq<int>, d: int): (r: seq<int>)
    ensures forall x :: x in r <==> x in dates || x == d
  {
    if dates == [] then [d]
    else if d < dates[0] then [d] + dates
    else
      assert dates == [dates[0]] + dates[1..];
      [dates[0]] + Inserted(dates[1..], d)
  }

  /** `sorted` on the dates of the dictionary. */
  function Sorted(dates: seq<int>): (r: seq<int>)
    ensures forall x :: x in r <==> x in dates
  {
    if dates == [] then []
    else
      assert dates == [dates[0]] + dates[1..];
      Inserted(Sorted(dates[1..]), dates[0])
  }

  ghost predicate Increasing(dates: seq<int>) { forall i, j | 0 <= i < j < |dates| :: dates[i] < dates[j] }

  lemma {:induction false} InsertedIncreases(dates: seq<int>, d: int)
    requires Increasing(dates) && d !in dates
    ensures Increasing(Inserted(dates, d))
  {
    if dates != [] {
      var first := dates[0];
      assert first in dates && dates == [first] + dates[1..];
      if d > first {
        InsertedIncreases(dates[1..], d);
        var rest := Inserted(dates[1..], d);
        forall k | 0 <= k < |rest| ensures first < rest[k] {
          assert rest[k] in rest;
          if rest[k] != d { var i :| 0 <= i < |dates[1..]| && dates[1..][i] == rest[k]; }
        }
      }
    }
  }

  lemma {:induction false} SortedIncreases(dates: seq<int>)
    requires Unrepeated(dates)
    ensures Increasing(Sorted(dates))
  {
    if dates != [] {
      SortedIncreases(dates[1..]);
      assert dates[0] !in dates[1..];
      InsertedIncreases(Sorted(dates[1..]), dates[0]);
    }
  }

  /** The series holds, in strictly ascending order of date, exactly the closes that count, all of them positive. */
  ghost predicate SeriesOf(s: seq<Close>, bars: seq<Bar>) {
    && Ascending(s) && Positive(s)
    && (forall i | 0 <= i < |s| :: Quotes(bars, s[i].date, s[i].price))
    && (forall i | 0 <= i < |bars| && UsableBar(bars[i]) :: exists k :: 0 <= k < |s| && s[k].date == bars[i].date)
  }

  /** `usable_close_series` */
  method UsableCloseSeries(bars: seq<Bar>) returns (s: seq<Close>)
    ensures SeriesOf(s, bars)
  {
    var closes: map<int, real> := map[];
    var dates: seq<int> := [];
    for n := 0 to |bars|
      invariant Deduplicates(closes, bars[..n])
      invariant Unrepeated(dates) && forall d :: d in dates <==> d in closes
    {
      var b := bars[n];
      assert bars[..n + 1] == bars[..n] + [b];
      DeduplicatesOneMore(closes, bars[..n], b);
      if UsableBar(b) {
        if b.date !in closes { dates := dates + [b.date]; }
        closes := closes[b.date := b.close.value];
      }
    }
    assert bars[..|bars|] == bars;
    SortedIncreases(dates);
    var sorted := Sorted(dates);
    assert forall k | 0 <= k < |sorted| :: sorted[k] in closes by {
      forall k | 0 <= k < |sorted| ensures sorted[k] in closes { assert sorted[k] in sorted; }
    }
    s := seq(|sorted|, k requires 0 <= k < |sorted| && sorted[k] in closes => Close(sorted[k], closes[sorted[k]]));
    SeriesFromDictionary(s, sorted, closes, bars);
  }

  lemma SeriesFromDictionary(s: seq<Close>, sorted: seq<int>, closes: map<int, real>, bars: seq<Bar>)
    requires Deduplicates(closes, bars) && Increasing(sorted) && |s| == |sorted|
    requires forall d :: d in sorted <==> d in closes
    requires forall k | 0 <= k < |s| :: sorted[k] in closes && s[k] == Close(sorted[k], closes[sorted[k]])
    ensures SeriesOf(s, bars)
  {
    forall k | 0 <= k < |s| ensures s[k].price > 0.0 && Quotes(bars, s[k].date, s[k].price) {
      assert Quotes(bars, sorted[k], closes[sorted[k]]);
    }
    forall i | 0 <= i < |bars| && UsableBar(bars[i]) ensures exists k :: 0 <= k < |s| && s[k].date == bars[i].date {
      var k :| 0 <= k < |sorted| && sorted[k] == bars[i].date;
      assert s[k].date == bars[i].date;
    }
  }

  lemma OneQuotePerDate(bars: seq<Bar>, d: int, p: real, q: real)
    requires Quotes(bars, d, p) && Quotes(bars, d, q)
    ensures p == q && exists i :: 0 <= i < |bars| && UsableBar(bars[i]) && bars[i].date == d
  {
    var i :| LastAt(bars, d, i) && bars[i].close.value == p;
    var j :| LastAt(bars, d, j) && bars[j].close.value == q;
    assert i == j;
  }

  /** There is only one such series, so the result does not depend on how the dictionary was built. */
  lemma SeriesHasNoOtherEntries(s: seq<Close>, t: seq<Close>, bars: seq<Bar>, i: nat)
    requires SeriesOf(s, bars) && SeriesOf(t, bars) && i < |s|
    ensures exists k :: 0 <= k < |t| && t[k] == s[i]
  {
    var d := s[i].date;
    assert Quotes(bars, d, s[i].price);
    OneQuotePerDate(bars, d, s[i].price, s[i].price);
    var n :| 0 <= n < |bars| && UsableBar(bars[n]) && bars[n].date == d;
    var k :| 0 <= k < |t| && t[k].date == bars[n].date;
    assert Quotes(bars, t[k].date, t[k].price);
    OneQuotePerDate(bars, d, s[i].price, t[k].price);
    assert t[k] == s[i];
  }

  /** Bar n is the last of its date with a positive close, and this is what it says. */
  ghost predicate LastPositive(bars: seq<Bar>, n: int, c: Close) {
    && 0 <= n < |bars| && bars[n].close == Some(c.price) && c.price > 0.0 && bars[n].date == c.date
    && forall m | n < m < |bars| && bars[m].date == bars[n].date :: bars[m].close.None? || bars[m].close.value <= 0.0
  }

  ghost predicate IsLastPositive(bars: seq<Bar>, c: Close) { exists n :: LastPositive(bars, n, c) }

  /** In terms of the bars: every entry is the close of the last bar of its date that has a positive one, and every bar
      with a positive close has its date in the series. */
  lemma SeriesMeans(s: seq<Close>, bars: seq<Bar>)
    requires SeriesOf(s, bars)
    ensures forall i | 0 <= i < |s| :: IsLastPositive(bars, s[i])
    ensures forall n | 0 <= n < |bars| && bars[n].close.Some? && bars[n].close.value > 0.0 ::
      exists k :: 0 <= k < |s| && s[k].date == bars[n].date
  {
    forall i | 0 <= i < |s| ensures IsLastPositive(bars, s[i]) {
      assert Quotes(bars, s[i].date, s[i].price);
      var n :| LastAt(bars, s[i].date, n) && bars[n].close.value == s[i].price;
      assert LastPositive(bars, n, s[i]);
    }
    forall n | 0 <= n < |bars| && bars[n].close.Some? && bars[n].close.value > 0.0
      ensures exists k :: 0 <= k < |s| && s[k].date == bars[n].date
    {
      assert UsableBar(bars[n]);
    }
  }

  // ---------------------------------------------------------------- maximum drawdown

  const DRAWDOWN_WINDOW_SESSIONS := 252

  function Change(from: real, to: real): real requires from > 0.0 { (to - from) / from }

  function Window(s: seq<Close>): seq<Close> {
    if |s| > DRAWDOWN_WINDOW_SESSIONS then s[|s| - DRAWDOWN_WINDOW_SESSIONS..] else s
  }

  ghost predicate Attained(w: seq<Close>, x: real) {
    exists i, j :: 0 <= i <= j < |w| && w[i].price > 0.0 && Change(w[i].price, w[j].price) == x
  }

  /** The worst change from an earlier or equal day to a later one. */
  ghost predicate WorstChange(w: seq<Close>, x: real) {
    && Attained(w, x)
    && (forall i, j | 0 <= i <= j < |w| && w[i].price > 0.0 :: x <= Change(w[i].price, w[j].price))
  }

  /** Falling from a higher price to the same one is the larger loss. */
  lemma HigherPeakLosesMore(low: real, high: real, price: real)
    requires 0.0 < low <= high && 0.0 < price
    ensures Change(high, price) <= Change(low, price) && -1.0 < Change(high, price)
  {
    assert Change(high, price) * high == price - high && Change(low, price) * low == price - low;
    var x, y := Change(high, price) + 1.0, Change(low, price) + 1.0;
    assert x * high == price && y * low == price;
    assert x > 0.0 by { Positivity(x, high); }
    assert x * low <= x * high by { assert x * (high - low) >= 0.0; }
    Dividing(x, y, low);
  }

  lemma Positivity(x: real, d: real)
    requires 0.0 < d && 0.0 < x * d
    ensures 0.0 < x
  {
    if x <= 0.0 { Dividing(x, 0.0, d); }
  }

  ghost predicate PeakOf(w: seq<Close>, n: nat, peak: real) requires n <= |w| {
    && (exists i :: 0 <= i < n && w[i].price == peak)
    && (forall i | 0 <= i < n :: w[i].price <= peak)
  }

  lemma PeakGoesOn(w: seq<Close>, n: nat, peak: real)
    requires n < |w| && (if n == 0 then peak == w[0].price else PeakOf(w, n, peak))
    ensures PeakOf(w, n + 1, if w[n].price > peak then w[n].price else peak)
  {
    if n == 0 || w[n].price > peak {
      assert w[n].price == w[n].price;
    } else {
      var i :| 0 <= i < n && w[i].price == peak;
      assert w[i].price == peak;
    }
  }

  /** From the peak so far the loss is the largest of all losses up to here. */
  lemma PeakLosesMost(w: seq<Close>, n: nat, peak: real)
    requires Positive(w) && n < |w| && PeakOf(w, n + 1, peak)
    ensures peak > 0.0 && -1.0 < Change(peak, w[n].price) <= 0.0
    ensures forall i | 0 <= i <= n :: Change(peak, w[n].price) <= Change(w[i].price, w[n].price)
  {
    var at :| 0 <= at < n + 1 && w[at].price == peak;
    forall i | 0 <= i <= n ensures Change(peak, w[n].price) <= Change(w[i].price, w[n].price) {
      HigherPeakLosesMore(w[i].price, peak, w[n].price);
    }
    HigherPeakLosesMore(w[n].price, peak, w[n].price);
    assert Change(w[n].price, w[n].price) == 0.0;
  }

  /** What the loop knows after n sessions. */
  ghost predicate LossSoFar(w: seq<Close>, n: nat, peak: real, worst: real) requires Positive(w) && 0 < n <= |w| {
    && PeakOf(w, n, peak)
    && Attained(w, worst) && -1.0 < worst <= 0.0
    && (forall i, j | 0 <= i <= j < n :: worst <= Change(w[i].price, w[j].price))
  }

  lemma NewLossIsAttained(w: seq<Close>, n: nat, peak: real)
    requires Positive(w) && n < |w| && PeakOf(w, n + 1, peak)
    ensures peak > 0.0 && Attained(w, Change(peak, w[n].price))
  {
    var at :| 0 <= at < n + 1 && w[at].price == peak;
    assert Change(w[at].price, w[n].price) == Change(peak, w[n].price);
  }

  lemma OneSessionMore(w: seq<Close>, n: nat, peak: real, worst: real)
    requires Positive(w) && 0 < n < |w| && LossSoFar(w, n, peak, worst)
    ensures var p := if w[n].price > peak then w[n].price else peak;
      && p > 0.0
      && var d := Change(p, w[n].price);
         LossSoFar(w, n + 1, p, if d < worst then d else worst)
  {
    var p := if w[n].price > peak then w[n].price else peak;
    PeakGoesOn(w, n, peak);
    PeakLosesMost(w, n, p);
    NewLossIsAttained(w, n, p);
  }

  lemma FirstSession(w: seq<Close>)
    requires Positive(w) && w != []
    ensures LossSoFar(w, 1, w[0].price, 0.0)
  {
    PeakGoesOn(w, 0, w[0].price);
    PeakLosesMost(w, 0, w[0].price);
    NewLossIsAttained(w, 0, w[0].price);
    assert Change(w[0].price, w[0].price) == 0.0;
  }

  ghost predicate Looping(w: seq<Close>, n: nat, peak: real, worst: real) requires Positive(w) && w != [] && n <= |w| {
    if n == 0 then peak == w[0].price && worst == 0.0 else LossSoFar(w, n, peak, worst)
  }

  function Peak(peak: real, price: real): real { if price > peak then price else peak }

  lemma OneRound(w: seq<Close>, n: nat, peak: real, worst: real)
    requires Positive(w) && n < |w| && Looping(w, n, peak, worst)
    ensures var p := Peak(peak, w[n].price);
      p > 0.0 && Looping(w, n + 1, p, if Change(p, w[n].price) < worst then Change(p, w[n].price) else worst)
  {
    if n == 0 {
      FirstSession(w);
      assert Change(w[0].price, w[0].price) == 0.0;
    } else {
      OneSessionMore(w, n, peak, worst);
    }
  }

  lemma AfterTheLoop(w: seq<Close>, peak: real, worst: real)
    requires Positive(w) && w != [] && Looping(w, |w|, peak, worst)
    ensures WorstChange(w, worst * 100.0 / 100.0) && -100.0 < worst * 100.0 <= 0.0
  {
    assert worst * 100.0 / 100.0 == worst;
  }

  /** x percent of the price of session i is what was gained, or lost, up to session j. */
  predicate IsPercent(s: seq<Close>, i: nat, j: nat, x: real) requires i < |s| && j < |s| {
    x * s[i].price == 100.0 * (s[j].price - s[i].price)
  }

  /** x percent is the worst change from a session to it or a later one, of the last 252. */
  ghost predicate WorstPercent(s: seq<Close>, x: real) {
    var first := if |s| > 252 then |s| - 252 else 0;
    && (exists i: nat, j: nat :: first <= i <= j < |s| && IsPercent(s, i, j, x))
    && (forall i: nat, j: nat | first <= i <= j < |s| :: x * s[i].price <= 100.0 * (s[j].price - s[i].price))
  }

  lemma PercentOf(low: real, price: real, x: real)
    requires low > 0.0
    ensures x / 100.0 == Change(low, price) <==> x * low == 100.0 * (price - low)
    ensures x / 100.0 <= Change(low, price) <==> x * low <= 100.0 * (price - low)
  {
    var c := Change(low, price);
    assert c * low == price - low;
    if x / 100.0 <= c { assert (c - x / 100.0) * low >= 0.0; } else { assert (x / 100.0 - c) * low > 0.0; }
  }

  /** Session k of the window is so many sessions on in the series. */
  lemma WindowIsTheEnd(s: seq<Close>, k: nat)
    requires k < |Window(s)|
    ensures |s| - |Window(s)| == if |s| > 252 then |s| - 252 else 0
    ensures Window(s)[k] == s[|s| - |Window(s)| + k]
  {
  }

  lemma WorstIsAttained(s: seq<Close>, x: real) returns (i: nat, j: nat)
    requires Positive(s) && Attained(Window(s), x / 100.0)
    ensures |s| - |Window(s)| <= i <= j < |s| && IsPercent(s, i, j, x)
  {
    var w := Window(s);
    var a, b :| 0 <= a <= b < |w| && w[a].price > 0.0 && Change(w[a].price, w[b].price) == x / 100.0;
    WindowIsTheEnd(s, a);
    WindowIsTheEnd(s, b);
    i, j := |s| - |w| + a, |s| - |w| + b;
    PercentAt(s, i, j, x);
  }

  lemma PercentAt(s: seq<Close>, i: nat, j: nat, x: real)
    requires i < |s| && j < |s| && s[i].price > 0.0 && Change(s[i].price, s[j].price) == x / 100.0
    ensures IsPercent(s, i, j, x)
  {
    PercentOf(s[i].price, s[j].price, x);
  }

  lemma NothingIsWorse(s: seq<Close>, x: real, i: nat, j: nat)
    requires Positive(s) && WorstChange(Window(s), x / 100.0) && |s| - |Window(s)| <= i <= j < |s|
    ensures x * s[i].price <= 100.0 * (s[j].price - s[i].price)
  {
    var w := Window(s);
    var a, b := i - (|s| - |w|), j - (|s| - |w|);
    WindowIsTheEnd(s, a);
    WindowIsTheEnd(s, b);
    assert x / 100.0 <= Change(w[a].price, w[b].price);
    PercentAtMost(s, i, j, x);
  }

  lemma PercentAtMost(s: seq<Close>, i: nat, j: nat, x: real)
    requires i < |s| && j < |s| && s[i].price > 0.0 && x / 100.0 <= Change(s[i].price, s[j].price)
    ensures x * s[i].price <= 100.0 * (s[j].price - s[i].price)
  {
    PercentOf(s[i].price, s[j].price, x);
  }

  lemma WorstInPercent(s: seq<Close>, x: real)
    requires Positive(s) && WorstChange(Window(s), x / 100.0)
    ensures WorstPercent(s, x)
  {
    var i, j := WorstIsAttained(s, x);
    WindowIsTheEnd(s, 0);
    forall a: nat, b: nat | |s| - |Window(s)| <= a <= b < |s|
      ensures x * s[a].price <= 100.0 * (s[b].price - s[a].price)
    {
      NothingIsWorse(s, x, a, b);
    }
  }

  /** `compute_max_drawdown`: None without two sessions, else a hundred times the worst change in the window. */
  method MaxDrawdown(s: seq<Close>) returns (value: Option<real>)
    requires Positive(s)
    ensures value.None? <==> |s| < 2
    ensures value.Some? ==> WorstChange(Window(s), value.value / 100.0) && -100.0 < value.value <= 0.0
    ensures value.Some? ==> WorstPercent(s, value.value)
  {
    var window := Window(s);
    if |window| < 2 { return None; }
    var peak := window[0].price;
    var worst := 0.0;
    for n := 0 to |window|
      invariant Looping(window, n, peak, worst)
    {
      var price := window[n].price;
      OneRound(window, n, peak, worst);
      if price > peak { peak := price; }
      var drawdown := Change(peak, price);
      if drawdown < worst { worst := drawdown; }
    }
    AfterTheLoop(window, peak, worst);
    WorstInPercent(s, worst * 100.0);
    return Some(worst * 100.0);
  }

  /** The result is determined: there is only one worst change. */
  lemma WorstChangeIsUnique(w: seq<Close>, x: real, y: real)
    requires WorstChange(w, x) && WorstChange(w, y)
    ensures x == y
  {
  }

  // ---------------------------------------------------------------- period returns

  /** `_period_return`: None without more sessions than the period has. */
  function PeriodReturn(s: seq<Close>, sessions: nat): Option<real> requires Positive(s) {
    if |s| <= sessions then None
    else Some(Change(s[|s| - sessions - 1].price, s[|s| - 1].price) * 100.0)
  }

  /** The return over so many sessions is the percentage gained since the close that many sessions before the last. */
  lemma ReturnMeans(s: seq<Close>, sessions: nat)
    requires Positive(s)
    ensures PeriodReturn(s, sessions).Some? <==> sessions < |s|
    ensures sessions < |s| ==> IsPercent(s, |s| - 1 - sessions, |s| - 1, PeriodReturn(s, sessions).value)
  {
    if sessions < |s| {
      PercentOf(s[|s| - 1 - sessions].price, s[|s| - 1].price, PeriodReturn(s, sessions).value);
    }
  }

  /** A return whose start lies in the drawdown window is never worse than the drawdown. That covers the periods of 21,
      63 and 126 sessions; the year of 252 sessions starts one session before the window. */
  lemma ReturnsStayAboveTheDrawdown(s: seq<Close>, sessions: nat, drawdown: real)
    requires Positive(s) && sessions < DRAWDOWN_WINDOW_SESSIONS && sessions < |s|
    requires WorstChange(Window(s), drawdown / 100.0)
    ensures drawdown <= PeriodReturn(s, sessions).value
  {
    var w := Window(s);
    var i, j := |w| - sessions - 1, |w| - 1;
    assert w[i] == s[|s| - sessions - 1] && w[j] == s[|s| - 1];
    assert drawdown / 100.0 <= Change(w[i].price, w[j].price);
  }

  /** The one-year return starts a session before the window, so it can be worse than the drawdown. */
  lemma TheYearCanBeWorse(s: seq<Close>)
    requires |s| == DRAWDOWN_WINDOW_SESSIONS + 1 && s[0].price == 200.0
    requires forall i | 0 < i < |s| :: s[i].price == 100.0
    ensures Positive(s) && WorstChange(Window(s), 0.0) && PeriodReturn(s, 252) == Some(-50.0)
  {
    var w := Window(s);
    assert forall i | 0 <= i < |w| :: w[i] == s[i + 1];
    assert Change(w[0].price, w[0].price) == 0.0;
  }

  /** It is not when some session of the window closes at least as high as the year started. */
  lemma TheYearStaysAboveTheDrawdown(s: seq<Close>, drawdown: real, k: nat)
    requires Positive(s) && |s| > DRAWDOWN_WINDOW_SESSIONS && WorstChange(Window(s), drawdown / 100.0)
    requires k < |Window(s)| && Window(s)[k].price >= s[|s| - DRAWDOWN_WINDOW_SESSIONS - 1].price
    ensures drawdown <= PeriodReturn(s, DRAWDOWN_WINDOW_SESSIONS).value
  {
    var w := Window(s);
    var start, last := s[|s| - DRAWDOWN_WINDOW_SESSIONS - 1].price, |w| - 1;
    assert w[last] == s[|s| - 1] && w[k] == s[|s| - |w| + k];
    HigherPeakLosesMore(start, w[k].price, w[last].price);
    assert drawdown / 100.0 <= Change(w[k].price, w[last].price);
  }

  ghost predicate StaysAbove(s: seq<Close>, sessions: nat, drawdown: real) {
    Positive(s) && sessions < |s| && WorstChange(Window(s), drawdown / 100.0) ==>
      drawdown <= PeriodReturn(s, sessions).value
  }

  /** Of the periods up to a year, exactly those shorter than the window never return less than the drawdown, whatever
      the closes are. */
  lemma PeriodsThatStayAbove(sessions: nat)
    requires sessions <= DRAWDOWN_WINDOW_SESSIONS
    ensures (forall s, drawdown :: StaysAbove(s, sessions, drawdown)) <==> sessions < DRAWDOWN_WINDOW_SESSIONS
  {
    if sessions < DRAWDOWN_WINDOW_SESSIONS {
      forall s, drawdown ensures StaysAbove(s, sessions, drawdown) {
        if Positive(s) && sessions < |s| && WorstChange(Window(s), drawdown / 100.0) {
          ReturnsStayAboveTheDrawdown(s, sessions, drawdown);
        }
      }
    } else {
      var s := seq(DRAWDOWN_WINDOW_SESSIONS + 1, i requires 0 <= i <= DRAWDOWN_WINDOW_SESSIONS =>
                     Close(i, if i == 0 then 200.0 else 100.0));
      TheYearCanBeWorse(s);
      assert !StaysAbove(s, sessions, 0.0);
    }
  }
}
