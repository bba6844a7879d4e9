/** History gaps: which revenue and profit figures are still to be acquired, on the fiscal calendar of the latest
    reported period of one coherent group of facts. */
module FinancialHistory {
  import opened Common
  import opened FinancialCalendar

  datatype Metric = Revenue | Pat
  datatype RawMetric = Plain(metric: Metric) | TotalRevenue | NetIncome | NetProfit | OtherMetric
  datatype Kind = Annual | Quarterly
  datatype Basis = Standalone | Consolidated | UnknownBasis

  /** A persisted fact: `kind` is None for other period types, `periodEnd` for text that is no date, `unit` for
      anything that does not normalise to a three-letter currency. */
  datatype Fact = Fact(instrument: int, metric: RawMetric, periodEnd: Option<Date>, kind: Option<Kind>, basis: Basis,
                       isReal: bool, supportedTier: bool, hasValue: bool, unit: Option<int>)

  /** Annual facts are grouped by fiscal end as well. */
  datatype Group = Group(instrument: int, basis: Basis, unit: int, fiscalEnd: Option<(int, int)>)

  datatype Point = Point(metric: Metric, period: Date)

  datatype FactKey = FactKey(instrument: int, metric: Metric, period: Date, kind: Kind, basis: Basis)

  function Alias(m: RawMetric): Option<Metric> {
    match m
    case Plain(x) => Some(x)
    case TotalRevenue => Some(Revenue)
    case NetIncome | NetProfit => Some(Pat)
    case OtherMetric => None
  }

  predicate Usable(f: Fact, kind: Kind) {
    && f.isReal && f.supportedTier && f.kind == Some(kind) && Alias(f.metric).Some? && !f.basis.UnknownBasis?
    && f.hasValue && f.periodEnd.Some? && Valid(f.periodEnd.value) && f.unit.Some?
  }

  function GroupOf(f: Fact, kind: Kind): Group requires Usable(f, kind) {
    Group(f.instrument, f.basis, f.unit.value,
          if kind.Annual? then Some((f.periodEnd.value.month, f.periodEnd.value.day)) else None)
  }

  function PointOf(f: Fact, kind: Kind): Point requires Usable(f, kind) {
    Point(Alias(f.metric).value, f.periodEnd.value)
  }

  // ---------------------------------------------------------------- grouping

  /** The (metric, period) pairs of one group, each once. */
  function Present(facts: seq<Fact>, kind: Kind, g: Group): seq<Point> {
    if facts == [] then [] else
    var before := Present(facts[..|facts| - 1], kind, g);
    var f := facts[|facts| - 1];
    if Usable(f, kind) && GroupOf(f, kind) == g && PointOf(f, kind) !in before then before + [PointOf(f, kind)]
      else before
  }

  /** The groups in the order in which they first appear. */
  function Groups(facts: seq<Fact>, kind: Kind): seq<Group> {
    if facts == [] then [] else
    var before := Groups(facts[..|facts| - 1], kind);
    var f := facts[|facts| - 1];
    if Usable(f, kind) && GroupOf(f, kind) !in before then before + [GroupOf(f, kind)] else before
  }

  lemma {:induction false} PresentMembers(facts: seq<Fact>, kind: Kind, g: Group)
    ensures forall p :: p in Present(facts, kind, g) <==>
      exists i :: 0 <= i < |facts| && Usable(facts[i], kind) && GroupOf(facts[i], kind) == g
        && PointOf(facts[i], kind) == p
    ensures Unrepeated(Present(facts, kind, g))
    ensures g in Groups(facts, kind) <==> Present(facts, kind, g) != []
  {
    if facts != [] {
      PresentMembers(facts[..|facts| - 1], kind, g);
      var f := facts[|facts| - 1];
      if Usable(f, kind) && GroupOf(f, kind) == g { assert PointOf(f, kind) in Present(facts, kind, g); }
    }
  }

  /** More facts only append. */
  lemma {:induction false} FactsOnlyAppend(facts: seq<Fact>, more: seq<Fact>, kind: Kind, g: Group)
    ensures Present(facts, kind, g) <= Present(facts + more, kind, g)
    ensures Groups(facts, kind) <= Groups(facts + more, kind)
    decreases |more|
  {
    if more == [] {
      assert facts + more == facts;
    } else {
      var init := more[..|more| - 1];
      assert (facts + more)[..|facts + more| - 1] == facts + init;
      FactsOnlyAppend(facts, init, kind, g);
    }
  }

  /** Facts of another group leave a group as it is. */
  lemma {:induction false} OtherGroupsStay(facts: seq<Fact>, more: seq<Fact>, kind: Kind, g: Group, h: Group)
    requires g != h && g in Groups(facts, kind)
    requires forall i | 0 <= i < |more| :: Usable(more[i], kind) && GroupOf(more[i], kind) == g
    ensures Present(facts + more, kind, h) == Present(facts, kind, h)
    ensures Groups(facts + more, kind) == Groups(facts, kind)
    decreases |more|
  {
    if more == [] {
      assert facts + more == facts;
    } else {
      var init := more[..|more| - 1];
      assert (facts + more)[..|facts + more| - 1] == facts + init;
      assert GroupOf(more[|more| - 1], kind) == g;
      OtherGroupsStay(facts, init, kind, g, h);
    }
  }

  /** The grouping loop. */
  method Collect(facts: seq<Fact>, kind: Kind) returns (order: seq<Group>, groups: map<Group, seq<Point>>)
    ensures order == Groups(facts, kind)
    ensures forall g :: g in groups <==> g in order
    ensures forall g | g in groups :: groups[g] == Present(facts, kind, g)
  {
    order, groups := [], map[];
    assert facts[..0] == [];
    for n := 0 to |facts|
      invariant order == Groups(facts[..n], kind)
      invariant forall g :: g in groups <==> g in order
      invariant forall g | g in groups :: groups[g] == Present(facts[..n], kind, g)
    {
      var f := facts[n];
      assert facts[..n + 1][..n] == facts[..n];
      if Usable(f, kind) {
        var g, p := GroupOf(f, kind), PointOf(f, kind);
        PresentMembers(facts[..n], kind, g);
        if g !in groups {
          order, groups := order + [g], groups[g := [p]];
        } else if p !in groups[g] {
          groups := groups[g := groups[g] + [p]];
        }
      }
    }
    assert facts[..|facts|] == facts;
  }

  // ---------------------------------------------------------------- one coherent group

  function LatestOf(points: seq<Point>): Date requires points != [] {
    var last := points[|points| - 1].period;
    if |points| == 1 then last
    else
      var before := LatestOf(points[..|points| - 1]);
      if Before(before, last) then last else before
  }

  lemma {:induction false} LatestIsLast(points: seq<Point>)
    requires points != []
    ensures exists i :: 0 <= i < |points| && points[i].period == LatestOf(points)
    ensures forall i | 0 <= i < |points| :: !Before(LatestOf(points), points[i].period)
  {
    var last := |points| - 1;
    if last == 0 {
      assert points[0].period == LatestOf(points);
    } else {
      LatestIsLast(points[..last]);
      var i :| 0 <= i < last && points[..last][i].period == LatestOf(points[..last]);
      assert points[i].period == LatestOf(points) || points[last].period == LatestOf(points);
      forall i | 0 <= i < |points| ensures !Before(LatestOf(points), points[i].period) {
        if i < last { assert points[..last][i] == points[i]; }
      }
    }
  }

  /** The greatest period of the points is what it is however they are listed. */
  lemma LatestIs(points: seq<Point>, d: Date)
    requires points != [] && (exists i :: 0 <= i < |points| && points[i].period == d)
    requires forall i | 0 <= i < |points| :: !Before(d, points[i].period)
    ensures LatestOf(points) == d
  {
    LatestIsLast(points);
    var i :| 0 <= i < |points| && points[i].period == d;
    var j :| 0 <= j < |points| && points[j].period == LatestOf(points);
    assert !Before(d, points[j].period) && !Before(points[j].period, points[i].period);
  }

  /** `(latest period, is consolidated, size)`, compared from left to right. */
  datatype Rank = Rank(latest: Date, consolidated: bool, size: nat)

  function RankOf(g: Group, points: seq<Point>): Rank requires points != [] {
    Rank(LatestOf(points), g.basis.Consolidated?, |points|)
  }

  predicate Outranks(a: Rank, b: Rank) {
    Before(b.latest, a.latest)
    || (a.latest == b.latest
        && ((a.consolidated && !b.consolidated) || (a.consolidated == b.consolidated && a.size > b.size)))
  }

  /** The key function of the selection. */
  function Ranks(facts: seq<Fact>, kind: Kind): Group -> Rank {
    g => if Present(facts, kind, g) == [] then Rank(Date(0, 0, 0), false, 0) else RankOf(g, Present(facts, kind, g))
  }

  /** The first group that no other outranks. */
  function Best(order: seq<Group>, rank: Group -> Rank): Group
    requires order != []
  {
    var last := order[|order| - 1];
    if |order| == 1 then last
    else
      var before := Best(order[..|order| - 1], rank);
      if Outranks(rank(last), rank(before)) then last else before
  }

  lemma {:induction false} BestIsUnmatched(order: seq<Group>, rank: Group -> Rank)
    requires order != []
    ensures Best(order, rank) in order
    ensures forall g | g in order :: !Outranks(rank(g), rank(Best(order, rank)))
  {
    var n := |order| - 1;
    if n > 0 {
      var init := order[..n];
      assert order == init + [order[n]];
      BestIsUnmatched(init, rank);
    }
  }

  /** A group that outranks every other is the one selected. */
  lemma BestIsTheOne(order: seq<Group>, rank: Group -> Rank, g: Group)
    requires order != []
    requires g in order && forall h | h in order && h != g :: Outranks(rank(g), rank(h))
    ensures Best(order, rank) == g
  {
    BestIsUnmatched(order, rank);
  }

  lemma {:induction false} SameRanksSameBest(order: seq<Group>, p: Group -> Rank, q: Group -> Rank)
    requires order != [] && forall g | g in order :: p(g) == q(g)
    ensures Best(order, p) == Best(order, q)
  {
    var n := |order| - 1;
    if n > 0 {
      var init := order[..n];
      assert order == init + [order[n]];
      SameRanksSameBest(init, p, q);
      BestIsUnmatched(init, p);
    }
  }

  lemma BestSoFar(order: seq<Group>, rank: Group -> Rank, n: nat)
    requires 0 < n < |order|
    ensures Best(order[..n], rank) in order && order[n] in order
    ensures Best(order[..n + 1], rank) ==
      if Outranks(rank(order[n]), rank(Best(order[..n], rank))) then order[n] else Best(order[..n], rank)
  {
    assert order[..n + 1][..n] == order[..n];
    BestIsUnmatched(order[..n], rank);
  }

  /** `max(groups, key=...)` */
  method SelectGroup(facts: seq<Fact>, kind: Kind, order: seq<Group>, groups: map<Group, seq<Point>>)
    returns (best: Group)
    requires order != [] && order == Groups(facts, kind)
    requires forall g | g in order :: g in groups && groups[g] == Present(facts, kind, g)
    ensures best in order && best == Best(order, Ranks(facts, kind))
  {
    best := order[0];
    assert best in order;
    assert order[..1] == [order[0]];
    for n := 1 to |order|
      invariant best in order && best == Best(order[..n], Ranks(facts, kind))
    {
      BestSoFar(order, Ranks(facts, kind), n);
      var g := order[n];
      PresentMembers(facts, kind, g);
      PresentMembers(facts, kind, best);
      if Outranks(RankOf(g, groups[g]), RankOf(best, groups[best])) { best := g; }
    }
    assert order[..|order|] == order;
  }

  // ---------------------------------------------------------------- the gaps

  /** The periods asked for; `None` when the calendar runs out of years. */
  function Required(kind: Kind, latest: Date): Option<seq<Date>> {
    if kind.Quarterly? then QuarterEnds(latest)
    else if YearBack(latest, 0).None? || YearBack(latest, 1).None? || YearBack(latest, 2).None? then None
    else Some([YearBack(latest, 0).value, YearBack(latest, 1).value, YearBack(latest, 2).value])
  }

  function Key(kind: Kind, g: Group, p: Point): FactKey { FactKey(g.instrument, p.metric, p.period, kind, g.basis) }

  function GapsAt(kind: Kind, g: Group, d: Date, present: seq<Point>): set<FactKey> {
    (if Point(Revenue, d) !in present then {Key(kind, g, Point(Revenue, d))} else {})
    + (if Point(Pat, d) !in present then {Key(kind, g, Point(Pat, d))} else {})
  }

  function GapsOver(kind: Kind, g: Group, required: seq<Date>, present: seq<Point>): set<FactKey> {
    if required == [] then {}
    else GapsOver(kind, g, required[..|required| - 1], present) + GapsAt(kind, g, required[|required| - 1], present)
  }

  lemma GapsAtOnePeriod(kind: Kind, g: Group, d: Date, present: seq<Point>, k: FactKey)
    ensures k in GapsAt(kind, g, d, present) <==>
      k == Key(kind, g, Point(k.metric, k.period)) && k.period == d && Point(k.metric, k.period) !in present
  {
    match k.metric
    case Revenue =>
    case Pat =>
  }

  /** Exactly the pairs of a required period and a metric that are not present yet, under the group's identity. */
  lemma {:induction false} GapMembers(kind: Kind, g: Group, required: seq<Date>, present: seq<Point>, k: FactKey)
    ensures k in GapsOver(kind, g, required, present) <==>
      k == Key(kind, g, Point(k.metric, k.period)) && k.period in required && Point(k.metric, k.period) !in present
  {
    if required != [] {
      var init := required[..|required| - 1];
      assert required == init + [required[|required| - 1]];
      GapMembers(kind, g, init, present, k);
      GapsAtOnePeriod(kind, g, required[|required| - 1], present, k);
    }
  }

  function GapsIn(kind: Kind, g: Group, present: seq<Point>): Option<set<FactKey>> requires present != [] {
    var required := Required(kind, LatestOf(present));
    if required.None? then None else Some(GapsOver(kind, g, required.value, present))
  }

  /** `annual_income_history_gaps` and `quarterly_income_history_gaps`; `None` when they raise. */
  function Gaps(facts: seq<Fact>, kind: Kind): Option<set<FactKey>> {
    var order := Groups(facts, kind);
    if order == [] then Some({})
    else
      BestIsUnmatched(order, Ranks(facts, kind));
      var g := Best(order, Ranks(facts, kind));
      PresentMembers(facts, kind, g);
      GapsIn(kind, g, Present(facts, kind, g))
  }

  // ---------------------------------------------------------------- what the gaps are, fact by fact

  /** A fact reports this metric for this period: real, of a supported tier, on a known basis, with a value and a unit,
      under one of the metric's names. */
  predicate Reports(f: Fact, kind: Kind, p: Point) {
    && f.isReal && f.supportedTier && f.hasValue && f.unit.Some? && f.kind == Some(kind)
    && (f.basis == Standalone || f.basis == Consolidated) && f.periodEnd == Some(p.period) && Valid(p.period)
    && (p.metric == Revenue ==> f.metric == Plain(Revenue) || f.metric == TotalRevenue)
    && (p.metric == Pat ==> f.metric == Plain(Pat) || f.metric == NetIncome || f.metric == NetProfit)
  }

  /** Facts of one instrument, basis and unit belong together, annual ones if their years end on the same day. */
  predicate BelongsTo(f: Fact, kind: Kind, g: Group) {
    && f.instrument == g.instrument && f.basis == g.basis && f.unit == Some(g.unit)
    && (kind == Quarterly ==> g.fiscalEnd == None)
    && (kind == Annual ==> f.periodEnd.Some? && g.fiscalEnd == Some((f.periodEnd.value.month, f.periodEnd.value.day)))
  }

  lemma FactIsRead(f: Fact, kind: Kind, g: Group, p: Point)
    ensures Usable(f, kind) && GroupOf(f, kind) == g && PointOf(f, kind) == p <==>
      Reports(f, kind, p) && BelongsTo(f, kind, g)
  {
  }

  ghost predicate Reported(facts: seq<Fact>, kind: Kind, g: Group, p: Point) {
    exists i :: 0 <= i < |facts| && Reports(facts[i], kind, p) && BelongsTo(facts[i], kind, g)
  }

  lemma PresentIsReported(facts: seq<Fact>, kind: Kind, g: Group, p: Point)
    ensures p in Present(facts, kind, g) <==> Reported(facts, kind, g, p)
  {
    PresentMembers(facts, kind, g);
    forall f ensures Usable(f, kind) && GroupOf(f, kind) == g && PointOf(f, kind) == p <==>
        Reports(f, kind, p) && BelongsTo(f, kind, g)
    {
      FactIsRead(f, kind, g, p);
    }
  }

  /** The groups are those something is reported of. */
  lemma GroupsAreReported(facts: seq<Fact>, kind: Kind, g: Group)
    ensures g in Groups(facts, kind) <==> exists p :: Reported(facts, kind, g, p)
  {
    PresentMembers(facts, kind, g);
    if g in Groups(facts, kind) {
      var p := Present(facts, kind, g)[0];
      assert p in Present(facts, kind, g);
      PresentIsReported(facts, kind, g, p);
    }
    if p :| Reported(facts, kind, g, p) {
      PresentIsReported(facts, kind, g, p);
      assert Present(facts, kind, g) != [];
    }
  }

  /** Of all groups the one is selected whose latest period is the latest, then a consolidated one, then the largest,
      then the first. */
  lemma SelectionMeans(facts: seq<Fact>, kind: Kind, i: nat)
    requires i < |Groups(facts, kind)|
    ensures var order := Groups(facts, kind);
      var best, g := Best(order, Ranks(facts, kind)), order[i];
      && best in order && Present(facts, kind, best) != [] && Present(facts, kind, g) != []
      && var (d, e) := (LatestOf(Present(facts, kind, best)), LatestOf(Present(facts, kind, g)));
         && !Before(d, e)
         && (d == e && g.basis == Consolidated ==> best.basis == Consolidated)
         && (d == e && (g.basis == Consolidated <==> best.basis == Consolidated) ==>
               var (n, m) := (|Present(facts, kind, g)|, |Present(facts, kind, best)|);
               n <= m && (n == m ==> exists j :: 0 <= j <= i && order[j] == best))
  {
    var order := Groups(facts, kind);
    var g := order[i];
    assert g in order;
    BestIsUnmatched(order, Ranks(facts, kind));
    PresentMembers(facts, kind, g);
    PresentMembers(facts, kind, Best(order, Ranks(facts, kind)));
    BestIsFirst(order, Ranks(facts, kind), i);
  }

  /** Whatever ranks as high as the best comes no earlier. */
  lemma {:induction false} BestIsFirst(order: seq<Group>, rank: Group -> Rank, i: nat)
    requires i < |order|
    ensures rank(order[i]) == rank(Best(order, rank)) ==> exists j :: 0 <= j <= i && order[j] == Best(order, rank)
  {
    var n := |order| - 1;
    if i < n {
      var init := order[..n];
      BestIsFirst(init, rank, i);
      BestIsUnmatched(init, rank);
      assert init[i] == order[i] && order[i] in init;
      if Best(order, rank) == Best(init, rank) && rank(order[i]) == rank(Best(init, rank)) {
        var j :| 0 <= j <= i && init[j] == Best(init, rank);
        assert order[j] == Best(order, rank);
      }
    } else {
      BestIsUnmatched(order, rank);
      var j :| 0 <= j < |order| && order[j] == Best(order, rank);
    }
  }

  /** The periods asked for: three years back from the anchor, the leap day giving way to the 28th, or the ends of the
      anchor's month and of the months three, six and nine before. */
  predicate AskedFor(kind: Kind, anchor: Date, d: Date) {
    match kind
    case Annual =>
      && anchor.year - 2 <= d.year <= anchor.year && d.month == anchor.month
      && d.day == (if anchor.month == 2 && anchor.day == 29 && d.year != anchor.year then 28 else anchor.day)
    case Quarterly =>
      var back := 12 * anchor.year + anchor.month - 12 * d.year - d.month;
      Valid(d) && MonthEnd(d) && (back == 0 || back == 3 || back == 6 || back == 9)
  }

  lemma YearsAskedFor(anchor: Date, d: Date)
    requires Valid(anchor) && Required(Annual, anchor).Some?
    ensures d in Required(Annual, anchor).value <==> AskedFor(Annual, anchor, d)
  {
    YearsBack(anchor, 0);
    YearsBack(anchor, 1);
    YearsBack(anchor, 2);
    var years := Required(Annual, anchor).value;
    if AskedFor(Annual, anchor, d) { assert years[anchor.year - d.year] == d; }
  }

  lemma QuartersAskedFor(anchor: Date, d: Date)
    requires Valid(anchor) && Required(Quarterly, anchor).Some?
    ensures d in Required(Quarterly, anchor).value <==> AskedFor(Quarterly, anchor, d)
  {
    QuarterEndsAre(anchor);
    var ends := QuarterEnds(anchor).value;
    if AskedFor(Quarterly, anchor, d) {
      var k := (12 * anchor.year + anchor.month - 12 * d.year - d.month) / 3;
      assert ends[k] == d;
    }
  }

  /** The gaps are the figures asked for that no fact of the selected group reports. */
  lemma GapsMean(facts: seq<Fact>, kind: Kind, k: FactKey)
    requires Groups(facts, kind) != [] && Gaps(facts, kind).Some?
    ensures var g := Selected(facts, kind);
      k in Gaps(facts, kind).value <==>
        && k.instrument == g.instrument && k.kind == kind && k.basis == g.basis
        && AskedFor(kind, Anchor(facts, kind), k.period) && !Reported(facts, kind, g, Point(k.metric, k.period))
  {
    var g, anchor := Selected(facts, kind), Anchor(facts, kind);
    BestIsUnmatched(Groups(facts, kind), Ranks(facts, kind));
    PresentMembers(facts, kind, g);
    AnchorIsReported(facts, kind);
    if kind.Annual? { YearsAskedFor(anchor, k.period); } else { QuartersAskedFor(anchor, k.period); }
    GapMembers(kind, g, Required(kind, anchor).value, Present(facts, kind, g), k);
    PresentIsReported(facts, kind, g, Point(k.metric, k.period));
  }

  method RequiredPeriods(kind: Kind, latest: Date) returns (required: Option<seq<Date>>)
    ensures required == Required(kind, latest)
  {
    if kind.Quarterly? {
      required := QuarterStartsFrom(latest);
    } else {
      var years: seq<Date> := [];
      for offset := 0 to ANNUAL_MIN_PERIODS
        invariant |years| == offset && forall k | 0 <= k < offset :: YearBack(latest, k) == Some(years[k])
      {
        var period := YearBack(latest, offset);
        if period.None? { return None; }
        years := years + [period.value];
      }
      assert years == [years[0], years[1], years[2]];
      required := Some(years);
    }
  }

  /** The nested loops over periods and metrics. */
  method ListMissing(kind: Kind, g: Group, required: seq<Date>, present: seq<Point>) returns (missing: set<FactKey>)
    ensures missing == GapsOver(kind, g, required, present)
  {
    missing := {};
    for n := 0 to |required|
      invariant missing == GapsOver(kind, g, required[..n], present)
    {
      var d := required[n];
      assert required[..n + 1][..n] == required[..n];
      if Point(Revenue, d) !in present { missing := missing + {Key(kind, g, Point(Revenue, d))}; }
      if Point(Pat, d) !in present { missing := missing + {Key(kind, g, Point(Pat, d))}; }
    }
    assert required[..|required|] == required;
  }

  method HistoryGaps(facts: seq<Fact>, kind: Kind) returns (gaps: Option<set<FactKey>>)
    ensures gaps == Gaps(facts, kind)
  {
    var order, groups := Collect(facts, kind);
    if order == [] { return Some({}); }
    assert forall g | g in order :: g in groups;
    var g := SelectGroup(facts, kind, order, groups);
    var present := groups[g];
    PresentMembers(facts, kind, g);
    var required := RequiredPeriods(kind, LatestOf(present));
    if required.None? { return None; }
    var missing := ListMissing(kind, g, required.value, present);
    return Some(missing);
  }

  // ---------------------------------------------------------------- supplying what was reported

  ghost predicate Brings(more: seq<Fact>, kind: Kind, p: Point) {
    exists i :: 0 <= i < |more| && Usable(more[i], kind) && PointOf(more[i], kind) == p
  }

  /** The facts answer exactly these keys: usable, of the selected group's instrument, basis and unit, one for each. */
  ghost predicate Supplies(more: seq<Fact>, kind: Kind, g: Group, gaps: set<FactKey>) {
    && (forall i | 0 <= i < |more| ::
          Usable(more[i], kind) && more[i].instrument == g.instrument && more[i].basis == g.basis
          && more[i].unit == Some(g.unit) && Key(kind, g, PointOf(more[i], kind)) in gaps)
    && (forall k | k in gaps :: Brings(more, kind, Point(k.metric, k.period)))
  }

  function Selected(facts: seq<Fact>, kind: Kind): Group requires Groups(facts, kind) != [] {
    Best(Groups(facts, kind), Ranks(facts, kind))
  }

  function Anchor(facts: seq<Fact>, kind: Kind): Date requires Groups(facts, kind) != [] {
    BestIsUnmatched(Groups(facts, kind), Ranks(facts, kind));
    PresentMembers(facts, kind, Selected(facts, kind));
    LatestOf(Present(facts, kind, Selected(facts, kind)))
  }

  lemma AnchorIsReported(facts: seq<Fact>, kind: Kind)
    requires Groups(facts, kind) != []
    ensures Valid(Anchor(facts, kind))
    ensures kind.Annual? ==>
      Selected(facts, kind).fiscalEnd == Some((Anchor(facts, kind).month, Anchor(facts, kind).day))
    ensures kind.Quarterly? ==> Selected(facts, kind).fiscalEnd.None?
  {
    BestIsUnmatched(Groups(facts, kind), Ranks(facts, kind));
    var g := Selected(facts, kind);
    PresentMembers(facts, kind, g);
    LatestIsLast(Present(facts, kind, g));
    var i :| 0 <= i < |Present(facts, kind, g)| && Present(facts, kind, g)[i].period == Anchor(facts, kind);
    assert Present(facts, kind, g)[i] in Present(facts, kind, g);
  }

  lemma GapsAre(facts: seq<Fact>, kind: Kind)
    requires Groups(facts, kind) != []
    ensures Present(facts, kind, Selected(facts, kind)) != []
    ensures Gaps(facts, kind) == GapsIn(kind, Selected(facts, kind), Present(facts, kind, Selected(facts, kind)))
  {
    BestIsUnmatched(Groups(facts, kind), Ranks(facts, kind));
    PresentMembers(facts, kind, Selected(facts, kind));
  }

  /** Outside leap-day fiscal ends every period asked for belongs to the selected group's calendar. */
  lemma SuppliedFactJoinsTheGroup(facts: seq<Fact>, kind: Kind, f: Fact)
    requires Groups(facts, kind) != [] && Gaps(facts, kind).Some? && Usable(f, kind)
    requires f.instrument == Selected(facts, kind).instrument && f.basis == Selected(facts, kind).basis
    requires f.unit == Some(Selected(facts, kind).unit)
    requires f.periodEnd.value in Required(kind, Anchor(facts, kind)).value
    requires kind.Annual? ==> !LeapDay(Anchor(facts, kind))
    ensures GroupOf(f, kind) == Selected(facts, kind)
  {
    AnchorIsReported(facts, kind);
    var latest := Anchor(facts, kind);
    if kind.Annual? {
      YearsBack(latest, 0);
      YearsBack(latest, 1);
      YearsBack(latest, 2);
    }
  }

  lemma SuppliedFactsJoinTheGroup(facts: seq<Fact>, more: seq<Fact>, kind: Kind)
    requires Groups(facts, kind) != [] && Gaps(facts, kind).Some?
    requires Supplies(more, kind, Selected(facts, kind), Gaps(facts, kind).value)
    requires kind.Annual? ==> !LeapDay(Anchor(facts, kind))
    ensures forall i | 0 <= i < |more| ::
      GroupOf(more[i], kind) == Selected(facts, kind)
        && PointOf(more[i], kind).period in Required(kind, Anchor(facts, kind)).value
  {
    GapsAre(facts, kind);
    var g := Selected(facts, kind);
    forall i | 0 <= i < |more|
      ensures GroupOf(more[i], kind) == g && PointOf(more[i], kind).period in Required(kind, Anchor(facts, kind)).value
    {
      GapMembers(kind, g, Required(kind, Anchor(facts, kind)).value, Present(facts, kind, g),
                 Key(kind, g, PointOf(more[i], kind)));
      SuppliedFactJoinsTheGroup(facts, kind, more[i]);
    }
  }

  lemma StillSelected(facts: seq<Fact>, more: seq<Fact>, kind: Kind, g: Group)
    requires Groups(facts, kind) != [] && g == Selected(facts, kind)
    requires forall i | 0 <= i < |more| :: Usable(more[i], kind) && GroupOf(more[i], kind) == g
    ensures Groups(facts + more, kind) == Groups(facts, kind) && Selected(facts + more, kind) == g
    ensures Present(facts, kind, g) <= Present(facts + more, kind, g)
  {
    var all, order := facts + more, Groups(facts, kind);
    var before, after := Ranks(facts, kind), Ranks(all, kind);
    BestIsUnmatched(order, before);
    FactsOnlyAppend(facts, more, kind, g);
    PresentMembers(facts, kind, g);
    var p, q := Present(facts, kind, g), Present(all, kind, g);
    OtherGroupsStay(facts, more, kind, g, g.(instrument := g.instrument + 1));
    forall h | h in order && h != g ensures after(h) == before(h) { OtherGroupsStay(facts, more, kind, g, h); }
    if q == p {
      SameRanksSameBest(order, before, after);
    } else {
      LatestOnlyGrows(p, q);
      forall h | h in order && h != g ensures Outranks(after(g), after(h)) {
        assert !Outranks(before(h), before(g));
      }
      BestIsTheOne(order, after, g);
    }
  }

  lemma LatestOnlyGrows(p: seq<Point>, q: seq<Point>)
    requires p != [] && p < q
    ensures !Before(LatestOf(q), LatestOf(p)) && |p| < |q|
  {
    LatestIsLast(p);
    LatestIsLast(q);
    var i :| 0 <= i < |p| && p[i].period == LatestOf(p);
    assert q[i] == p[i];
  }

  lemma BroughtIsPresent(facts: seq<Fact>, more: seq<Fact>, kind: Kind, g: Group, p: Point)
    requires Brings(more, kind, p) && forall i | 0 <= i < |more| :: Usable(more[i], kind) && GroupOf(more[i], kind) == g
    ensures p in Present(facts + more, kind, g)
  {
    PresentMembers(facts + more, kind, g);
    var i :| 0 <= i < |more| && Usable(more[i], kind) && PointOf(more[i], kind) == p;
    assert (facts + more)[|facts| + i] == more[i];
  }

  lemma PresentWasThereOrBrought(facts: seq<Fact>, more: seq<Fact>, kind: Kind, g: Group, p: Point)
    requires p in Present(facts + more, kind, g)
    ensures p in Present(facts, kind, g) || Brings(more, kind, p)
  {
    PresentMembers(facts, kind, g);
    PresentMembers(facts + more, kind, g);
    var all := facts + more;
    var i :| 0 <= i < |all| && Usable(all[i], kind) && GroupOf(all[i], kind) == g && PointOf(all[i], kind) == p;
    if i < |facts| { assert facts[i] == all[i]; } else { assert more[i - |facts|] == all[i]; }
  }

  /** What is present once the missing points have been supplied. */
  lemma SuppliedPoints(facts: seq<Fact>, more: seq<Fact>, kind: Kind, g: Group, required: seq<Date>)
    requires Supplies(more, kind, g, GapsOver(kind, g, required, Present(facts, kind, g)))
    requires forall i | 0 <= i < |more| :: GroupOf(more[i], kind) == g && PointOf(more[i], kind).period in required
    ensures forall x: Point | x.period in required :: x in Present(facts + more, kind, g)
    ensures forall x | x in Present(facts + more, kind, g) :: x in Present(facts, kind, g) || x.period in required
  {
    var p, q := Present(facts, kind, g), Present(facts + more, kind, g);
    FactsOnlyAppend(facts, more, kind, g);
    forall x: Point | x.period in required ensures x in q {
      if x !in p {
        GapMembers(kind, g, required, p, Key(kind, g, x));
        BroughtIsPresent(facts, more, kind, g, x);
      }
    }
    forall x | x in q ensures x in p || x.period in required { PresentWasThereOrBrought(facts, more, kind, g, x); }
  }

  /** The same periods are required after supplying them. */
  lemma RequiredIsStable(kind: Kind, latest: Date, later: Date)
    requires Valid(latest) && Required(kind, latest).Some?
    requires later == if kind.Quarterly? then EndOf(latest) else latest
    ensures later in Required(kind, latest).value && Required(kind, later) == Required(kind, latest)
    ensures forall d | d in Required(kind, latest).value :: !Before(later, d)
    ensures !Before(later, latest)
  {
    var required := Required(kind, latest).value;
    if kind.Quarterly? {
      QuarterEndsAreStable(latest);
      forall d | d in required ensures !Before(later, d) {
        var i :| 0 <= i < |required| && required[i] == d;
        if i > 0 { QuarterEndsDecrease(latest, 0, i); }
      }
    } else {
      assert required[0] == latest;
    }
  }

  /** Supplying exactly the reported facts makes the gap set empty, for every quarterly anchor and every annual one
      that is not a leap day. */
  lemma SupplyingClosesTheGaps(facts: seq<Fact>, more: seq<Fact>, kind: Kind)
    requires Groups(facts, kind) != [] && Gaps(facts, kind).Some?
    requires Supplies(more, kind, Selected(facts, kind), Gaps(facts, kind).value)
    requires kind.Annual? ==> !LeapDay(Anchor(facts, kind))
    ensures Gaps(facts + more, kind) == Some({})
  {
    var g, latest := Selected(facts, kind), Anchor(facts, kind);
    var required := Required(kind, latest).value;
    var p, q := Present(facts, kind, g), Present(facts + more, kind, g);
    AnchorIsReported(facts, kind);
    GapsAre(facts, kind);
    SuppliedFactsJoinTheGroup(facts, more, kind);
    StillSelected(facts, more, kind, g);
    SuppliedPoints(facts, more, kind, g, required);
    RequiredIsStable(kind, latest, if kind.Quarterly? then EndOf(latest) else latest);
    NewLatest(p, q, required, latest, if kind.Quarterly? then EndOf(latest) else latest);
    NothingMissing(kind, g, required, q);
    GapsAre(facts + more, kind);
  }

  lemma NothingMissing(kind: Kind, g: Group, required: seq<Date>, present: seq<Point>)
    requires forall x: Point | x.period in required :: x in present
    ensures GapsOver(kind, g, required, present) == {}
  {
    forall k ensures k !in GapsOver(kind, g, required, present) { GapMembers(kind, g, required, present, k); }
  }

  lemma NewLatest(p: seq<Point>, q: seq<Point>, required: seq<Date>, latest: Date, later: Date)
    requires p != [] && p <= q && latest == LatestOf(p)
    requires later in required && !Before(later, latest) && forall d | d in required :: !Before(later, d)
    requires forall x: Point | x.period in required :: x in q
    requires forall x | x in q :: x in p || x.period in required
    ensures LatestOf(q) == later
  {
    LatestIsLast(p);
    var x := Point(Revenue, later);
    assert x in q;
    var i :| 0 <= i < |q| && q[i] == x;
    forall j | 0 <= j < |q| ensures !Before(later, q[j].period) {
      assert q[j] in q;
      if q[j] in p {
        var k :| 0 <= k < |p| && p[k] == q[j];
        assert !Before(latest, p[k].period);
      }
    }
    LatestIs(q, later);
  }

  /** A leap-day anchor can never be satisfied: the figures of the year before would have to end on 28 February,
      which is a different fiscal calendar. */
  lemma LeapDayGapsStayOpen(facts: seq<Fact>)
    requires Groups(facts, Annual) != [] && LeapDay(Anchor(facts, Annual)) && Gaps(facts, Annual).Some?
    ensures Gaps(facts, Annual) != Some({})
  {
    var g, latest := Selected(facts, Annual), Anchor(facts, Annual);
    AnchorIsReported(facts, Annual);
    GapsAre(facts, Annual);
    PresentMembers(facts, Annual, g);
    YearsBack(latest, 1);
    var d := YearBack(latest, 1).value;
    var required := Required(Annual, latest).value;
    assert d == required[1];
    GapMembers(Annual, g, required, Present(facts, Annual, g), Key(Annual, g, Point(Revenue, d)));
  }

  ghost predicate ReportedAt(facts: seq<Fact>, kind: Kind, d: Date) {
    exists i :: 0 <= i < |facts| && Usable(facts[i], kind) && facts[i].periodEnd.value == d
  }

  /** The anchor is the latest usable period of all groups, whatever group is selected for it. */
  lemma AnchorTopsEverything(facts: seq<Fact>, kind: Kind)
    requires Groups(facts, kind) != []
    ensures ReportedAt(facts, kind, Anchor(facts, kind))
    ensures forall d | ReportedAt(facts, kind, d) :: !Before(Anchor(facts, kind), d)
  {
    var order, g := Groups(facts, kind), Selected(facts, kind);
    BestIsUnmatched(order, Ranks(facts, kind));
    PresentMembers(facts, kind, g);
    var p := Present(facts, kind, g);
    LatestIsLast(p);
    var n :| 0 <= n < |p| && p[n].period == Anchor(facts, kind);
    assert p[n] in p;
    forall d | ReportedAt(facts, kind, d) ensures !Before(Anchor(facts, kind), d) {
      var i :| 0 <= i < |facts| && Usable(facts[i], kind) && facts[i].periodEnd.value == d;
      GroupIsBelow(facts, kind, i);
    }
  }

  lemma GroupIsBelow(facts: seq<Fact>, kind: Kind, i: nat)
    requires i < |facts| && Usable(facts[i], kind) && Groups(facts, kind) != []
    ensures !Before(Anchor(facts, kind), facts[i].periodEnd.value)
  {
    var h := GroupOf(facts[i], kind);
    BestIsUnmatched(Groups(facts, kind), Ranks(facts, kind));
    PresentMembers(facts, kind, h);
    var p := Present(facts, kind, h);
    assert PointOf(facts[i], kind) in p;
    LatestIsLast(p);
    var n :| 0 <= n < |p| && p[n] == PointOf(facts[i], kind);
    assert !Before(LatestOf(p), p[n].period);
    assert h in Groups(facts, kind) && !Outranks(Ranks(facts, kind)(h), Ranks(facts, kind)(Selected(facts, kind)));
  }

  /** For a leap-day anchor even supplying everything that was asked for leaves gaps. */
  lemma SupplyingALeapDayDoesNotClose(facts: seq<Fact>, more: seq<Fact>)
    requires Groups(facts, Annual) != [] && LeapDay(Anchor(facts, Annual)) && Gaps(facts, Annual).Some?
    requires Supplies(more, Annual, Selected(facts, Annual), Gaps(facts, Annual).value)
    ensures Gaps(facts + more, Annual).Some? && Gaps(facts + more, Annual) != Some({})
  {
    var all, latest := facts + more, Anchor(facts, Annual);
    FactsOnlyAppend(facts, more, Annual, Selected(facts, Annual));
    AnchorTopsEverything(facts, Annual);
    AnchorTopsEverything(all, Annual);
    GapsAre(facts, Annual);
    AnchorIsReported(facts, Annual);
    var i :| 0 <= i < |facts| && Usable(facts[i], Annual) && facts[i].periodEnd.value == latest;
    assert all[i] == facts[i] && ReportedAt(all, Annual, latest);
    forall d | ReportedAt(all, Annual, d) ensures !Before(latest, d) {
      var j :| 0 <= j < |all| && Usable(all[j], Annual) && all[j].periodEnd.value == d;
      if j < |facts| {
        assert all[j] == facts[j] && ReportedAt(facts, Annual, d);
      } else {
        assert all[j] == more[j - |facts|];
        SuppliedIsEarlier(facts, all[j]);
      }
    }
    assert !Before(latest, Anchor(all, Annual)) && !Before(Anchor(all, Annual), latest);
    assert Anchor(all, Annual) == latest;
    GapsAre(all, Annual);
    LeapDayGapsStayOpen(all);
  }

  lemma SuppliedIsEarlier(facts: seq<Fact>, f: Fact)
    requires Groups(facts, Annual) != [] && Gaps(facts, Annual).Some? && Usable(f, Annual)
    requires Key(Annual, Selected(facts, Annual), PointOf(f, Annual)) in Gaps(facts, Annual).value
    ensures !Before(Anchor(facts, Annual), f.periodEnd.value)
  {
    var g, latest := Selected(facts, Annual), Anchor(facts, Annual);
    GapsAre(facts, Annual);
    AnchorIsReported(facts, Annual);
    GapMembers(Annual, g, Required(Annual, latest).value, Present(facts, Annual, g),
               Key(Annual, g, PointOf(f, Annual)));
    YearsBack(latest, 0);
    YearsBack(latest, 1);
    YearsBack(latest, 2);
  }

  /** When gaps can be closed: whatever is reported, supplying exactly what is asked for leaves nothing to ask for if
      and only if the anchor is not the leap-day end of an annual calendar. */
  lemma WhenSupplyingCloses(facts: seq<Fact>, more: seq<Fact>, kind: Kind)
    requires Groups(facts, kind) != [] && Gaps(facts, kind).Some?
    requires Supplies(more, kind, Selected(facts, kind), Gaps(facts, kind).value)
    ensures Gaps(facts + more, kind) == Some({}) <==> !(kind.Annual? && LeapDay(Anchor(facts, kind)))
  {
    if kind.Annual? && LeapDay(Anchor(facts, kind)) {
      SupplyingALeapDayDoesNotClose(facts, more);
    } else {
      SupplyingClosesTheGaps(facts, more, kind);
    }
  }

  function YearlyFigure(m: Metric, d: Date): Fact {
    Fact(1, Plain(m), Some(d), Some(Annual), Consolidated, true, true, true, Some(1))
  }

  const LEAP_DAY := Date(2024, 2, 29)
  const LEAP_PERIODS := [LEAP_DAY, Date(2023, 2, 28), Date(2022, 2, 28)]

  /** One revenue figure for the year to 29 February 2024. */
  const LEAP_FACTS := [YearlyFigure(Revenue, LEAP_DAY)]

  const LEAP_SUPPLY := [YearlyFigure(Pat, LEAP_DAY),
                        YearlyFigure(Revenue, Date(2023, 2, 28)), YearlyFigure(Pat, Date(2023, 2, 28)),
                        YearlyFigure(Revenue, Date(2022, 2, 28)), YearlyFigure(Pat, Date(2022, 2, 28))]

  lemma TheLeapGroup()
    ensures var g := Group(1, Consolidated, 1, Some((2, 29)));
      Groups(LEAP_FACTS, Annual) == [g] && Selected(LEAP_FACTS, Annual) == g
      && Present(LEAP_FACTS, Annual, g) == [Point(Revenue, LEAP_DAY)] && Anchor(LEAP_FACTS, Annual) == LEAP_DAY
      && Required(Annual, LEAP_DAY) == Some(LEAP_PERIODS)
  {
    assert LEAP_FACTS[..0] == [];
  }

  lemma EachSupplyIsAsked(i: nat)
    requires i < |LEAP_SUPPLY|
    ensures PointOf(LEAP_SUPPLY[i], Annual).period in LEAP_PERIODS
    ensures PointOf(LEAP_SUPPLY[i], Annual) != Point(Revenue, LEAP_DAY)
  {
    assert LEAP_PERIODS[0] in LEAP_PERIODS && LEAP_PERIODS[1] in LEAP_PERIODS && LEAP_PERIODS[2] in LEAP_PERIODS;
  }

  lemma EachAskedIsSupplied(p: Point)
    requires p.period in LEAP_PERIODS && p != Point(Revenue, LEAP_DAY)
    ensures Brings(LEAP_SUPPLY, Annual, p)
  {
    var n :| 0 <= n < 3 && LEAP_PERIODS[n] == p.period;
    var i := 2 * n - (if p.metric.Revenue? then 1 else 0);
    assert PointOf(LEAP_SUPPLY[i], Annual) == p;
  }

  /** Such facts: every figure asked for is supplied, and gaps remain. */
  lemma SuppliedInVain()
    ensures Groups(LEAP_FACTS, Annual) != [] && Gaps(LEAP_FACTS, Annual).Some?
    ensures Supplies(LEAP_SUPPLY, Annual, Selected(LEAP_FACTS, Annual), Gaps(LEAP_FACTS, Annual).value)
    ensures Gaps(LEAP_FACTS + LEAP_SUPPLY, Annual) != Some({})
  {
    TheLeapGroup();
    GapsAre(LEAP_FACTS, Annual);
    var g, gaps, present := Selected(LEAP_FACTS, Annual), Gaps(LEAP_FACTS, Annual).value, [Point(Revenue, LEAP_DAY)];
    forall i | 0 <= i < |LEAP_SUPPLY| ensures Key(Annual, g, PointOf(LEAP_SUPPLY[i], Annual)) in gaps {
      EachSupplyIsAsked(i);
      GapMembers(Annual, g, LEAP_PERIODS, present, Key(Annual, g, PointOf(LEAP_SUPPLY[i], Annual)));
    }
    forall k | k in gaps ensures Brings(LEAP_SUPPLY, Annual, Point(k.metric, k.period)) {
      GapMembers(Annual, g, LEAP_PERIODS, present, k);
      EachAskedIsSupplied(Point(k.metric, k.period));
    }
    SupplyingALeapDayDoesNotClose(LEAP_FACTS, LEAP_SUPPLY);
  }

  /** The computation raises exactly when the calendar of the anchor runs out of years. */
  lemma WhenGapsRaise(facts: seq<Fact>, kind: Kind)
    ensures Groups(facts, kind) == [] ==> Gaps(facts, kind) == Some({})
    ensures Groups(facts, kind) != [] ==>
      var anchor := Anchor(facts, kind);
      Gaps(facts, kind).None? <==>
        if kind.Quarterly? then anchor.year == MIN_YEAR && anchor.month <= 9 else anchor.year < MIN_YEAR + 2
  {
    if Groups(facts, kind) != [] {
      GapsAre(facts, kind);
      AnchorIsReported(facts, kind);
      var anchor := Anchor(facts, kind);
      QuarterEndsRaise(anchor);
      YearsBack(anchor, 0);
      YearsBack(anchor, 1);
      YearsBack(anchor, 2);
    }
  }
}
