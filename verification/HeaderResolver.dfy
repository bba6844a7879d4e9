/** The financial header resolver: which period group owns each date slot of a statement header. Token spans, their
    parsed values and the line layout are inputs; ownership is accepted only from an explicit proof. */
module HeaderResolver {
  import opened Common

  datatype Span = Span(start: nat, end: nat)

  datatype PeriodKind = QuarterlyPeriod | NineMonths | HalfYear | AsAt | AnnualPeriod

  /** A line and its cells between bars; a line without a bar is one cell. */
  datatype Line = Line(span: Span, parts: seq<Span>)

  /** The matches of a header: group labels with the kind each one names, date-shaped slots with their value (None when
      it does not parse), audit labels. `residue`: text is left over after all known tokens. `wideAfter[j]`: two blanks
      or a tab between groups j and j + 1. `emptyCells`: an empty cell on a barred line that has dates. */
  datatype Header = Header(length: nat, groups: seq<Span>, kinds: seq<PeriodKind>, dates: seq<Span>,
                           values: seq<Option<int>>, audits: seq<Span>, statuses: seq<int>, lines: seq<Line>,
                           wideAfter: seq<bool>, emptyCells: bool, residue: bool)

  predicate StartsIn(s: Span, p: Span) { p.start <= s.start < p.end }

  /** In order, not empty, not overlapping. */
  ghost predicate Ordered(spans: seq<Span>) {
    && (forall i | 0 <= i < |spans| :: spans[i].start < spans[i].end)
    && (forall i, k | 0 <= i < k < |spans| :: spans[i].end <= spans[k].start)
  }

  /** Matches are ordered, lines tile the text in order, and every date of a line starts in one of its cells. */
  ghost predicate WellFormed(h: Header) {
    && Ordered(h.groups) && Ordered(h.dates) && Ordered(h.audits)
    && |h.kinds| == |h.groups| == |h.wideAfter| && |h.values| == |h.dates| && |h.statuses| == |h.audits|
    && (forall i | 0 <= i < |h.dates| :: h.dates[i].end <= h.length)
    && (forall m, n | 0 <= m < n < |h.lines| :: h.lines[m].span.end <= h.lines[n].span.start)
    && (forall n | 0 <= n < |h.lines| :: CellsTile(h, h.lines[n]))
  }

  ghost predicate CellsTile(h: Header, line: Line) {
    && line.parts != []
    && (forall p, q | 0 <= p < q < |line.parts| :: line.parts[p].end <= line.parts[q].start)
    && (forall i | 0 <= i < |h.dates| && StartsIn(h.dates[i], line.span) :: InSomeCell(h, line, |line.parts|, i))
  }

  /** Date i starts in one of the first n cells. */
  ghost predicate InSomeCell(h: Header, line: Line, n: nat, i: nat) requires n <= |line.parts| && i < |h.dates| {
    exists p :: 0 <= p < n && StartsIn(h.dates[i], line.parts[p])
  }

  // ---------------------------------------------------------------- which spans start in a region

  /** `[i for i, m in enumerate(spans[:n]) if m starts in the region]` */
  function Starting(spans: seq<Span>, n: nat, region: Span): seq<nat> requires n <= |spans| {
    if n == 0 then []
    else Starting(spans, n - 1, region) + (if StartsIn(spans[n - 1], region) then [n - 1] else [])
  }

  function AllStarting(spans: seq<Span>, region: Span): seq<nat> { Starting(spans, |spans|, region) }

  lemma {:induction false} StartingAre(spans: seq<Span>, n: nat, region: Span)
    requires n <= |spans|
    ensures forall i: nat :: i in Starting(spans, n, region) <==> i < n && StartsIn(spans[i], region)
    ensures forall a, b | 0 <= a < b < |Starting(spans, n, region)| ::
      Starting(spans, n, region)[a] < Starting(spans, n, region)[b]
    ensures |Starting(spans, n, region)| <= n
  {
    if n > 0 {
      StartingAre(spans, n - 1, region);
      var init := Starting(spans, n - 1, region);
      forall a | 0 <= a < |init| ensures init[a] < n - 1 { assert init[a] in init; }
    }
  }

  lemma Increasing(spans: seq<Span>, i: nat, k: nat)
    requires Ordered(spans) && i <= k < |spans|
    ensures spans[i].start <= spans[k].start && (i < k ==> spans[i].start < spans[k].start)
  {
  }

  /** Spans that start in a region are consecutive: counted from the first candidate they fill an interval. */
  lemma {:induction false} StartingFill(spans: seq<Span>, n: nat, region: Span, a: nat)
    requires n <= |spans|
    requires forall i | 0 <= i < n && StartsIn(spans[i], region) :: a <= i
    requires forall i, k | a <= i < k < n && StartsIn(spans[k], region) :: StartsIn(spans[i], region)
    ensures forall i | 0 <= i < n :: StartsIn(spans[i], region) <==> a <= i < a + |Starting(spans, n, region)|
    ensures if a <= n then a + |Starting(spans, n, region)| <= n else Starting(spans, n, region) == []
  {
    if n > 0 {
      StartingFill(spans, n - 1, region, a);
      if StartsIn(spans[n - 1], region) && n - 1 > a { assert StartsIn(spans[n - 2], region); }
    }
  }

  // ---------------------------------------------------------------- run layouts

  type Assignment = seq<nat>

  datatype Strategy = UniformGroup | InterleavedGroups | DelimitedGroupSpans | ExplicitTextGrid

  datatype Proposal = Proposal(strategy: Strategy, assignment: Assignment)

  /** From the end of group j to the next group, or to the end of the text. */
  function RunRegion(h: Header, j: nat): Span requires j < |h.groups| {
    Span(h.groups[j].end, if j + 1 < |h.groups| then h.groups[j + 1].start else h.length)
  }

  predicate InRun(h: Header, j: nat, i: nat) {
    j < |h.groups| && i < |h.dates| && StartsIn(h.dates[i], RunRegion(h, j))
  }

  function Run(h: Header, j: nat): seq<nat> requires j < |h.groups| { AllStarting(h.dates, RunRegion(h, j)) }

  predicate UniformApplies(h: Header) {
    |h.groups| == 1 && h.dates != [] && h.groups[0].end <= h.dates[0].start
  }

  /** The runs of groups 0 .. n - 1, one after the other. */
  function Runs(h: Header, n: nat): seq<nat> requires n <= |h.groups| {
    if n == 0 then [] else Runs(h, n - 1) + Run(h, n - 1)
  }

  predicate InterleavedApplies(h: Header) {
    (forall j | 0 <= j < |h.groups| :: Run(h, j) != []) && |Runs(h, |h.groups|)| == |h.dates|
  }

  /** The run of a group ends before any later group starts. */
  lemma RunBefore(h: Header, j: nat, k: nat, i: nat)
    requires WellFormed(h) && InRun(h, j, i) && j < k < |h.groups|
    ensures h.dates[i].start < h.groups[k].start < h.groups[k].end
  {
    Increasing(h.groups, j + 1, k);
  }

  lemma RunsAreDisjoint(h: Header, j: nat, k: nat, i: nat)
    requires WellFormed(h) && InRun(h, j, i) && InRun(h, k, i)
    ensures j == k
  {
    if j < k { RunBefore(h, j, k, i); }
    if k < j { RunBefore(h, k, j, i); }
  }

  lemma RunMembers(h: Header, j: nat)
    requires j < |h.groups|
    ensures forall i :: i in Run(h, j) <==> InRun(h, j, i)
    ensures Unrepeated(Run(h, j))
  {
    StartingAre(h.dates, |h.dates|, RunRegion(h, j));
  }

  ghost predicate InSomeRun(h: Header, n: nat, i: nat) { exists j :: 0 <= j < n && InRun(h, j, i) }

  lemma {:induction false} RunsMembers(h: Header, n: nat)
    requires WellFormed(h) && n <= |h.groups|
    ensures forall i :: i in Runs(h, n) <==> InSomeRun(h, n, i)
    ensures Unrepeated(Runs(h, n))
  {
    if n > 0 {
      RunsMembers(h, n - 1);
      RunMembers(h, n - 1);
      var before, last := Runs(h, n - 1), Run(h, n - 1);
      forall i ensures i in before + last <==> InSomeRun(h, n, i) {
        if i in before { var j :| 0 <= j < n - 1 && InRun(h, j, i); }
        if i in last { assert InRun(h, n - 1, i); }
      }
      forall i | i in last ensures i !in before { NotInAnEarlierRun(h, n - 1, i); }
      UnrepeatedTogether(before, last);
    }
  }

  lemma NotInAnEarlierRun(h: Header, k: nat, i: nat)
    requires WellFormed(h) && InRun(h, k, i)
    ensures !InSomeRun(h, k, i)
  {
    forall j | 0 <= j < k ensures !InRun(h, j, i) { if InRun(h, j, i) { RunsAreDisjoint(h, j, k, i); } }
  }

  lemma UnrepeatedTogether(a: seq<nat>, b: seq<nat>)
    requires Unrepeated(a) && Unrepeated(b) && forall x | x in b :: x !in a
    ensures Unrepeated(a + b)
  {
    var s := a + b;
    forall i, k | 0 <= i < k < |s| ensures s[i] != s[k] {
      if i < |a| <= k { assert s[k] in b && s[i] in a; }
    }
  }

  /** As many dates in runs as there are dates: every date is in a run. */
  lemma EveryDateIsInARun(h: Header, i: nat)
    requires WellFormed(h) && InterleavedApplies(h) && i < |h.dates|
    ensures InSomeRun(h, |h.groups|, i)
  {
    RunsMembers(h, |h.groups|);
    var all := Runs(h, |h.groups|);
    if i !in all { MissingMakesFewer(all, |h.dates|, i); }
  }

  lemma MissingMakesFewer(all: seq<nat>, n: nat, i: nat)
    requires Unrepeated(all) && (forall x | x in all :: x < n) && i < n && i !in all
    ensures |all| < n
  {
    var more, range := all + [i], seq(n, k => k);
    forall k | 0 <= k < |more| ensures more[k] in range {
      if k < |all| { assert all[k] in all; }
      assert range[more[k]] == more[k];
    }
    UnrepeatedWithin(more, range);
  }

  /** `next(j for j, run in enumerate(runs) if i in run)`, looking at the first n runs. */
  function OwnerOf(h: Header, i: nat, n: nat): nat {
    if n == 0 then 0 else if exists j | 0 <= j < n - 1 :: InRun(h, j, i) then OwnerOf(h, i, n - 1) else n - 1
  }

  lemma {:induction false} OwnerIsTheRun(h: Header, i: nat, n: nat)
    requires n <= |h.groups| && InSomeRun(h, n, i)
    ensures OwnerOf(h, i, n) < n && InRun(h, OwnerOf(h, i, n), i)
  {
    if exists j | 0 <= j < n - 1 :: InRun(h, j, i) { OwnerIsTheRun(h, i, n - 1); }
  }

  function Interleaved(h: Header): Assignment {
    seq(|h.dates|, i requires 0 <= i < |h.dates| => OwnerOf(h, i, |h.groups|))
  }

  function RunProposals(h: Header): seq<Proposal> {
    (if UniformApplies(h) then [Proposal(UniformGroup, seq(|h.dates|, i => 0))] else [])
    + (if InterleavedApplies(h) then [Proposal(InterleavedGroups, Interleaved(h))] else [])
  }

  // ---------------------------------------------------------------- line layouts

  function LocalGroups(h: Header, n: nat): seq<nat> requires n < |h.lines| { AllStarting(h.groups, h.lines[n].span) }

  predicate HoldsAllDates(h: Header, n: nat) requires n < |h.lines| {
    forall i | 0 <= i < |h.dates| :: StartsIn(h.dates[i], h.lines[n].span)
  }

  predicate Barred(line: Line) { |line.parts| > 1 }

  function GroupsInPart(h: Header, p: Span): nat { |AllStarting(h.groups, p)| }

  function DatesInPart(h: Header, p: Span): nat { |AllStarting(h.dates, p)| }

  /** The cells of the two lines match one to one, each heading cell holding one group. */
  predicate CellsMatch(h: Header, gi: nat, di: nat) requires gi < |h.lines| && di < |h.lines| {
    && |h.lines[gi].parts| == |h.lines[di].parts|
    && (forall k | 0 <= k < |h.lines[gi].parts| :: GroupsInPart(h, h.lines[gi].parts[k]) == 1)
  }

  /** `[group] * (dates in the cell)`, cell by cell. */
  function Delimited(h: Header, local: seq<nat>, parts: seq<Span>, n: nat): Assignment
    requires n <= |parts| && |parts| <= |local|
  {
    if n == 0 then [] else Delimited(h, local, parts, n - 1) + seq(DatesInPart(h, parts[n - 1]), i => local[n - 1])
  }

  predicate DelimitedApplies(h: Header, local: seq<nat>, parts: seq<Span>) requires |parts| <= |local| {
    (forall k | 0 <= k < |parts| :: DatesInPart(h, parts[k]) > 0) && |Delimited(h, local, parts, |parts|)| == |h.dates|
  }

  /** The column of a token within its line. */
  function ColumnOf(s: Span, line: Line): int { s.start - line.span.start }

  predicate GridApplies(h: Header, local: seq<nat>, gi: nat, di: nat)
    requires gi < |h.lines| && di < |h.lines| && h.dates != [] && local != []
  {
    && (forall k | 0 <= k < |local| - 1 :: WideAfter(h, local[k]))
    && ColumnOf(GroupSpan(h, local[0]), h.lines[gi]) == ColumnOf(h.dates[0], h.lines[di])
    && (forall k | 0 <= k < |local| :: SomeDateAt(h, ColumnOf(GroupSpan(h, local[k]), h.lines[gi]), di))
  }

  predicate WideAfter(h: Header, j: nat) { j < |h.wideAfter| && h.wideAfter[j] }

  function GroupSpan(h: Header, j: nat): Span { if j < |h.groups| then h.groups[j] else Span(0, 0) }

  predicate SomeDateAt(h: Header, column: int, di: nat) requires di < |h.lines| {
    exists i :: 0 <= i < |h.dates| && ColumnOf(h.dates[i], h.lines[di]) == column
  }

  /** The last of the first n local groups that starts at or before the column. */
  function GridOwner(h: Header, local: seq<nat>, gi: nat, column: int, n: nat): nat
    requires gi < |h.lines| && 1 <= n <= |local|
  {
    if n == 1 || ColumnOf(GroupSpan(h, local[n - 1]), h.lines[gi]) <= column then local[n - 1]
    else GridOwner(h, local, gi, column, n - 1)
  }

  function Grid(h: Header, local: seq<nat>, gi: nat, di: nat): Assignment
    requires gi < |h.lines| && di < |h.lines| && local != []
  {
    seq(|h.dates|, i requires 0 <= i < |h.dates| =>
          GridOwner(h, local, gi, ColumnOf(h.dates[i], h.lines[di]), |local|))
  }

  datatype Found = Nothing | Contradiction | Proves(proposal: Proposal)

  /** What one pair of a group line and the line that holds all dates establishes. */
  function FromLines(h: Header, gi: nat, di: nat): Found
    requires gi < |h.lines| && di < |h.lines| && h.dates != []
  {
    var local := LocalGroups(h, gi);
    if local == [] then Nothing
    else if Barred(h.lines[gi]) && Barred(h.lines[di]) then
      if !CellsMatch(h, gi, di) || |h.lines[di].parts| > |local| then Contradiction
      else if DelimitedApplies(h, local, h.lines[di].parts)
      then Proves(Proposal(DelimitedGroupSpans, Delimited(h, local, h.lines[di].parts, |h.lines[di].parts|)))
      else Nothing
    else if |local| > 1 && GridApplies(h, local, gi, di) then Proves(Proposal(ExplicitTextGrid, Grid(h, local, gi, di)))
    else Nothing
  }

  /** The line below gi, before n, that holds all dates: there is at most one. */
  function DateLine(h: Header, gi: nat, n: nat): Option<nat> requires n <= |h.lines| {
    if n <= gi + 1 then None
    else if HoldsAllDates(h, n - 1) then Some(n - 1)
    else DateLine(h, gi, n - 1)
  }

  function FromLine(h: Header, gi: nat): Found
    requires gi < |h.lines| && h.dates != []
  {
    DateLineIsBelow(h, gi, |h.lines|);
    var di := DateLine(h, gi, |h.lines|);
    if di.None? then Nothing else FromLines(h, gi, di.value)
  }

  lemma {:induction false} DateLineIsBelow(h: Header, gi: nat, n: nat)
    requires n <= |h.lines|
    ensures var d := DateLine(h, gi, n); d.Some? ==> gi < d.value < n && HoldsAllDates(h, d.value)
    ensures DateLine(h, gi, n).None? ==> forall k | gi < k < n :: !HoldsAllDates(h, k)
  {
    if n > gi + 1 && !HoldsAllDates(h, n - 1) { DateLineIsBelow(h, gi, n - 1); }
  }

  /** The proposals of the first n lines; None once a pair of lines contradicts itself. */
  function LineProposals(h: Header, n: nat): Option<seq<Proposal>>
    requires n <= |h.lines| && h.dates != []
  {
    if n == 0 then Some([])
    else
      var before := LineProposals(h, n - 1);
      if before.None? then None
      else
        match FromLine(h, n - 1)
        case Nothing => before
        case Contradiction => None
        case Proves(p) => Some(before.value + [p])
  }

  lemma OneLineHoldsAllDates(h: Header, m: nat, n: nat)
    requires WellFormed(h) && h.dates != [] && m < |h.lines| && n < |h.lines| && HoldsAllDates(h, m)
      && HoldsAllDates(h, n)
    ensures m == n
  {
    assert StartsIn(h.dates[0], h.lines[m].span) && StartsIn(h.dates[0], h.lines[n].span);
  }

  /** The inner loop over the lines below a group line. */
  method ScanBelow(h: Header, gi: nat) returns (found: Found)
    requires WellFormed(h) && h.dates != [] && gi < |h.lines|
    ensures found == FromLine(h, gi)
  {
    found := Nothing;
    for di := gi + 1 to |h.lines|
      invariant (forall k | gi < k < di :: !HoldsAllDates(h, k)) ==> found == Nothing
      invariant forall k | gi < k < di && HoldsAllDates(h, k) :: found == FromLines(h, gi, k)
    {
      if HoldsAllDates(h, di) {
        forall k | gi < k < di ensures !HoldsAllDates(h, k) {
          if HoldsAllDates(h, k) { OneLineHoldsAllDates(h, k, di); }
        }
        found := FromLines(h, gi, di);
      }
    }
    DateLineIsBelow(h, gi, |h.lines|);
  }

  method ScanLines(h: Header) returns (proposals: Option<seq<Proposal>>)
    requires WellFormed(h) && h.dates != []
    ensures proposals == LineProposals(h, |h.lines|)
  {
    var found: seq<Proposal> := [];
    for gi := 0 to |h.lines|
      invariant LineProposals(h, gi) == Some(found)
    {
      var here := ScanBelow(h, gi);
      if here.Contradiction? {
        ContradictionStays(h, gi + 1, |h.lines|);
        return None;
      }
      if here.Proves? { found := found + [here.proposal]; }
    }
    return Some(found);
  }

  lemma {:induction false} ContradictionStays(h: Header, m: nat, n: nat)
    requires m <= n <= |h.lines| && h.dates != [] && LineProposals(h, m).None?
    ensures LineProposals(h, n).None?
    decreases n
  {
    if m < n { ContradictionStays(h, m, n - 1); }
  }

  // ---------------------------------------------------------------- resolution

  datatype Problem = DateAmbiguous | DateInvalid | TypeAmbiguous | EvidenceConflict | SpanAmbiguous
                   | ColumnCountAmbiguous

  datatype Column = Column(index: nat, date: int, kind: PeriodKind, group: nat, audit: Option<int>)

  datatype Resolution = Unresolved(problem: Problem) | Resolved(columns: seq<Column>, proposals: seq<Proposal>)

  function KindOf(h: Header, j: nat): PeriodKind { if j < |h.kinds| then h.kinds[j] else AnnualPeriod }

  /** The proposals give each date the same kind of period. */
  predicate SameKinds(h: Header, p: Proposal, q: Proposal) {
    |p.assignment| == |q.assignment| &&
    forall i | 0 <= i < |p.assignment| :: KindOf(h, p.assignment[i]) == KindOf(h, q.assignment[i])
  }

  predicate Owned(proposals: seq<Proposal>, j: nat) {
    exists n :: 0 <= n < |proposals| && j in proposals[n].assignment
  }

  predicate Consistent(h: Header, proposals: seq<Proposal>) {
    && (forall m, n | 0 <= m < n < |proposals| :: SameKinds(h, proposals[m], proposals[n]))
    && (proposals != [] ==> forall j | 0 <= j < |h.groups| :: Owned(proposals, j))
  }

  function AuditsInLine(h: Header, n: nat): nat requires n < |h.lines| {
    |AllStarting(h.audits, h.lines[n].span)|
  }

  /** A separate complete status row. */
  predicate AuditsInOneRow(h: Header) {
    exists n | 0 <= n < |h.lines| && h.dates != [] ::
      AuditsInLine(h, n) == |h.dates| && h.lines[n].span.start > h.dates[|h.dates| - 1].end
  }

  /** One status after each date. */
  predicate AuditsInterleaved(h: Header) requires |h.audits| == |h.dates| {
    forall i | 0 <= i < |h.dates| ::
      h.dates[i].end <= h.audits[i].start
      < (if i + 1 < |h.dates| then h.dates[i + 1].start else h.length)
  }

  predicate AuditsAttach(h: Header) requires |h.audits| == |h.dates| { AuditsInOneRow(h) || AuditsInterleaved(h) }

  function AuditOf(h: Header, i: nat): Option<int> {
    if |h.audits| == |h.dates| && i < |h.statuses| && AuditsAttach(h) then Some(h.statuses[i]) else None
  }

  predicate AllDatesParse(h: Header) { !h.emptyCells && forall i | 0 <= i < |h.values| :: h.values[i].Some? }

  function ColumnAt(h: Header, a: Assignment, i: nat): Column
    requires i < |h.values| && i < |a| && h.values[i].Some?
  {
    Column(i, h.values[i].value, KindOf(h, a[i]), a[i], AuditOf(h, i))
  }

  /** `resolve_financial_header` */
  method ResolveFinancialHeader(h: Header) returns (r: Resolution)
    requires WellFormed(h)
    ensures r.Unresolved? <==> !Resolvable(h)
    ensures r.Resolved? ==> r.proposals == AllProposals(h).value && Resolves(h, r.columns, r.proposals)
    ensures r.Unresolved? ==> ProblemOf(h, r.problem)
    ensures r.Resolved? ==> forall i | 0 <= i < |h.dates| :: r.columns[i].group == r.proposals[0].assignment[i]
  {
    if h.dates == [] { return Unresolved(DateAmbiguous); }
    if !AllDatesParse(h) { return Unresolved(DateInvalid); }
    if h.residue { return Unresolved(DateAmbiguous); }
    if h.groups == [] { return Unresolved(TypeAmbiguous); }
    var found := ScanLines(h);
    if found.None? { return Unresolved(EvidenceConflict); }
    var proposals := RunProposals(h) + found.value;
    if !Consistent(h, proposals) { return Unresolved(EvidenceConflict); }
    if proposals == [] { return Unresolved(SpanAmbiguous); }
    if h.audits != [] && |h.audits| != |h.dates| { return Unresolved(ColumnCountAmbiguous); }
    var assignment := proposals[0].assignment;
    AllProposalsAreJustified(h, 0);
    var columns: seq<Column> := [];
    for i := 0 to |h.dates|
      invariant |columns| == i && forall k | 0 <= k < i :: columns[k] == ColumnAt(h, assignment, k)
    {
      columns := columns + [ColumnAt(h, assignment, i)];
    }
    return Resolved(columns, proposals);
  }

  /** The first of these that is the case: no dates, a slot that is no date, unexplained text, no groups, proofs that
      contradict one another or leave a group out, no proof, a wrong number of audit labels. */
  ghost predicate ProblemOf(h: Header, problem: Problem) requires WellFormed(h) {
    if h.dates == [] then problem == DateAmbiguous
    else if h.emptyCells || exists i :: 0 <= i < |h.dates| && h.values[i] == None then problem == DateInvalid
    else if h.residue then problem == DateAmbiguous
    else if h.groups == [] then problem == TypeAmbiguous
    else if AllProposals(h).None? || Conflicting(h, AllProposals(h).value) then problem == EvidenceConflict
    else if AllProposals(h).value == [] then problem == SpanAmbiguous
    else h.audits != [] && |h.audits| != |h.dates| && problem == ColumnCountAmbiguous
  }

  /** Two proofs give a date different kinds, or there is a proof and none uses some group. */
  ghost predicate Conflicting(h: Header, proposals: seq<Proposal>) {
    || (exists m, n :: 0 <= m < n < |proposals| && !SameKinds(h, proposals[m], proposals[n]))
    || (proposals != [] && exists j :: 0 <= j < |h.groups| && !Owned(proposals, j))
  }

  function AllProposals(h: Header): Option<seq<Proposal>> requires h.dates != [] {
    var found := LineProposals(h, |h.lines|);
    if found.None? then None else Some(RunProposals(h) + found.value)
  }

  /** Every date parses, nothing is left unexplained, and there is a proof of ownership and no conflict among them. */
  ghost predicate Resolvable(h: Header) requires WellFormed(h) {
    && h.dates != [] && AllDatesParse(h) && !h.residue && h.groups != []
    && AllProposals(h).Some? && AllProposals(h).value != [] && Consistent(h, AllProposals(h).value)
    && (h.audits == [] || |h.audits| == |h.dates|)
  }

  /** One column per date slot, in order, of the kind that every accepted proof gives it. */
  ghost predicate Resolves(h: Header, columns: seq<Column>, proposals: seq<Proposal>) {
    && |columns| == |h.dates|
    && (forall i | 0 <= i < |columns| ::
          && columns[i].index == i && i < |h.values| && h.values[i] == Some(columns[i].date)
          && columns[i].group < |h.groups| && columns[i].kind == KindOf(h, columns[i].group)
          && columns[i].audit == AuditOf(h, i))
    && (forall n | 0 <= n < |proposals| :: Agrees(h, columns, proposals[n]))
    && (forall j | 0 <= j < |h.groups| :: Owned(proposals, j))
  }

  ghost predicate Agrees(h: Header, columns: seq<Column>, p: Proposal) {
    |p.assignment| == |columns| && forall i | 0 <= i < |columns| :: KindOf(h, p.assignment[i]) == columns[i].kind
  }

  // ---------------------------------------------------------------- every accepted proof is one

  /** Ownership never goes back, so each group owns a contiguous block of dates. */
  ghost predicate InBlocks(a: Assignment) { forall i, k | 0 <= i < k < |a| :: a[i] <= a[k] }

  ghost predicate Justified(h: Header, a: Assignment) {
    |a| == |h.dates| && InBlocks(a) && forall i | 0 <= i < |a| :: a[i] < |h.groups|
  }

  lemma InterleavedIsJustified(h: Header)
    requires WellFormed(h) && InterleavedApplies(h)
    ensures Justified(h, Interleaved(h))
    ensures forall i | 0 <= i < |h.dates| :: InRun(h, Interleaved(h)[i], i)
    ensures forall j | 0 <= j < |h.groups| :: j in Interleaved(h)
  {
    var a := Interleaved(h);
    forall i | 0 <= i < |a| ensures a[i] < |h.groups| && InRun(h, a[i], i) {
      EveryDateIsInARun(h, i);
      OwnerIsTheRun(h, i, |h.groups|);
    }
    forall i, k | 0 <= i < k < |a| ensures a[i] <= a[k] { LaterDatesHaveLaterRuns(h, a[i], i, a[k], k); }
    forall j | 0 <= j < |h.groups| ensures j in a {
      RunMembers(h, j);
      var i := Run(h, j)[0];
      assert i in Run(h, j);
      RunsAreDisjoint(h, j, a[i], i);
    }
  }

  lemma LaterDatesHaveLaterRuns(h: Header, j: nat, i: nat, m: nat, k: nat)
    requires WellFormed(h) && InRun(h, j, i) && InRun(h, m, k) && i < k
    ensures j <= m
  {
    if m < j {
      Increasing(h.dates, i, k);
      RunBefore(h, m, j, k);
    }
  }

  /** With one group the two run layouts accept the same headers, with the same result. */
  lemma UniformIsInterleaved(h: Header)
    requires WellFormed(h) && |h.groups| == 1 && h.dates != []
    ensures UniformApplies(h) <==> InterleavedApplies(h)
    ensures UniformApplies(h) ==> Interleaved(h) == seq(|h.dates|, i => 0)
  {
    assert Runs(h, 1) == Run(h, 0) by { assert Runs(h, 0) == []; }
    if UniformApplies(h) {
      forall i | 0 <= i < |h.dates| ensures StartsIn(h.dates[i], RunRegion(h, 0)) { Increasing(h.dates, 0, i); }
      AllStart(h.dates, |h.dates|, RunRegion(h, 0));
    }
    if InterleavedApplies(h) {
      EveryDateIsInARun(h, 0);
      var j :| 0 <= j < 1 && InRun(h, j, 0);
    }
  }

  lemma {:induction false} AllStart(spans: seq<Span>, n: nat, region: Span)
    requires n <= |spans| && forall i | 0 <= i < n :: StartsIn(spans[i], region)
    ensures |Starting(spans, n, region)| == n
  {
    if n > 0 { AllStart(spans, n - 1, region); }
  }

  // ---- cells

  /** Date i gets the group at the position of the cell it stands in, one of the first n. */
  ghost predicate CellOwner(h: Header, local: seq<nat>, line: Line, n: nat, a: Assignment, i: nat)
    requires n <= |line.parts| <= |local| && i < |a| && i < |h.dates|
  {
    exists p :: 0 <= p < n && StartsIn(h.dates[i], line.parts[p]) && a[i] == local[p]
  }

  /** Dates are assigned cell by cell: after n cells exactly the dates in them have their group. */
  lemma {:induction false} DelimitedByCell(h: Header, local: seq<nat>, line: Line, n: nat)
    requires WellFormed(h) && CellsTile(h, line) && n <= |line.parts| <= |local|
    requires forall i | 0 <= i < |h.dates| :: StartsIn(h.dates[i], line.span)
    ensures var a := Delimited(h, local, line.parts, n);
      && |a| <= |h.dates|
      && (forall i | 0 <= i < |h.dates| :: i < |a| <==> InSomeCell(h, line, n, i))
      && (forall i | 0 <= i < |a| :: CellOwner(h, local, line, n, a, i))
  {
    if n > 0 {
      DelimitedByCell(h, local, line, n - 1);
      var before := Delimited(h, local, line.parts, n - 1);
      OneCellMore(h, line, n - 1, |before|);
      var a := Delimited(h, local, line.parts, n);
      forall i | 0 <= i < |h.dates| ensures i < |a| <==> InSomeCell(h, line, n, i) { OneCellWider(h, line, n - 1, i); }
      forall i | 0 <= i < |a| ensures CellOwner(h, local, line, n, a, i) {
        if i >= |before| {
          assert StartsIn(h.dates[i], line.parts[n - 1]) && a[i] == local[n - 1];
        } else {
          assert CellOwner(h, local, line, n - 1, before, i);
          var p :| 0 <= p < n - 1 && StartsIn(h.dates[i], line.parts[p]) && before[i] == local[p];
          assert a[i] == before[i];
        }
      }
    }
  }

  lemma OneCellWider(h: Header, line: Line, n: nat, i: nat)
    requires n < |line.parts| && i < |h.dates|
    ensures InSomeCell(h, line, n + 1, i) <==> InSomeCell(h, line, n, i) || StartsIn(h.dates[i], line.parts[n])
  {
    if InSomeCell(h, line, n, i) { var p :| 0 <= p < n && StartsIn(h.dates[i], line.parts[p]); }
  }

  lemma CellIsUnique(h: Header, line: Line, n: nat, i: nat)
    requires CellsTile(h, line) && n < |line.parts| && i < |h.dates| && StartsIn(h.dates[i], line.parts[n])
    ensures !InSomeCell(h, line, n, i)
  {
  }

  /** Dates before a date of cell n stand in cell n or an earlier one. */
  lemma EarlierDatesInEarlierCells(h: Header, line: Line, n: nat, i: nat, k: nat)
    requires WellFormed(h) && CellsTile(h, line) && n < |line.parts| && i < k < |h.dates|
    requires StartsIn(h.dates[k], line.parts[n]) && StartsIn(h.dates[i], line.span)
    ensures InSomeCell(h, line, n + 1, i)
  {
    Increasing(h.dates, i, k);
    var p :| 0 <= p < |line.parts| && StartsIn(h.dates[i], line.parts[p]);
  }

  /** The dates of cell n are the next ones after those of the cells before it. */
  lemma OneCellMore(h: Header, line: Line, n: nat, c: nat)
    requires WellFormed(h) && CellsTile(h, line) && n < |line.parts| && c <= |h.dates|
    requires forall i | 0 <= i < |h.dates| :: StartsIn(h.dates[i], line.span)
    requires forall i | 0 <= i < |h.dates| :: i < c <==> InSomeCell(h, line, n, i)
    ensures c + DatesInPart(h, line.parts[n]) <= |h.dates|
    ensures forall i | 0 <= i < |h.dates| ::
      StartsIn(h.dates[i], line.parts[n]) <==> c <= i < c + DatesInPart(h, line.parts[n])
  {
    var part := line.parts[n];
    forall i | 0 <= i < |h.dates| && StartsIn(h.dates[i], part) ensures c <= i { CellIsUnique(h, line, n, i); }
    forall i, k | c <= i < k < |h.dates| && StartsIn(h.dates[k], part) ensures StartsIn(h.dates[i], part) {
      EarlierDatesInEarlierCells(h, line, n, i, k);
      OneCellWider(h, line, n, i);
    }
    StartingFill(h.dates, |h.dates|, part, c);
  }

  lemma LocalGroupsAscend(h: Header, gi: nat)
    requires gi < |h.lines|
    ensures forall j | j in LocalGroups(h, gi) :: j < |h.groups| && StartsIn(h.groups[j], h.lines[gi].span)
    ensures forall a, b | 0 <= a < b < |LocalGroups(h, gi)| :: LocalGroups(h, gi)[a] < LocalGroups(h, gi)[b]
  {
    StartingAre(h.groups, |h.groups|, h.lines[gi].span);
  }

  lemma LaterDatesHaveLaterCells(h: Header, line: Line, p: nat, i: nat, q: nat, k: nat)
    requires WellFormed(h) && CellsTile(h, line) && p < |line.parts| && q < |line.parts| && i < k < |h.dates|
    requires StartsIn(h.dates[i], line.parts[p]) && StartsIn(h.dates[k], line.parts[q])
    ensures p <= q
  {
    Increasing(h.dates, i, k);
  }

  lemma DelimitedIsJustified(h: Header, gi: nat, di: nat)
    requires WellFormed(h) && gi < |h.lines| && di < |h.lines| && HoldsAllDates(h, di)
    requires |h.lines[di].parts| <= |LocalGroups(h, gi)| && DelimitedApplies(h, LocalGroups(h, gi), h.lines[di].parts)
    ensures Justified(h, Delimited(h, LocalGroups(h, gi), h.lines[di].parts, |h.lines[di].parts|))
  {
    var local, line := LocalGroups(h, gi), h.lines[di];
    var n := |line.parts|;
    var a := Delimited(h, local, line.parts, n);
    LocalGroupsAscend(h, gi);
    DelimitedByCell(h, local, line, n);
    forall i | 0 <= i < |a| ensures a[i] < |h.groups| {
      assert CellOwner(h, local, line, n, a, i);
      var p :| 0 <= p < n && StartsIn(h.dates[i], line.parts[p]) && a[i] == local[p];
      assert local[p] in local;
    }
    forall i, k | 0 <= i < k < |a| ensures a[i] <= a[k] {
      assert CellOwner(h, local, line, n, a, i) && CellOwner(h, local, line, n, a, k);
      var p :| 0 <= p < n && StartsIn(h.dates[i], line.parts[p]) && a[i] == local[p];
      var q :| 0 <= q < n && StartsIn(h.dates[k], line.parts[q]) && a[k] == local[q];
      LaterDatesHaveLaterCells(h, line, p, i, q, k);
    }
  }

  // ---- grid

  /** Position k is the last of the first n local groups that starts at or before the column. */
  ghost predicate LastBefore(h: Header, local: seq<nat>, gi: nat, column: int, n: nat, k: nat)
    requires gi < |h.lines| && n <= |local|
  {
    && k < n && ColumnOf(GroupSpan(h, local[k]), h.lines[gi]) <= column
    && forall m | k < m < n :: column < ColumnOf(GroupSpan(h, local[m]), h.lines[gi])
  }

  lemma {:induction false} GridOwnerIs(h: Header, local: seq<nat>, gi: nat, column: int, n: nat) returns (k: nat)
    requires gi < |h.lines| && 1 <= n <= |local|
    requires ColumnOf(GroupSpan(h, local[0]), h.lines[gi]) <= column
    ensures LastBefore(h, local, gi, column, n, k) && GridOwner(h, local, gi, column, n) == local[k]
  {
    if n > 1 && !(ColumnOf(GroupSpan(h, local[n - 1]), h.lines[gi]) <= column) {
      k := GridOwnerIs(h, local, gi, column, n - 1);
    } else {
      k := n - 1;
    }
  }

  lemma GridIsJustified(h: Header, gi: nat, di: nat)
    requires WellFormed(h) && h.dates != [] && gi < |h.lines| && di < |h.lines| && LocalGroups(h, gi) != []
    requires forall j | j in LocalGroups(h, gi) :: j < |h.groups|
    requires GridApplies(h, LocalGroups(h, gi), gi, di)
    ensures Justified(h, Grid(h, LocalGroups(h, gi), gi, di))
  {
    var local := LocalGroups(h, gi);
    var a := Grid(h, local, gi, di);
    LocalGroupsAscend(h, gi);
    var first := local[0];
    assert first in local;
    forall i | 0 <= i < |a| ensures a[i] < |h.groups| { var k := GridColumn(h, local, gi, di, i); }
    forall i, k | 0 <= i < k < |a| ensures a[i] <= a[k] {
      var p := GridColumn(h, local, gi, di, i);
      var q := GridColumn(h, local, gi, di, k);
      Increasing(h.dates, i, k);
    }
  }

  /** The position, among the local groups, of the owner of date i. */
  lemma GridColumn(h: Header, local: seq<nat>, gi: nat, di: nat, i: nat) returns (k: nat)
    requires WellFormed(h) && gi < |h.lines| && di < |h.lines| && i < |h.dates| && local != []
    requires forall j | j in local :: j < |h.groups|
    requires ColumnOf(GroupSpan(h, local[0]), h.lines[gi]) == ColumnOf(h.dates[0], h.lines[di])
    ensures k < |local| && Grid(h, local, gi, di)[i] == local[k] < |h.groups|
    ensures LastBefore(h, local, gi, ColumnOf(h.dates[i], h.lines[di]), |local|, k)
  {
    var column := ColumnOf(h.dates[i], h.lines[di]);
    Increasing(h.dates, 0, i);
    k := GridOwnerIs(h, local, gi, column, |local|);
    assert local[k] in local;
  }

  // ---- all of them

  lemma FromLineIsJustified(h: Header, gi: nat)
    requires WellFormed(h) && h.dates != [] && gi < |h.lines| && FromLine(h, gi).Proves?
    ensures Justified(h, FromLine(h, gi).proposal.assignment)
  {
    DateLineIsBelow(h, gi, |h.lines|);
    var di := DateLine(h, gi, |h.lines|).value;
    LocalGroupsAscend(h, gi);
    if Barred(h.lines[gi]) && Barred(h.lines[di]) {
      DelimitedIsJustified(h, gi, di);
    } else {
      GridIsJustified(h, gi, di);
    }
  }

  lemma {:induction false} LineProposalsAreJustified(h: Header, n: nat, m: nat)
    requires WellFormed(h) && h.dates != [] && n <= |h.lines| && LineProposals(h, n).Some?
      && m < |LineProposals(h, n).value|
    ensures Justified(h, LineProposals(h, n).value[m].assignment)
    decreases n
  {
    if m < |LineProposals(h, n - 1).value| {
      LineProposalsAreJustified(h, n - 1, m);
    } else {
      FromLineIsJustified(h, n - 1);
    }
  }

  /** Whatever layout proved it, an accepted assignment gives every date one group, in contiguous blocks. */
  lemma AllProposalsAreJustified(h: Header, m: nat)
    requires WellFormed(h) && h.dates != [] && AllProposals(h).Some? && m < |AllProposals(h).value|
    ensures Justified(h, AllProposals(h).value[m].assignment)
  {
    var runs := RunProposals(h);
    if m < |runs| {
      if runs[m].strategy.InterleavedGroups? { InterleavedIsJustified(h); }
    } else {
      LineProposalsAreJustified(h, |h.lines|, m - |runs|);
    }
  }

  /** A proof from two lines needs at least two groups on one line and all dates on a later one. */
  lemma LineProofsNeedTwoGroups(h: Header, gi: nat) returns (di: nat, j: nat, k: nat)
    requires WellFormed(h) && h.dates != [] && gi < |h.lines| && FromLine(h, gi).Proves?
    ensures gi < di < |h.lines| && HoldsAllDates(h, di)
    ensures j < k < |h.groups| && StartsIn(h.groups[k], h.lines[gi].span)
  {
    DateLineIsBelow(h, gi, |h.lines|);
    di := DateLine(h, gi, |h.lines|).value;
    LocalGroupsAscend(h, gi);
    var local := LocalGroups(h, gi);
    assert |local| > 1;
    j, k := local[0], local[1];
    assert k in local;
  }

  /** So the run layouts never apply beside it: accepted proofs are either all runs or all line layouts. */
  lemma LineProofsExcludeRuns(h: Header, gi: nat)
    requires WellFormed(h) && h.dates != [] && gi < |h.lines| && FromLine(h, gi).Proves?
    ensures !UniformApplies(h) && !InterleavedApplies(h) && RunProposals(h) == []
  {
    var di, j, k := LineProofsNeedTwoGroups(h, gi);
    forall i | 0 <= i < |h.dates| ensures !InRun(h, j, i) {
      assert StartsIn(h.dates[i], h.lines[di].span);
      if InRun(h, j, i) { RunBefore(h, j, k, i); }
    }
    NoneStart(h.dates, |h.dates|, RunRegion(h, j));
    assert Run(h, j) == [];
  }

  lemma {:induction false} NoneStart(spans: seq<Span>, n: nat, region: Span)
    requires n <= |spans| && forall i | 0 <= i < n :: !StartsIn(spans[i], region)
    ensures Starting(spans, n, region) == []
  {
    if n > 0 { NoneStart(spans, n - 1, region); }
  }
}
