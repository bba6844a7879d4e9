/** When a layout of a financial header is a proof of ownership, in terms of where its tokens stand. */
module HeaderLaws {
  import opened Common
  import opened HeaderResolver

  ghost predicate ExactlyOne(spans: seq<Span>, region: Span) {
    exists i :: 0 <= i < |spans| && StartsIn(spans[i], region)
                && forall k | 0 <= k < |spans| && k != i :: !StartsIn(spans[k], region)
  }

  ghost predicate AtLeastOne(spans: seq<Span>, region: Span) {
    exists i :: 0 <= i < |spans| && StartsIn(spans[i], region)
  }

  lemma StartingCounts(spans: seq<Span>, region: Span)
    ensures |AllStarting(spans, region)| >= 1 <==> AtLeastOne(spans, region)
    ensures |AllStarting(spans, region)| == 1 <==> ExactlyOne(spans, region)
  {
    var all := AllStarting(spans, region);
    StartingAre(spans, |spans|, region);
    if all != [] { assert all[0] in all; }
    if i :| 0 <= i < |spans| && StartsIn(spans[i], region) { assert i in all; }
    if |all| == 1 {
      forall k | 0 <= k < |spans| && StartsIn(spans[k], region) ensures k == all[0] { assert k in all; }
    }
    if |all| >= 2 {
      assert all[0] in all && all[1] in all && all[0] < all[1];
      assert !ExactlyOne(spans, region);
    }
  }

  /** A date stands between group j and the next; date i stands between some group and the next. */
  ghost predicate LeadsOne(h: Header, j: nat) { exists i: nat :: InRun(h, j, i) }

  ghost predicate IsLed(h: Header, i: nat) { exists j: nat :: InRun(h, j, i) }

  /** One group before all dates owns them all; several do when each is followed by a date before the next one, and
      every date follows one. */
  lemma RunLayoutsMean(h: Header)
    requires WellFormed(h)
    ensures UniformApplies(h) <==>
      |h.groups| == 1 && h.dates != [] && forall i | 0 <= i < |h.dates| :: h.groups[0].end <= h.dates[i].start
    ensures InterleavedApplies(h) <==>
      (forall j | 0 <= j < |h.groups| :: LeadsOne(h, j)) && (forall i | 0 <= i < |h.dates| :: IsLed(h, i))
  {
    if h.dates != [] {
      forall i | 0 <= i < |h.dates| ensures h.dates[0].start <= h.dates[i].start { Increasing(h.dates, 0, i); }
    }
    forall j: nat | j < |h.groups| ensures Run(h, j) != [] <==> LeadsOne(h, j) {
      RunMembers(h, j);
      if Run(h, j) != [] { assert Run(h, j)[0] in Run(h, j); }
      if i: nat :| InRun(h, j, i) { assert i in Run(h, j); }
    }
    RunsCover(h);
  }

  /** The runs hold as many dates as there are exactly when each date is in one. */
  lemma RunsCover(h: Header)
    requires WellFormed(h)
    ensures |Runs(h, |h.groups|)| == |h.dates| <==> forall i | 0 <= i < |h.dates| :: IsLed(h, i)
  {
    var all, n := Runs(h, |h.groups|), |h.dates|;
    RunsMembers(h, |h.groups|);
    if |all| == n {
      forall i | 0 <= i < n ensures IsLed(h, i) { if i !in all { MissingMakesFewer(all, n, i); } }
    }
    if forall i | 0 <= i < n :: IsLed(h, i) {
      forall i: nat | i < n ensures i in all {
        assert IsLed(h, i);
        var j: nat :| InRun(h, j, i);
        assert InSomeRun(h, |h.groups|, i);
      }
      AllOfThem(all, n);
    }
  }

  lemma AllOfThem(all: seq<nat>, n: nat)
    requires Unrepeated(all) && forall i: nat :: i in all <==> i < n
    ensures |all| == n
  {
    var dates := seq(n, i => i);
    UnrepeatedWithin(dates, all);
    forall k | 0 <= k < |all| ensures all[k] in dates {
      assert all[k] in all;
      var i: nat := all[k];
      assert dates[i] == i;
    }
    UnrepeatedWithin(all, dates);
  }

  ghost predicate OnLine(h: Header, n: nat, j: nat) requires n < |h.lines| {
    j < |h.groups| && StartsIn(h.groups[j], h.lines[n].span)
  }

  ghost predicate FirstOnLine(h: Header, n: nat, j: nat) requires n < |h.lines| {
    OnLine(h, n, j) && !(j > 0 && OnLine(h, n, j - 1))
  }

  /** Date i starts as far into line di as group j does into line gi. */
  predicate SameColumn(h: Header, gi: nat, di: nat, j: nat, i: nat)
    requires gi < |h.lines| && di < |h.lines| && j < |h.groups| && i < |h.dates|
  {
    h.groups[j].start - h.lines[gi].span.start == h.dates[i].start - h.lines[di].span.start
  }

  /** The two lines have as many cells, and each cell of the first has one group. */
  ghost predicate CellByCell(h: Header, gi: nat, di: nat) requires gi < |h.lines| && di < |h.lines| {
    && |h.lines[gi].parts| == |h.lines[di].parts|
    && forall k | 0 <= k < |h.lines[gi].parts| :: ExactlyOne(h.groups, h.lines[gi].parts[k])
  }

  /** The groups of the line stand wide apart, the first above the first date and each above some date. */
  ghost predicate Aligned(h: Header, gi: nat, di: nat) requires gi < |h.lines| && di < |h.lines| && h.dates != [] {
    && (forall j: nat | OnLine(h, gi, j) && OnLine(h, gi, j + 1) :: WideAfter(h, j))
    && (forall j: nat | FirstOnLine(h, gi, j) :: SameColumn(h, gi, di, j, 0))
    && (forall j: nat | OnLine(h, gi, j) :: exists i :: 0 <= i < |h.dates| && SameColumn(h, gi, di, j, i))
  }

  lemma LocalMembers(h: Header, gi: nat)
    requires gi < |h.lines|
    ensures forall j: nat :: j in LocalGroups(h, gi) <==> OnLine(h, gi, j)
    ensures forall a, b | 0 <= a < b < |LocalGroups(h, gi)| :: LocalGroups(h, gi)[a] < LocalGroups(h, gi)[b]
  {
    StartingAre(h.groups, |h.groups|, h.lines[gi].span);
  }

  /** The groups on a line are consecutive. */
  lemma LocalFill(h: Header, gi: nat)
    requires WellFormed(h) && gi < |h.lines| && LocalGroups(h, gi) != []
    ensures var local := LocalGroups(h, gi);
      forall j: nat :: OnLine(h, gi, j) <==> local[0] <= j < local[0] + |local|
  {
    var local, line := LocalGroups(h, gi), h.lines[gi].span;
    var first := local[0];
    LocalMembers(h, gi);
    assert first in local;
    forall i | 0 <= i < |h.groups| && StartsIn(h.groups[i], line) ensures first <= i {
      assert OnLine(h, gi, i) && i in local;
      var k :| 0 <= k < |local| && local[k] == i;
    }
    forall i, k | first <= i < k < |h.groups| && StartsIn(h.groups[k], line) ensures StartsIn(h.groups[i], line) {
      Increasing(h.groups, first, i);
      Increasing(h.groups, i, k);
    }
    StartingFill(h.groups, |h.groups|, line, first);
  }

  lemma LocalGroupsAre(h: Header, gi: nat)
    requires WellFormed(h) && gi < |h.lines|
    ensures forall j: nat :: j in LocalGroups(h, gi) <==> OnLine(h, gi, j)
    ensures forall k | 0 <= k < |LocalGroups(h, gi)| :: LocalGroups(h, gi)[k] == LocalGroups(h, gi)[0] + k
    ensures LocalGroups(h, gi) != [] ==> forall j: nat :: FirstOnLine(h, gi, j) <==> j == LocalGroups(h, gi)[0]
  {
    LocalMembers(h, gi);
    if LocalGroups(h, gi) != [] {
      LocalFill(h, gi);
      LocalIsAnInterval(LocalGroups(h, gi), LocalGroups(h, gi)[0]);
    }
  }

  lemma LocalIsAnInterval(local: seq<nat>, first: nat)
    requires local != [] && local[0] == first
    requires forall a, b | 0 <= a < b < |local| :: local[a] < local[b]
    requires forall j: nat :: j in local <==> first <= j < first + |local|
    ensures forall k | 0 <= k < |local| :: local[k] == first + k
  {
    forall k | 0 <= k < |local| ensures local[k] ==
      first + k { AtLeastSoFar(local, first, k); AtMostSoFar(local, first, k); }
  }

  lemma {:induction false} AtLeastSoFar(local: seq<nat>, first: nat, k: nat)
    requires k < |local| && local[0] == first && forall a, b | 0 <= a < b < |local| :: local[a] < local[b]
    ensures local[k] >= first + k
  {
    if k > 0 { AtLeastSoFar(local, first, k - 1); }
  }

  lemma {:induction false} AtMostSoFar(local: seq<nat>, first: nat, k: nat)
    requires k < |local| && forall a, b | 0 <= a < b < |local| :: local[a] < local[b]
    requires forall j: nat :: j in local <==> first <= j < first + |local|
    ensures local[k] <= first + k
    decreases |local| - k
  {
    if k == |local| - 1 { assert local[k] in local; } else { AtMostSoFar(local, first, k + 1); }
  }

  /** The conditions of the two line layouts. */
  lemma LineLayoutsMean(h: Header, gi: nat, di: nat)
    requires WellFormed(h) && h.dates != [] && gi < |h.lines| && di < |h.lines| && HoldsAllDates(h, di)
    ensures CellsMatch(h, gi, di) <==> CellByCell(h, gi, di)
    ensures |h.lines[di].parts| <= |LocalGroups(h, gi)| ==>
      (DelimitedApplies(h, LocalGroups(h, gi), h.lines[di].parts) <==>
       forall k | 0 <= k < |h.lines[di].parts| :: AtLeastOne(h.dates, h.lines[di].parts[k]))
    ensures LocalGroups(h, gi) != [] ==> (GridApplies(h, LocalGroups(h, gi), gi, di) <==> Aligned(h, gi, di))
  {
    forall k | 0 <= k < |h.lines[gi].parts|
      ensures GroupsInPart(h, h.lines[gi].parts[k]) == 1 <==> ExactlyOne(h.groups, h.lines[gi].parts[k])
    {
      StartingCounts(h.groups, h.lines[gi].parts[k]);
    }
    if |h.lines[di].parts| <= |LocalGroups(h, gi)| { CellsCoverTheDates(h, LocalGroups(h, gi), h.lines[di]); }
    if LocalGroups(h, gi) != [] {
      if GridApplies(h, LocalGroups(h, gi), gi, di) { GridIsAligned(h, gi, di); }
      if Aligned(h, gi, di) { AlignedIsGrid(h, gi, di); }
    }
  }

  lemma CellsCoverTheDates(h: Header, local: seq<nat>, line: Line)
    requires WellFormed(h) && CellsTile(h, line) && |line.parts| <= |local|
    requires forall i | 0 <= i < |h.dates| :: StartsIn(h.dates[i], line.span)
    ensures DelimitedApplies(h, local, line.parts) <==>
      forall k | 0 <= k < |line.parts| :: AtLeastOne(h.dates, line.parts[k])
  {
    DelimitedByCell(h, local, line, |line.parts|);
    forall k | 0 <= k < |line.parts|
      ensures DatesInPart(h, line.parts[k]) > 0 <==> AtLeastOne(h.dates, line.parts[k])
    {
      StartingCounts(h.dates, line.parts[k]);
    }
  }

  lemma LocalAt(h: Header, gi: nat, j: nat)
    requires WellFormed(h) && gi < |h.lines| && OnLine(h, gi, j)
    ensures var local := LocalGroups(h, gi);
      local != [] && 0 <= j - local[0] < |local| && local[j - local[0]] == j
  {
    LocalGroupsAre(h, gi);
    var local := LocalGroups(h, gi);
    assert j in local;
    var k :| 0 <= k < |local| && local[k] == j;
  }

  lemma DateAbove(h: Header, gi: nat, di: nat, j: nat)
    requires gi < |h.lines| && di < |h.lines| && j < |h.groups|
    ensures SomeDateAt(h, ColumnOf(GroupSpan(h, j), h.lines[gi]), di) <==>
      exists i :: 0 <= i < |h.dates| && SameColumn(h, gi, di, j, i)
  {
    if SomeDateAt(h, ColumnOf(GroupSpan(h, j), h.lines[gi]), di) {
      var i :| 0 <= i < |h.dates| && ColumnOf(h.dates[i], h.lines[di]) == ColumnOf(GroupSpan(h, j), h.lines[gi]);
      assert SameColumn(h, gi, di, j, i);
    }
    if i :| 0 <= i < |h.dates| && SameColumn(h, gi, di, j, i) {
      assert ColumnOf(h.dates[i], h.lines[di]) == ColumnOf(GroupSpan(h, j), h.lines[gi]);
    }
  }

  lemma GridIsAligned(h: Header, gi: nat, di: nat)
    requires WellFormed(h) && h.dates != [] && gi < |h.lines| && di < |h.lines| && LocalGroups(h, gi) != []
    requires GridApplies(h, LocalGroups(h, gi), gi, di)
    ensures Aligned(h, gi, di)
  {
    var local := LocalGroups(h, gi);
    LocalGroupsAre(h, gi);
    forall j: nat | OnLine(h, gi, j) && OnLine(h, gi, j + 1) ensures WideAfter(h, j) {
      LocalAt(h, gi, j);
      LocalAt(h, gi, j + 1);
    }
    forall j: nat | OnLine(h, gi, j) ensures exists i :: 0 <= i < |h.dates| && SameColumn(h, gi, di, j, i) {
      LocalAt(h, gi, j);
      DateAbove(h, gi, di, j);
    }
  }

  lemma AlignedIsGrid(h: Header, gi: nat, di: nat)
    requires WellFormed(h) && h.dates != [] && gi < |h.lines| && di < |h.lines| && LocalGroups(h, gi) != []
    requires Aligned(h, gi, di)
    ensures GridApplies(h, LocalGroups(h, gi), gi, di)
  {
    var local := LocalGroups(h, gi);
    LocalGroupsAre(h, gi);
    forall k | 0 <= k < |local| ensures SomeDateAt(h, ColumnOf(GroupSpan(h, local[k]), h.lines[gi]), di) {
      assert local[k] in local;
      DateAbove(h, gi, di, local[k]);
    }
    forall k | 0 <= k < |local| - 1 ensures WideAfter(h, local[k]) {
      assert local[k] in local && local[k + 1] in local && local[k + 1] == local[k] + 1;
    }
    var first := local[0];
    assert FirstOnLine(h, gi, first);
    assert SameColumn(h, gi, di, first, 0);
  }

  /** What a line of groups and the line of all dates below it establish. Between two lines with bars the cells must
      match, or the header contradicts itself; then every cell of dates must have one, and each date is owned by the
      group at the position of its cell. Otherwise several groups must be aligned, and each date is owned by the last
      group that starts no further into its line. */
  lemma FromLinesMeans(h: Header, gi: nat, di: nat)
    requires WellFormed(h) && h.dates != [] && gi < di < |h.lines| && HoldsAllDates(h, di)
    ensures var found, local := FromLines(h, gi, di), LocalGroups(h, gi);
      var cells := |h.lines[gi].parts| > 1 && |h.lines[di].parts| > 1;
      && (found.Contradiction? <==>
            local != [] && cells && !(CellByCell(h, gi, di) && |h.lines[di].parts| <= |local|))
      && (found.Proves? <==>
            local != []
            && (if cells then
                  CellByCell(h, gi, di) && |h.lines[di].parts| <= |local|
                  && forall k | 0 <= k < |h.lines[di].parts| :: AtLeastOne(h.dates, h.lines[di].parts[k])
                else |local| > 1 && Aligned(h, gi, di)))
      && (found.Proves? ==>
            && found.proposal.strategy == (if cells then DelimitedGroupSpans else ExplicitTextGrid)
            && |found.proposal.assignment| == |h.dates|
            && forall i | 0 <= i < |h.dates| ::
                 if cells then
                   |h.lines[di].parts| <= |local|
                   && CellOwner(h, local, h.lines[di], |h.lines[di].parts|, found.proposal.assignment, i)
                 else OwnedByColumn(h, gi, di, found.proposal.assignment[i], i))
  {
    LineLayoutsMean(h, gi, di);
    var local := LocalGroups(h, gi);
    LocalGroupsAscend(h, gi);
    if FromLines(h, gi, di).Proves? {
      if Barred(h.lines[gi]) && Barred(h.lines[di]) {
        DelimitedByCell(h, local, h.lines[di], |h.lines[di].parts|);
      } else {
        forall i | 0 <= i < |h.dates| ensures OwnedByColumn(h, gi, di, Grid(h, local, gi, di)[i], i) {
          GridOwns(h, gi, di, i);
        }
      }
    }
  }

  /** Group j is the last on the line that starts no further into it than date i into its own. */
  ghost predicate OwnedByColumn(h: Header, gi: nat, di: nat, j: nat, i: nat)
    requires gi < |h.lines| && di < |h.lines| && i < |h.dates|
  {
    var column := h.dates[i].start - h.lines[di].span.start;
    && OnLine(h, gi, j) && h.groups[j].start - h.lines[gi].span.start <= column
    && forall m: nat | OnLine(h, gi, m) && m > j :: column < h.groups[m].start - h.lines[gi].span.start
  }

  lemma GridOwns(h: Header, gi: nat, di: nat, i: nat)
    requires WellFormed(h) && gi < |h.lines| && di < |h.lines| && i < |h.dates| && LocalGroups(h, gi) != []
    requires GridApplies(h, LocalGroups(h, gi), gi, di)
    ensures OwnedByColumn(h, gi, di, Grid(h, LocalGroups(h, gi), gi, di)[i], i)
  {
    var local := LocalGroups(h, gi);
    LocalGroupsAscend(h, gi);
    LocalGroupsAre(h, gi);
    var k := GridColumn(h, local, gi, di, i);
    assert local[k] in local;
    forall m: nat | OnLine(h, gi, m) && m > local[k]
      ensures h.dates[i].start - h.lines[di].span.start < h.groups[m].start - h.lines[gi].span.start
    {
      var at :| 0 <= at < |local| && local[at] == m;
      assert at > k;
    }
  }

  /** A line of groups proves what it does with the one line below it that holds all dates, and nothing if there is
      none. */
  lemma FromLineMeans(h: Header, gi: nat)
    requires WellFormed(h) && h.dates != [] && gi < |h.lines|
    ensures forall di | gi < di < |h.lines| && HoldsAllDates(h, di) :: FromLine(h, gi) == FromLines(h, gi, di)
    ensures (forall di | gi < di < |h.lines| :: !HoldsAllDates(h, di)) ==> FromLine(h, gi) == Nothing
  {
    DateLineIsBelow(h, gi, |h.lines|);
    forall di | gi < di < |h.lines| && HoldsAllDates(h, di) ensures FromLine(h, gi) == FromLines(h, gi, di) {
      OneLineHoldsAllDates(h, DateLine(h, gi, |h.lines|).value, di);
    }
  }

  ghost predicate ProvenByALine(h: Header, n: nat, p: Proposal) requires n <= |h.lines| && h.dates != [] {
    exists gi :: 0 <= gi < n && FromLine(h, gi) == Proves(p)
  }

  lemma {:induction false} LinesContradict(h: Header, n: nat)
    requires n <= |h.lines| && h.dates != []
    ensures LineProposals(h, n).None? <==> exists gi :: 0 <= gi < n && FromLine(h, gi) == Contradiction
  {
    if n > 0 { LinesContradict(h, n - 1); }
  }

  lemma OneLineMore(h: Header, n: nat, p: Proposal)
    requires n < |h.lines| && h.dates != []
    ensures ProvenByALine(h, n + 1, p) <==> ProvenByALine(h, n, p) || FromLine(h, n) == Proves(p)
  {
    if gi :| 0 <= gi < n && FromLine(h, gi) == Proves(p) { assert ProvenByALine(h, n + 1, p); }
  }

  lemma {:induction false} LinesProve(h: Header, n: nat, p: Proposal)
    requires n <= |h.lines| && h.dates != [] && LineProposals(h, n).Some?
    ensures p in LineProposals(h, n).value <==> ProvenByALine(h, n, p)
  {
    if n > 0 {
      LinesProve(h, n - 1, p);
      OneLineMore(h, n - 1, p);
    }
  }

  lemma {:induction false} NothingProven(h: Header, n: nat)
    requires n <= |h.lines| && h.dates != [] && forall g | 0 <= g < n :: FromLine(h, g) == Nothing
    ensures LineProposals(h, n) == Some([])
  {
    if n > 0 { NothingProven(h, n - 1); }
  }

  lemma {:induction false} TopLineIsFirst(h: Header, n: nat, gi: nat)
    requires gi < n <= |h.lines| && h.dates != [] && LineProposals(h, n).Some? && FromLine(h, gi).Proves?
    requires forall g | 0 <= g < gi :: FromLine(h, g) == Nothing
    ensures LineProposals(h, n).value != [] && LineProposals(h, n).value[0] == FromLine(h, gi).proposal
  {
    if gi == n - 1 {
      NothingProven(h, n - 1);
    } else {
      TopLineIsFirst(h, n - 1, gi);
    }
  }

  /** The proofs are those of the run layouts and of the lines, the uniform one first, then the interleaved one, then
      those of the lines from the top; there are none if some line contradicts itself. */
  lemma ProposalsMean(h: Header)
    requires WellFormed(h) && h.dates != []
    ensures AllProposals(h).None? <==> exists gi :: 0 <= gi < |h.lines| && FromLine(h, gi) == Contradiction
    ensures AllProposals(h).Some? ==> forall p :: p in AllProposals(h).value <==>
      || (UniformApplies(h) && p == Proposal(UniformGroup, seq(|h.dates|, i => 0)))
      || (InterleavedApplies(h) && p == Proposal(InterleavedGroups, Interleaved(h)))
      || ProvenByALine(h, |h.lines|, p)
    ensures AllProposals(h).Some? && UniformApplies(h) ==>
      AllProposals(h).value != [] && AllProposals(h).value[0].strategy == UniformGroup
    ensures AllProposals(h).Some? && !UniformApplies(h) && InterleavedApplies(h) ==>
      AllProposals(h).value != [] && AllProposals(h).value[0].strategy == InterleavedGroups
    ensures forall gi | 0 <= gi < |h.lines| && FromLine(h, gi).Proves? && AllProposals(h).Some?
                        && (forall g | 0 <= g < gi :: FromLine(h, g) == Nothing) ::
      AllProposals(h).value != [] && AllProposals(h).value[0] == FromLine(h, gi).proposal
  {
    LinesContradict(h, |h.lines|);
    if AllProposals(h).Some? {
      forall p ensures p in LineProposals(h, |h.lines|).value <==> ProvenByALine(h, |h.lines|, p) {
        LinesProve(h, |h.lines|, p);
      }
      forall gi | 0 <= gi < |h.lines| && FromLine(h, gi).Proves?
        && (forall g | 0 <= g < gi :: FromLine(h, g) == Nothing)
        ensures AllProposals(h).value != [] && AllProposals(h).value[0] == FromLine(h, gi).proposal
      {
        LineProofsExcludeRuns(h, gi);
        TopLineIsFirst(h, |h.lines|, gi);
      }
    }
    forall gi | 0 <= gi < |h.lines| && FromLine(h, gi).Proves? ensures RunProposals(h) == [] {
      LineProofsExcludeRuns(h, gi);
    }
  }

  /** Audit labels, as many as dates, are attached in order when they all stand on one line that starts after the last
      date, or each stands between its date and the next. */
  lemma AuditsMean(h: Header, i: nat)
    requires WellFormed(h) && i < |h.dates|
    ensures AuditOf(h, i).Some? <==> |h.audits| == |h.dates| && (OneAuditRow(h) || AuditAfterEachDate(h))
    ensures AuditOf(h, i).Some? ==> AuditOf(h, i).value == h.statuses[i]
  {
    if |h.audits| == |h.dates| { AttachedMeans(h); }
  }

  lemma AttachedMeans(h: Header)
    requires WellFormed(h) && |h.audits| == |h.dates| && h.dates != []
    ensures AuditsInOneRow(h) <==> OneAuditRow(h)
    ensures AuditsInterleaved(h) <==> AuditAfterEachDate(h)
  {
    forall n | 0 <= n < |h.lines|
      ensures AuditsInLine(h, n) == |h.dates| <==>
        forall a | 0 <= a < |h.audits| :: StartsIn(h.audits[a], h.lines[n].span)
    {
      AllOrFewer(h.audits, |h.audits|, h.lines[n].span);
    }
    if AuditsInOneRow(h) {
      var n :| 0 <= n < |h.lines| && AuditsInLine(h, n) == |h.dates|
               && h.lines[n].span.start > h.dates[|h.dates| - 1].end;
    }
    if AuditsInterleaved(h) {
      forall i: nat | i < |h.dates| ensures AuditFollows(h, i) {
        if i + 1 < |h.dates| { assert h.dates[i + 1].start < h.dates[i + 1].end <= h.length; }
      }
    }
    if AuditAfterEachDate(h) {
      forall i: nat | i < |h.dates|
        ensures h.dates[i].end <= h.audits[i].start
                < (if i + 1 < |h.dates| then h.dates[i + 1].start else h.length)
      {
        assert AuditFollows(h, i);
      }
    }
  }

  ghost predicate OneAuditRow(h: Header) {
    exists n :: 0 <= n < |h.lines| && h.dates != [] && h.dates[|h.dates| - 1].end < h.lines[n].span.start
                && forall a | 0 <= a < |h.audits| :: StartsIn(h.audits[a], h.lines[n].span)
  }

  /** Audit label i stands between the end of date i and the next date, or the end of the text. */
  predicate AuditFollows(h: Header, i: nat) requires |h.audits| == |h.dates| && i < |h.dates| {
    && h.dates[i].end <= h.audits[i].start < h.length
    && (i < |h.dates| - 1 ==> h.audits[i].start < h.dates[i + 1].start)
  }

  ghost predicate AuditAfterEachDate(h: Header) requires |h.audits| == |h.dates| {
    forall i: nat | i < |h.dates| :: AuditFollows(h, i)
  }

  lemma {:induction false} AllOrFewer(spans: seq<Span>, n: nat, region: Span)
    requires n <= |spans|
    ensures |Starting(spans, n, region)| == n <==> forall i | 0 <= i < n :: StartsIn(spans[i], region)
  {
    if n > 0 {
      AllOrFewer(spans, n - 1, region);
      StartingAre(spans, n - 1, region);
    }
  }
}
