/** The status snapshot: business counters reconstructed from one cycle's durable rows. */
module CycleStatus {
  import opened Common
  import opened Lru
  import opened CycleTables
  import CheckpointSessions

  const DEFAULT_MAX_ATTEMPTS := 3

  /** One item of the mapping that cycle_progress returns. */
  datatype Entry = Entry(instrument: Opaque, row: Row)

  /** What the snapshot reads out of a row's payload. */
  datatype Facts = Facts(ready: bool, disposition: Option<Opaque>, rankEligible: bool)

  /** The stored selection document, as far as the snapshot reads it. */
  datatype Document = Document(deepIds: Option<seq<Opaque>>, shortlistIds: Option<seq<Opaque>>,
                               universe: Option<seq<Opaque>>, universeCount: Option<int>,
                               baselineEvaluated: Option<int>, phase: Option<Opaque>)

  datatype Stage = Stage(completed: nat, total: Option<int>, percentage: Option<int>)

  datatype DeepCounts = DeepCounts(ready: nat, readinessFailed: nat, technical: nat, eligible: nat)

  datatype ReportedPhase = DeepPhase | Recorded(marker: Opaque) | Terminal(status: Status)

  /** The submitted parameters, as far as the snapshot reads them. */
  datatype Parameters = Parameters(analysisScope: Option<Opaque>, shortlistLimit: Option<int>)

  datatype Report = Report(phase: ReportedPhase, baselineEvaluated: Option<int>, baselineCompleted: nat,
                           baselineFailed: nat, baselineInProgress: nat, baselineAwaitingRetry: nat,
                           baselineNotStarted: Option<nat>,
                           universeCount: Option<int>, deepAttempted: nat, deepCompleted: nat, deepDenominator: nat,
                           deep: DeepCounts, technical: nat, stages: (Stage, Stage), overall: Option<int>,
                           analysisScope: Option<Opaque>, requestedLimit: Option<int>, limitApplied: Option<bool>)

  predicate Exhausted(r: Row) { r.state.RetryableFailure? && r.attempts >= DEFAULT_MAX_ATTEMPTS }

  predicate Done(r: Row) { r.state.Final() || Exhausted(r) }

  function Filter(rows: seq<Entry>, p: Entry -> bool): seq<Entry> {
    if rows == [] then []
    else (if p(rows[0]) then [rows[0]] else []) + Filter(rows[1..], p)
  }

  function OnRow(p: Row -> bool): Entry -> bool { (e: Entry) => p(e.row) }

  function Tally(rows: seq<Entry>, p: Row -> bool): nat { |Filter(rows, OnRow(p))| }

  function IsDone(): Row -> bool { (r: Row) => Done(r) }
  function IsInProgress(): Row -> bool { (r: Row) => r.state.InProgress? }
  function AwaitsRetry(): Row -> bool { (r: Row) => r.state.RetryableFailure? && r.attempts < DEFAULT_MAX_ATTEMPTS }
  function IsPending(): Row -> bool { (r: Row) => r.state.Pending? }

  lemma TallyFirst(rows: seq<Entry>, p: Row -> bool)
    requires rows != []
    ensures Tally(rows, p) == (if p(rows[0].row) then 1 else 0) + Tally(rows[1..], p)
  {
  }

  /** Every row is in exactly one of the four groups. */
  lemma {:induction false} RowsPartition(rows: seq<Entry>)
    ensures Tally(rows, IsDone()) + Tally(rows, IsInProgress()) + Tally(rows, AwaitsRetry()) + Tally(rows, IsPending())
            == |rows|
  {
    if rows != [] {
      RowsPartition(rows[1..]);
      TallyFirst(rows, IsDone());
      TallyFirst(rows, IsInProgress());
      TallyFirst(rows, AwaitsRetry());
      TallyFirst(rows, IsPending());
    }
  }

  /** The mapping has one item per instrument. */
  ghost predicate Keyed(rows: seq<Entry>) {
    forall i, j | 0 <= i < j < |rows| :: rows[i].instrument != rows[j].instrument
  }

  function Instruments(rows: seq<Entry>): seq<Opaque> {
    seq(|rows|, i requires 0 <= i < |rows| => rows[i].instrument)
  }

  lemma {:induction false} FilterKeeps(rows: seq<Entry>, p: Entry -> bool)
    ensures forall i | 0 <= i < |Filter(rows, p)| :: Filter(rows, p)[i] in rows && p(Filter(rows, p)[i])
    ensures forall e | e in rows && p(e) :: e in Filter(rows, p)
    ensures |Filter(rows, p)| <= |rows|
    ensures Keyed(rows) ==> Keyed(Filter(rows, p))
  {
    if rows != [] {
      FilterKeeps(rows[1..], p);
      var rest := Filter(rows[1..], p);
      if Keyed(rows) {
        forall i | 0 <= i < |rest| ensures rest[i].instrument != rows[0].instrument {
          var k :| 0 <= k < |rows[1..]| && rows[1..][k] == rest[i];
          assert rows[k + 1] == rest[i];
        }
      }
    }
  }

  // ---------------------------------------------------------------- progress never goes back

  lemma TallyOfMore(before: seq<Entry>, after: seq<Entry>, p: Row -> bool)
    requires Keyed(before) && Keyed(after)
    requires forall e | e in before && p(e.row) :: e in after
    ensures Tally(before, p) <= Tally(after, p)
  {
    var q := OnRow(p);
    var a, b := Filter(before, q), Filter(after, q);
    FilterKeeps(before, q);
    FilterKeeps(after, q);
    forall i | 0 <= i < |a| ensures Instruments(a)[i] in Instruments(b) {
      assert a[i] in before && q(a[i]);
      var j :| 0 <= j < |b| && b[j] == a[i];
      assert Instruments(b)[j] == a[i].instrument;
    }
    UnrepeatedWithin(Instruments(a), Instruments(b));
  }

  /** The rows of one phase of a cycle, in whatever order the mapping gives them. */
  ghost predicate Lists(rows: seq<Entry>, db: Db, c: CycleId, phase: Phase) {
    && Keyed(rows)
    && (forall i | 0 <= i < |rows| ::
          Key(c, phase, rows[i].instrument) in db.progress
            && db.progress[Key(c, phase, rows[i].instrument)] == rows[i].row)
    && (forall k | k in db.progress && k.cycle == c && k.phase == phase :: Entry(k.instrument, db.progress[k]) in rows)
  }

  lemma DoneRowStays(s: CheckpointSessions.Sys, moves: seq<CheckpointSessions.Move>,
                     ready: set<CheckpointSessions.HandleId>, maxAttempts: int, c: CycleId, phase: Phase,
                     before: seq<Entry>, after: seq<Entry>, e: Entry)
    requires CheckpointSessions.SysInv(s) && CheckpointSessions.NoPendingRows(s.world.db)
    requires CheckpointSessions.Standing(s, ready) && CheckpointSessions.AllCareful(s, moves, ready, maxAttempts)
    requires maxAttempts <= DEFAULT_MAX_ATTEMPTS && Lists(before, s.world.db, c, phase)
    requires Lists(after, CheckpointSessions.Reached(s, moves).world.db, c, phase)
    requires e in before && Done(e.row)
    ensures e in after
  {
    var i :| 0 <= i < |before| && before[i] == e;
    var k := Key(c, phase, e.instrument);
    assert s.world.db.progress[k] == e.row;
    CheckpointSessions.RestorableRowsAreNeverRewritten(s, moves, ready, k, maxAttempts);
  }

  /** Under drivers that start only what is not restorable, with a repair budget of at most the snapshot's own, and only
      with handles that are ready, the completed count never goes back, across restarts, takeovers and cancellations: a
      new process reports at least the progress the old one made. */
  lemma CompletedNeverGoesBack(s: CheckpointSessions.Sys, moves: seq<CheckpointSessions.Move>,
                               ready: set<CheckpointSessions.HandleId>, maxAttempts: int, c: CycleId, phase: Phase,
                               before: seq<Entry>, after: seq<Entry>)
    requires CheckpointSessions.SysInv(s) && CheckpointSessions.NoPendingRows(s.world.db)
    requires CheckpointSessions.Standing(s, ready) && CheckpointSessions.AllCareful(s, moves, ready, maxAttempts)
    requires maxAttempts <= DEFAULT_MAX_ATTEMPTS && Lists(before, s.world.db, c, phase)
    requires Lists(after, CheckpointSessions.Reached(s, moves).world.db, c, phase)
    ensures Tally(before, IsDone()) <= Tally(after, IsDone())
  {
    forall e | e in before && IsDone()(e.row) ensures e in after {
      DoneRowStays(s, moves, ready, maxAttempts, c, phase, before, after, e);
    }
    TallyOfMore(before, after, IsDone());
  }

  // ---------------------------------------------------------------- admission

  /** `dict.fromkeys`: first occurrences in order. */
  function Deduplicated(ids: seq<Opaque>): (r: seq<Opaque>)
    ensures Distinct(r)
    ensures forall x :: x in r <==> x in ids
  {
    if ids == [] then []
    else
      var r := Deduplicated(ids[..|ids| - 1]);
      assert ids == ids[..|ids| - 1] + [ids[|ids| - 1]];
      if ids[|ids| - 1] in r then r else r + [ids[|ids| - 1]]
  }

  function OrEmpty(ids: Option<seq<Opaque>>): seq<Opaque> { if ids.None? then [] else ids.value }

  function Admitted(d: Document): seq<Opaque> {
    Deduplicated(if OrEmpty(d.deepIds) != [] then OrEmpty(d.deepIds) else OrEmpty(d.shortlistIds))
  }

  function Scoped(rows: seq<Entry>, admitted: seq<Opaque>): seq<Entry> {
    Filter(rows, (e: Entry) => admitted == [] || e.instrument in admitted)
  }

  function TerminalRows(rows: seq<Entry>): seq<Entry> { Filter(rows, OnRow(IsDone())) }

  /** With an admission, no more rows can be completed than instruments were admitted. */
  lemma CompletedWithinAdmission(rows: seq<Entry>, admitted: seq<Opaque>)
    requires Keyed(rows) && admitted != []
    ensures |TerminalRows(Scoped(rows, admitted))| <= |admitted|
  {
    var scoped := Scoped(rows, admitted);
    FilterKeeps(rows, (e: Entry) => admitted == [] || e.instrument in admitted);
    FilterKeeps(scoped, OnRow(IsDone()));
    UnrepeatedWithin(Instruments(scoped), admitted);
  }

  // ---------------------------------------------------------------- percentages

  /** Rounding to the nearest integer, ties to even. */
  function Round(x: real): (r: int)
    ensures -0.5 <= r as real - x <= 0.5
    ensures r as real - x == 0.5 || r as real - x == -0.5 ==> r % 2 == 0
  {
    var f := x.Floor;
    var d := x - f as real;
    if d < 0.5 then f else if d > 0.5 then f + 1 else f + f % 2
  }

  lemma RoundIsMonotone(x: real, y: real)
    requires x <= y
    ensures Round(x) <= Round(y)
  {
    var f, g := x.Floor, y.Floor;
    assert f <= g;
  }

  function Clamped(x: real): int { Max(0, Min(100, Round(x))) }

  function Percent(completed: int, total: int): real requires total > 0 { 100.0 * completed as real / total as real }

  function StagePercentage(completed: nat, total: Option<int>): (p: Option<int>)
    ensures p.None? <==> total.None?
    ensures p.Some? ==> 0 <= p.value <= 100
  {
    if total.None? then None
    else if total.value <= 0 then Some(100)
    else Some(Clamped(Percent(completed, total.value)))
  }

  lemma Scaling(p: real, q: real, m: real)
    requires m > 0.0
    ensures p * m <= q * m <==> p <= q
  {
    assert (q - p) * m == q * m - p * m;
  }

  lemma CrossMultiplied(x: real, s: real, y: real, t: real)
    requires s > 0.0 && t > 0.0
    ensures x / s <= y / t <==> x * t <= y * s
  {
    var p, q := x / s, y / t;
    assert x * t == p * s * t == p * (s * t);
    assert y * s == q * t * s == q * (s * t);
    Scaling(p, q, s * t);
  }

  /** A combined ratio lies between the ratios it combines. */
  lemma CombinedRatio(a: real, t: real, b: real, u: real)
    requires t > 0.0 && u > 0.0 && a / t <= b / u
    ensures a / t <= (a + b) / (t + u) <= b / u
  {
    CrossMultiplied(a, t, b, u);
    CrossMultiplied(a, t, a + b, t + u);
    CrossMultiplied(a + b, t + u, b, u);
    assert a * (t + u) == a * t + a * u && (a + b) * t == a * t + b * t;
    assert (a + b) * u == a * u + b * u && b * (t + u) == b * t + b * u;
  }

  lemma CombinedPercent(c: nat, t: int, d: nat, u: int)
    requires t > 0 && u > 0
    ensures Min(Clamped(Percent(c, t)), Clamped(Percent(d, u))) <= Clamped(Percent(c + d, t + u))
    ensures Clamped(Percent(c + d, t + u)) <= Max(Clamped(Percent(c, t)), Clamped(Percent(d, u)))
  {
    var a, b := 100.0 * c as real, 100.0 * d as real;
    assert Percent(c + d, t + u) == (a + b) / (t as real + u as real);
    if a / t as real <= b / u as real {
      CombinedRatio(a, t as real, b, u as real);
      RoundIsMonotone(Percent(c, t), Percent(c + d, t + u));
      RoundIsMonotone(Percent(c + d, t + u), Percent(d, u));
    } else {
      CombinedRatio(b, u as real, a, t as real);
      RoundIsMonotone(Percent(d, u), Percent(c + d, t + u));
      RoundIsMonotone(Percent(c + d, t + u), Percent(c, t));
    }
  }

  /** p is the integer nearest to c out of t in percent; of two equally near ones it is the even one. */
  predicate Nearest(p: int, c: int, t: int) {
    -t <= 2 * (p * t) - 200 * c <= t && (2 * (p * t) - 200 * c == t || 2 * (p * t) - 200 * c == -t ==> p % 2 == 0)
  }

  /** What a percentage says: the share completed, to the nearest integer, and 100 from there on, or of nothing. */
  predicate Shows(p: int, c: int, t: int) {
    (0 <= c < t ==> Nearest(p, c, t)) && (c >= t || t <= 0 ==> p == 100)
  }

  lemma Product(r: int, t: int)
    ensures (r * t) as real == r as real * t as real
  {
  }

  lemma Distributed(r: real, x: real, t: real)
    ensures (r - x) * t == r * t - x * t
  {
  }

  lemma Doubled(r: int, x: real, c: int, t: int)
    requires x * t as real == 100.0 * c as real
    ensures (2 * (r * t) - 200 * c) as real == 2.0 * ((r as real - x) * t as real)
  {
    Product(r, t);
    Distributed(r as real, x, t as real);
  }

  lemma WithinHalf(d: real, t: real)
    requires t > 0.0 && -0.5 <= d <= 0.5
    ensures -t <= 2.0 * (d * t) <= t
    ensures 2.0 * (d * t) == t ==> d == 0.5
    ensures 2.0 * (d * t) == -t ==> d == -0.5
  {
    Scaling(-0.5, d, t);
    Scaling(d, 0.5, t);
    Scaling(0.5, d, t);
    Scaling(d, -0.5, t);
  }

  lemma Quotient(a: real, t: real)
    requires t > 0.0
    ensures a / t * t == a
  {
  }

  /** The same of integers. */
  lemma WithinHalfOf(k: int, t: int, d: real)
    requires t > 0 && -0.5 <= d <= 0.5 && k as real == 2.0 * (d * t as real)
    ensures -t <= k <= t && (k == t ==> d == 0.5) && (k == -t ==> d == -0.5)
  {
    WithinHalf(d, t as real);
  }

  lemma RoundIsNearest(c: int, t: int)
    requires t > 0
    ensures Nearest(Round(Percent(c, t)), c, t)
  {
    var x, r := Percent(c, t), Round(Percent(c, t));
    Quotient(100.0 * c as real, t as real);
    Doubled(r, x, c, t);
    WithinHalfOf(2 * (r * t) - 200 * c, t, r as real - x);
  }

  lemma ShareOfAHundred(c: nat, t: int)
    requires t > 0
    ensures 0.0 <= Percent(c, t) && (c < t ==> Percent(c, t) <= 100.0) && (c >= t ==> Percent(c, t) >= 100.0)
  {
    var x := Percent(c, t);
    Quotient(100.0 * c as real, t as real);
    Scaling(x, 100.0, t as real);
    Scaling(100.0, x, t as real);
    Scaling(0.0, x, t as real);
  }

  lemma PercentIsNearest(c: nat, t: int)
    requires t > 0
    ensures Shows(Clamped(Percent(c, t)), c, t)
  {
    ShareOfAHundred(c, t);
    RoundIsNearest(c, t);
    RoundIsMonotone(0.0, Percent(c, t));
    if c < t { RoundIsMonotone(Percent(c, t), 100.0); } else { RoundIsMonotone(100.0, Percent(c, t)); }
    assert Round(0.0) == 0 && Round(100.0) == 100;
  }

  function NewStage(completed: nat, total: Option<int>): Stage {
    Stage(completed, total, StagePercentage(completed, total))
  }

  predicate Measured(s: Stage) { s.total.Some? && s.total.value > 0 }

  function Overall(status: Status, b: Stage, d: Stage): Option<int> {
    if status.Failed? || status.Cancelled? || b.percentage.None? || d.percentage.None? then None
    else
      var completed := (if Measured(b) then b.completed else 0) + (if Measured(d) then d.completed else 0);
      var total := (if Measured(b) then b.total.value else 0) + (if Measured(d) then d.total.value else 0);
      if total <= 0 then Some(100) else Some(Clamped(Percent(completed, total)))
  }

  /** Unknown exactly for a failed or cancelled run or an unknown stage; otherwise between the two stages. */
  lemma OverallLiesBetweenTheStages(status: Status, c: nat, t: Option<int>, d: nat, u: Option<int>)
    ensures var o := Overall(status, NewStage(c, t), NewStage(d, u));
      && (o.None? <==> status.Failed? || status.Cancelled? || t.None? || u.None?)
      && (o.Some? ==>
            var p, q := NewStage(c, t).percentage.value, NewStage(d, u).percentage.value;
            Min(p, q) <= o.value <= Max(p, q))
  {
    if t.Some? && u.Some? && t.value > 0 && u.value > 0 {
      CombinedPercent(c, t.value, d, u.value);
    }
  }

  // ---------------------------------------------------------------- the snapshot

  const ANALYZED: Opaque := 1
  const RANK_FILTERED: Opaque := 2
  const BASELINE_MARKER: Opaque := 3

  function FactsOf(r: Row, decode: Opaque -> Facts): Facts {
    if r.payload.None? then Facts(false, None, false) else decode(r.payload.value)
  }

  function Dispose(r: Row, decode: Opaque -> Facts): Option<Opaque> {
    if r.disposition.Some? then r.disposition else FactsOf(r, decode).disposition
  }

  predicate IsReady(r: Row, decode: Opaque -> Facts) { Dispose(r, decode) in {Some(ANALYZED), Some(RANK_FILTERED)} }

  function Ready(decode: Opaque -> Facts): Row -> bool { r => IsReady(r, decode) }
  function ReadinessFailed(): Row -> bool { (r: Row) => r.state.EvidenceUnavailable? }
  function Technical(): Row -> bool { (r: Row) => r.state.RetryableFailure? }
  function Eligible(decode: Opaque -> Facts): Row -> bool { r => FactsOf(r, decode).rankEligible }

  lemma {:induction false} FilterOfTwo(a: seq<Entry>, b: seq<Entry>, p: Entry -> bool)
    ensures Filter(a + b, p) == Filter(a, p) + Filter(b, p)
  {
    if a == [] {
      assert a + b == b;
    } else {
      var first := if p(a[0]) then [a[0]] else [];
      assert (a + b)[0] == a[0] && (a + b)[1..] == a[1..] + b;
      FilterOfTwo(a[1..], b, p);
      assert first + (Filter(a[1..], p) + Filter(b, p)) == (first + Filter(a[1..], p)) + Filter(b, p);
    }
  }

  lemma TallyOneMore(rows: seq<Entry>, e: Entry, p: Row -> bool)
    ensures Tally(rows + [e], p) == Tally(rows, p) + (if p(e.row) then 1 else 0)
  {
    FilterOfTwo(rows, [e], OnRow(p));
    assert Filter([e], OnRow(p)) == if p(e.row) then [e] else [];
  }

  function DeepCountsOf(terminal: seq<Entry>, decode: Opaque -> Facts): DeepCounts {
    DeepCounts(Tally(terminal, Ready(decode)), Tally(terminal, ReadinessFailed()), Tally(terminal, Technical()),
               Tally(terminal, Eligible(decode)))
  }

  /** The counting loop over the terminal rows. */
  method CountDeep(terminal: seq<Entry>, decode: Opaque -> Facts) returns (counts: DeepCounts)
    ensures counts == DeepCountsOf(terminal, decode)
  {
    var ready, failed, technical, eligible := 0, 0, 0, 0;
    for n := 0 to |terminal|
      invariant DeepCounts(ready, failed, technical, eligible) == DeepCountsOf(terminal[..n], decode)
    {
      var e := terminal[n];
      assert terminal[..n + 1] == terminal[..n] + [e];
      TallyOneMore(terminal[..n], e, Ready(decode));
      TallyOneMore(terminal[..n], e, ReadinessFailed());
      TallyOneMore(terminal[..n], e, Technical());
      TallyOneMore(terminal[..n], e, Eligible(decode));
      if IsReady(e.row, decode) { ready := ready + 1; }
      if e.row.state.EvidenceUnavailable? { failed := failed + 1; }
      if e.row.state.RetryableFailure? { technical := technical + 1; }
      if FactsOf(e.row, decode).rankEligible { eligible := eligible + 1; }
    }
    assert terminal[..|terminal|] == terminal;
    counts := DeepCounts(ready, failed, technical, eligible);
  }

  function UniverseCount(d: Document): Option<int> {
    if d.universeCount.None? && d.universe.Some? then Some(|d.universe.value|) else d.universeCount
  }

  function PhaseOf(status: Status, doc: Document): ReportedPhase {
    if !status.Active() then ReportedPhase.Terminal(status)
    else if doc.deepIds.Some? then DeepPhase
    else Recorded(if doc.phase.Some? then doc.phase.value else BASELINE_MARKER)
  }

  function Unready(decode: Opaque -> Facts): Entry -> bool { (e: Entry) => !FactsOf(e.row, decode).ready }

  function TerminalDeep(doc: Document, deep: seq<Entry>): seq<Entry> { TerminalRows(Scoped(deep, Admitted(doc))) }

  function DeepTotal(doc: Document): Option<int> { if Admitted(doc) == [] then None else Some(|Admitted(doc)|) }

  /** Whether the admission stayed within the requested limit, once there is something to compare. */
  function LimitApplied(admitted: seq<Opaque>, limit: Option<int>): Option<bool> {
    if admitted == [] || limit.None? then None else Some(|admitted| <= limit.value)
  }

  // ---------------------------------------------------------------- what the figures count

  ghost function Where(rows: seq<Entry>, p: Entry -> bool): set<int> { set i | 0 <= i < |rows| && p(rows[i]) }

  lemma {:induction false} FilterCounts(rows: seq<Entry>, p: Entry -> bool)
    ensures |Filter(rows, p)| == |Where(rows, p)|
  {
    if rows != [] {
      var n := |rows| - 1;
      var init, last := rows[..n], rows[n];
      FilterCounts(init, p);
      FilterOfTwo(init, [last], p);
      FilterOfOne(last, p);
      assert rows == init + [last];
      assert Where(rows, p) == Where(init, p) + (if p(last) then {n} else {});
    }
  }

  lemma {:induction false} FilterTwice(rows: seq<Entry>, p: Entry -> bool, q: Entry -> bool, both: Entry -> bool)
    requires forall e :: both(e) <==> p(e) && q(e)
    ensures Filter(Filter(rows, p), q) == Filter(rows, both)
  {
    if rows != [] {
      FilterTwice(rows[1..], p, q, both);
      if p(rows[0]) {
        FilterOfTwo([rows[0]], Filter(rows[1..], p), q);
        FilterOfOne(rows[0], q);
      } else {
        assert Filter(rows, p) == Filter(rows[1..], p);
      }
    }
  }

  /** The row has reached a final state or used up its three attempts. */
  predicate Ended(r: Row) {
    r.state in {AnalysisCompleted, EvidenceUnavailable, TerminalOutcome}
      || (r.state == RetryableFailure && r.attempts >= 3)
  }

  /** The baseline figures are the numbers of rows that have ended, that have ended without a payload that says ready,
      that are in progress, and that have failed and have attempts left; and of instruments without a row. */
  ghost predicate BaselineFigures(r: Report, doc: Document, baseline: seq<Entry>, decode: Opaque -> Facts) {
    && r.baselineCompleted == |set i | 0 <= i < |baseline| && Ended(baseline[i].row)|
    && r.baselineFailed ==
         |set i | 0 <= i < |baseline| && Ended(baseline[i].row)
                  && (baseline[i].row.payload.None? || !decode(baseline[i].row.payload.value).ready)|
    && r.baselineInProgress == |set i | 0 <= i < |baseline| && baseline[i].row.state == InProgress|
    && r.baselineAwaitingRetry ==
         |set i | 0 <= i < |baseline| && baseline[i].row.state == RetryableFailure && baseline[i].row.attempts < 3|
    && r.universeCount == (if doc.universeCount.Some? then doc.universeCount
                           else if doc.universe.Some? then Some(|doc.universe.value|) else None)
    && (r.baselineNotStarted.None? <==> r.universeCount.None?)
    && (r.baselineNotStarted.Some? ==>
          if |baseline| <= r.universeCount.value then |baseline| + r.baselineNotStarted.value == r.universeCount.value
          else r.baselineNotStarted.value == 0)
    && r.baselineEvaluated == (if doc.baselineEvaluated.None? && doc.universe.Some? then Some(r.baselineCompleted)
                               else doc.baselineEvaluated)
  }

  lemma FailedCounts(baseline: seq<Entry>, decode: Opaque -> Facts)
    ensures |Filter(TerminalRows(baseline), Unready(decode))| ==
      |set i | 0 <= i < |baseline| && Ended(baseline[i].row)
               && (baseline[i].row.payload.None? || !decode(baseline[i].row.payload.value).ready)|
  {
    var failed := (e: Entry) => OnRow(IsDone())(e) && Unready(decode)(e);
    FilterTwice(baseline, OnRow(IsDone()), Unready(decode), failed);
    FilterCounts(baseline, failed);
    assert Where(baseline, failed) ==
      set i | 0 <= i < |baseline| && Ended(baseline[i].row)
              && (baseline[i].row.payload.None? || !decode(baseline[i].row.payload.value).ready);
  }

  lemma StateCounts(baseline: seq<Entry>)
    ensures Tally(baseline, IsDone()) == |set i | 0 <= i < |baseline| && Ended(baseline[i].row)|
    ensures Tally(baseline, IsInProgress()) == |set i | 0 <= i < |baseline| && baseline[i].row.state == InProgress|
    ensures Tally(baseline, AwaitsRetry()) ==
      |set i | 0 <= i < |baseline| && baseline[i].row.state == RetryableFailure && baseline[i].row.attempts < 3|
  {
    FilterCounts(baseline, OnRow(IsDone()));
    FilterCounts(baseline, OnRow(IsInProgress()));
    FilterCounts(baseline, OnRow(AwaitsRetry()));
    assert Where(baseline, OnRow(IsDone())) == set i | 0 <= i < |baseline| && Ended(baseline[i].row);
    assert Where(baseline, OnRow(IsInProgress())) ==
      set i | 0 <= i < |baseline| && baseline[i].row.state == InProgress;
    assert Where(baseline, OnRow(AwaitsRetry())) ==
      set i | 0 <= i < |baseline| && baseline[i].row.state == RetryableFailure && baseline[i].row.attempts < 3;
  }

  lemma BaselineCounts(status: Status, doc: Document, given: Parameters, baseline: seq<Entry>, deep: seq<Entry>,
                       decode: Opaque -> Facts, counts: DeepCounts)
    ensures BaselineFigures(Snapshot(status, doc, given, baseline, deep, decode, counts), doc, baseline, decode)
  {
    StateCounts(baseline);
    FailedCounts(baseline, decode);
  }

  /** The instruments the document admits: its deep ids if it has any, else its shortlist. */
  ghost function AdmittedSet(doc: Document): set<Opaque> {
    if doc.deepIds.Some? && doc.deepIds.value != [] then set x | x in doc.deepIds.value
    else if doc.shortlistIds.Some? then set x | x in doc.shortlistIds.value else {}
  }

  /** A row is in scope unless there is an admission that does not name it. */
  ghost predicate InScope(doc: Document, e: Entry) { AdmittedSet(doc) != {} ==> e.instrument in AdmittedSet(doc) }

  ghost predicate EndedInScope(doc: Document, e: Entry) { InScope(doc, e) && Ended(e.row) }

  /** What a row was disposed as: by itself, or by the diagnostic in its payload. */
  function DisposedAs(r: Row, decode: Opaque -> Facts): Option<Opaque> {
    if r.disposition.Some? then r.disposition
    else if r.payload.Some? then decode(r.payload.value).disposition else None
  }

  /** The deep figures count rows in scope, all but the attempted and the technical ones only those that have ended. */
  ghost predicate DeepFigures(r: Report, doc: Document, given: Parameters, deep: seq<Entry>, decode: Opaque -> Facts) {
    && r.deepDenominator == |AdmittedSet(doc)|
    && r.deepAttempted == |set i | 0 <= i < |deep| && InScope(doc, deep[i]) && deep[i].row.attempts > 0|
    && r.technical == |set i | 0 <= i < |deep| && InScope(doc, deep[i]) && deep[i].row.state == RetryableFailure|
    && r.deepCompleted == |set i | 0 <= i < |deep| && EndedInScope(doc, deep[i])|
    && DeepKinds(r.deep, doc, deep, decode)
    && r.analysisScope == given.analysisScope && r.requestedLimit == given.shortlistLimit
    && (r.limitApplied.None? <==> AdmittedSet(doc) == {} || given.shortlistLimit.None?)
    && (r.limitApplied.Some? ==> (r.limitApplied.value <==> |AdmittedSet(doc)| <= given.shortlistLimit.value))
  }

  ghost predicate DeepKinds(counts: DeepCounts, doc: Document, deep: seq<Entry>, decode: Opaque -> Facts) {
    && counts.ready ==
         |set i | 0 <= i < |deep| && EndedInScope(doc, deep[i])
                  && DisposedAs(deep[i].row, decode) in {Some(ANALYZED), Some(RANK_FILTERED)}|
    && counts.readinessFailed ==
         |set i | 0 <= i < |deep| && EndedInScope(doc, deep[i]) && deep[i].row.state == EvidenceUnavailable|
    && counts.technical ==
         |set i | 0 <= i < |deep| && EndedInScope(doc, deep[i]) && deep[i].row.state == RetryableFailure|
    && counts.eligible ==
         |set i | 0 <= i < |deep| && EndedInScope(doc, deep[i]) && deep[i].row.payload.Some?
                  && decode(deep[i].row.payload.value).rankEligible|
  }

  lemma AdmittedIsThatSet(doc: Document)
    ensures |Admitted(doc)| == |AdmittedSet(doc)|
    ensures forall x :: x in Admitted(doc) <==> x in AdmittedSet(doc)
  {
    UnrepeatedCardinality(Admitted(doc));
    assert (set x | x in Admitted(doc)) == AdmittedSet(doc);
  }

  function ScopeOf(doc: Document): Entry -> bool {
    var admitted := Admitted(doc);
    (e: Entry) => admitted == [] || e.instrument in admitted
  }

  lemma ScopeIsThat(doc: Document, deep: seq<Entry>)
    ensures Scoped(deep, Admitted(doc)) == Filter(deep, ScopeOf(doc))
    ensures forall e :: ScopeOf(doc)(e) <==> InScope(doc, e)
  {
    AdmittedIsThatSet(doc);
    FilterSame(deep, (e: Entry) => Admitted(doc) == [] || e.instrument in Admitted(doc), ScopeOf(doc));
    if Admitted(doc) != [] { assert Admitted(doc)[0] in AdmittedSet(doc); }
  }

  lemma {:induction false} FilterSame(rows: seq<Entry>, p: Entry -> bool, q: Entry -> bool)
    requires forall e :: p(e) <==> q(e)
    ensures Filter(rows, p) == Filter(rows, q)
  {
    if rows != [] { FilterSame(rows[1..], p, q); }
  }

  /** Counting the rows in scope that satisfy p. */
  lemma ScopeCounts(doc: Document, deep: seq<Entry>, p: Row -> bool)
    ensures Tally(Scoped(deep, Admitted(doc)), p) == |set i | 0 <= i < |deep| && InScope(doc, deep[i])
      && p(deep[i].row)|
  {
    ScopeIsThat(doc, deep);
    var both := (e: Entry) => ScopeOf(doc)(e) && OnRow(p)(e);
    FilterTwice(deep, ScopeOf(doc), OnRow(p), both);
    FilterCounts(deep, both);
    assert Where(deep, both) == set i | 0 <= i < |deep| && InScope(doc, deep[i]) && p(deep[i].row);
  }

  function EndedScopeOf(doc: Document): Entry -> bool {
    var inScope := ScopeOf(doc);
    (e: Entry) => inScope(e) && Done(e.row)
  }

  lemma EndedScopeIsThat(doc: Document, deep: seq<Entry>)
    ensures TerminalDeep(doc, deep) == Filter(deep, EndedScopeOf(doc))
    ensures forall e :: EndedScopeOf(doc)(e) <==> EndedInScope(doc, e)
  {
    ScopeIsThat(doc, deep);
    FilterTwice(deep, ScopeOf(doc), OnRow(IsDone()), EndedScopeOf(doc));
  }

  /** Counting the ended ones among them. */
  lemma EndedScopeCounts(doc: Document, deep: seq<Entry>, p: Row -> bool)
    ensures Tally(TerminalDeep(doc, deep), p) ==
      |set i | 0 <= i < |deep| && EndedInScope(doc, deep[i]) && p(deep[i].row)|
  {
    EndedScopeIsThat(doc, deep);
    var ended := EndedScopeOf(doc);
    var both := (e: Entry) => ended(e) && OnRow(p)(e);
    FilterTwice(deep, ended, OnRow(p), both);
    FilterCounts(deep, both);
    assert Where(deep, both) == set i | 0 <= i < |deep| && EndedInScope(doc, deep[i]) && p(deep[i].row);
  }

  lemma EndedCounts(doc: Document, deep: seq<Entry>)
    ensures |TerminalDeep(doc, deep)| == |set i | 0 <= i < |deep| && EndedInScope(doc, deep[i])|
  {
    EndedScopeIsThat(doc, deep);
    FilterCounts(deep, EndedScopeOf(doc));
    assert Where(deep, EndedScopeOf(doc)) == set i | 0 <= i < |deep| && EndedInScope(doc, deep[i]);
  }

  lemma DeepCountsAre(status: Status, doc: Document, given: Parameters, baseline: seq<Entry>, deep: seq<Entry>,
                      decode: Opaque -> Facts)
    ensures DeepFigures(Snapshot(status, doc, given, baseline, deep, decode,
                                 DeepCountsOf(TerminalDeep(doc, deep), decode)), doc, given, deep, decode)
  {
    AdmittedIsThatSet(doc);
    EndedCounts(doc, deep);
    AttemptedCounts(doc, deep);
    DeepKindsAre(doc, deep, decode);
    if Admitted(doc) != [] { assert Admitted(doc)[0] in AdmittedSet(doc); }
  }

  lemma AttemptedCounts(doc: Document, deep: seq<Entry>)
    ensures Tally(Scoped(deep, Admitted(doc)), (x: Row) => x.attempts > 0) ==
      |set i | 0 <= i < |deep| && InScope(doc, deep[i]) && deep[i].row.attempts > 0|
    ensures Tally(Scoped(deep, Admitted(doc)), Technical()) ==
      |set i | 0 <= i < |deep| && InScope(doc, deep[i]) && deep[i].row.state == RetryableFailure|
  {
    var attempted := (x: Row) => x.attempts > 0;
    ScopeCounts(doc, deep, attempted);
    ScopeCounts(doc, deep, Technical());
    assert (set i | 0 <= i < |deep| && InScope(doc, deep[i]) && attempted(deep[i].row)) ==
      set i | 0 <= i < |deep| && InScope(doc, deep[i]) && deep[i].row.attempts > 0;
    assert (set i | 0 <= i < |deep| && InScope(doc, deep[i]) && Technical()(deep[i].row)) ==
      set i | 0 <= i < |deep| && InScope(doc, deep[i]) && deep[i].row.state == RetryableFailure;
  }

  lemma DeepKindsAre(doc: Document, deep: seq<Entry>, decode: Opaque -> Facts)
    ensures DeepKinds(DeepCountsOf(TerminalDeep(doc, deep), decode), doc, deep, decode)
  {
    ReadyCounts(doc, deep, decode);
    EligibleCounts(doc, deep, decode);
    FailureCounts(doc, deep);
  }

  lemma FailureCounts(doc: Document, deep: seq<Entry>)
    ensures Tally(TerminalDeep(doc, deep), ReadinessFailed()) ==
      |set i | 0 <= i < |deep| && EndedInScope(doc, deep[i]) && deep[i].row.state == EvidenceUnavailable|
    ensures Tally(TerminalDeep(doc, deep), Technical()) ==
      |set i | 0 <= i < |deep| && EndedInScope(doc, deep[i]) && deep[i].row.state == RetryableFailure|
  {
    EndedScopeCounts(doc, deep, ReadinessFailed());
    EndedScopeCounts(doc, deep, Technical());
    assert (set i | 0 <= i < |deep| && EndedInScope(doc, deep[i]) && ReadinessFailed()(deep[i].row)) ==
      set i | 0 <= i < |deep| && EndedInScope(doc, deep[i]) && deep[i].row.state == EvidenceUnavailable;
    assert (set i | 0 <= i < |deep| && EndedInScope(doc, deep[i]) && Technical()(deep[i].row)) ==
      set i | 0 <= i < |deep| && EndedInScope(doc, deep[i]) && deep[i].row.state == RetryableFailure;
  }

  lemma ReadyCounts(doc: Document, deep: seq<Entry>, decode: Opaque -> Facts)
    ensures Tally(TerminalDeep(doc, deep), Ready(decode)) ==
      |set i | 0 <= i < |deep| && EndedInScope(doc, deep[i])
               && DisposedAs(deep[i].row, decode) in {Some(ANALYZED), Some(RANK_FILTERED)}|
  {
    EndedScopeCounts(doc, deep, Ready(decode));
    assert (set i | 0 <= i < |deep| && EndedInScope(doc, deep[i]) && Ready(decode)(deep[i].row)) ==
      set i | 0 <= i < |deep| && EndedInScope(doc, deep[i])
              && DisposedAs(deep[i].row, decode) in {Some(ANALYZED), Some(RANK_FILTERED)};
  }

  lemma EligibleCounts(doc: Document, deep: seq<Entry>, decode: Opaque -> Facts)
    ensures Tally(TerminalDeep(doc, deep), Eligible(decode)) ==
      |set i | 0 <= i < |deep| && EndedInScope(doc, deep[i]) && deep[i].row.payload.Some?
               && decode(deep[i].row.payload.value).rankEligible|
  {
    EndedScopeCounts(doc, deep, Eligible(decode));
    assert (set i | 0 <= i < |deep| && EndedInScope(doc, deep[i]) && Eligible(decode)(deep[i].row)) ==
      set i | 0 <= i < |deep| && EndedInScope(doc, deep[i]) && deep[i].row.payload.Some?
              && decode(deep[i].row.payload.value).rankEligible;
  }

  /** A stage shows its completed rows out of a total, and no percentage without one. */
  predicate StageShows(s: Stage, completed: int, total: Option<int>) {
    && s.completed == completed && s.total == total && (s.percentage.None? <==> total.None?)
    && (total.Some? ==> Shows(s.percentage.value, completed, total.value))
  }

  /** Both together, unless one is unknown or the run has failed or been cancelled. */
  predicate OverallShows(overall: Option<int>, status: Status, c: int, t: Option<int>, d: int, u: Option<int>) {
    && (overall.None? <==> status == Failed || status == Cancelled || t.None? || u.None?)
    && (overall.Some? ==>
          Shows(overall.value, Known(c, t.value) + Known(d, u.value), Known(t.value, t.value)
                + Known(u.value, u.value)))
  }

  /** A stage of nothing, or less, counts for nothing. */
  function Known(x: int, total: int): int { if total > 0 then x else 0 }

  lemma StageIsShown(c: nat, t: Option<int>)
    ensures StageShows(NewStage(c, t), c, t)
  {
    if t.Some? && t.value > 0 { PercentIsNearest(c, t.value); }
  }

  lemma OverallIsShown(status: Status, c: nat, t: Option<int>, d: nat, u: Option<int>)
    ensures OverallShows(Overall(status, NewStage(c, t), NewStage(d, u)), status, c, t, d, u)
  {
    if t.Some? && u.Some? {
      var x, n := Known(c, t.value) + Known(d, u.value), Known(t.value, t.value) + Known(u.value, u.value);
      if n > 0 { PercentIsNearest(x, n); }
    }
  }

  /** The stages show the completed rows out of the universe and out of the admission. */
  ghost predicate ProgressFigures(r: Report, status: Status, doc: Document) {
    var deepTotal := if AdmittedSet(doc) == {} then None else Some(|AdmittedSet(doc)|);
    && StageShows(r.stages.0, r.baselineCompleted, r.universeCount)
    && StageShows(r.stages.1, r.deepCompleted, deepTotal)
    && OverallShows(r.overall, status, r.baselineCompleted, r.universeCount, r.deepCompleted, deepTotal)
    && (status == Completed || status == Failed || status == Cancelled ==> r.phase == ReportedPhase.Terminal(status))
    && (status != Completed && status != Failed && status != Cancelled ==>
          r.phase == (if doc.deepIds.Some? then DeepPhase
                      else Recorded(if doc.phase.Some? then doc.phase.value else BASELINE_MARKER)))
  }

  lemma ProgressShows(status: Status, doc: Document, given: Parameters, baseline: seq<Entry>, deep: seq<Entry>,
                      decode: Opaque -> Facts, counts: DeepCounts)
    ensures ProgressFigures(Snapshot(status, doc, given, baseline, deep, decode, counts), status, doc)
  {
    AdmittedIsThatSet(doc);
    if Admitted(doc) != [] { assert Admitted(doc)[0] in AdmittedSet(doc); }
    var c, t, d, u := Tally(baseline, IsDone()), UniverseCount(doc), |TerminalDeep(doc, deep)|, DeepTotal(doc);
    StageIsShown(c, t);
    StageIsShown(d, u);
    OverallIsShown(status, c, t, d, u);
  }

  /** What the snapshot reports, given the counts of the loop. */
  function Snapshot(status: Status, doc: Document, given: Parameters, baseline: seq<Entry>, deep: seq<Entry>,
                    decode: Opaque -> Facts, counts: DeepCounts): Report
  {
    var scoped := Scoped(deep, Admitted(doc));
    var terminal := TerminalRows(scoped);
    var universe := UniverseCount(doc);
    var completed := Tally(baseline, IsDone());
    var stages := (NewStage(completed, universe), NewStage(|terminal|, DeepTotal(doc)));
    Report(PhaseOf(status, doc),
           if doc.universe.Some? && doc.baselineEvaluated.None? then Some(completed) else doc.baselineEvaluated,
           completed, |Filter(TerminalRows(baseline), Unready(decode))|,
           Tally(baseline, IsInProgress()), Tally(baseline, AwaitsRetry()),
           if universe.None? then None else Some(Max(universe.value - |baseline|, 0)),
           universe, Tally(scoped, (x: Row) => x.attempts > 0), |terminal|, |Admitted(doc)|, counts,
           Tally(scoped, Technical()), stages, Overall(status, stages.0, stages.1),
           given.analysisScope, given.shortlistLimit, LimitApplied(Admitted(doc), given.shortlistLimit))
  }

  /** `cycle_status_snapshot` */
  method StatusSnapshot(status: Status, doc: Document, given: Parameters, baseline: seq<Entry>, deep: seq<Entry>,
                        decode: Opaque -> Facts) returns (r: Report)
    ensures r == Snapshot(status, doc, given, baseline, deep, decode, DeepCountsOf(TerminalDeep(doc, deep), decode))
    ensures BaselineFigures(r, doc, baseline, decode)
    ensures DeepFigures(r, doc, given, deep, decode)
    ensures ProgressFigures(r, status, doc)
  {
    var counts := CountDeep(TerminalDeep(doc, deep), decode);
    r := Snapshot(status, doc, given, baseline, deep, decode, counts);
    BaselineCounts(status, doc, given, baseline, deep, decode, counts);
    DeepCountsAre(status, doc, given, baseline, deep, decode);
    ProgressShows(status, doc, given, baseline, deep, decode, counts);
  }

  /** For a cycle without a run the snapshot reads an empty dictionary: it is as active, with no selection and no
      parameters, and so reports the first phase and no total. */
  method SnapshotOf(run: Option<(Status, Document, Parameters)>, baseline: seq<Entry>, deep: seq<Entry>,
                    decode: Opaque -> Facts) returns (r: Report)
    ensures run.Some? ==>
      var (status, doc, given) := run.value;
      r == Snapshot(status, doc, given, baseline, deep, decode, DeepCountsOf(TerminalDeep(doc, deep), decode))
    ensures run.None? ==>
      && r.phase == Recorded(BASELINE_MARKER) && r.universeCount.None? && r.baselineEvaluated.None?
      && r.overall.None? && r.deepDenominator == 0 && r.limitApplied.None?
      && r.baselineCompleted == Tally(baseline, IsDone())
      && BaselineFigures(r, NO_DOCUMENT, baseline, decode)
      && DeepFigures(r, NO_DOCUMENT, Parameters(None, None), deep, decode)
  {
    if run.None? {
      r := StatusSnapshot(Accepted, NO_DOCUMENT, Parameters(None, None), baseline, deep, decode);
    } else {
      r := StatusSnapshot(run.value.0, run.value.1, run.value.2, baseline, deep, decode);
    }
  }

  /** The baseline groups and the instruments without a row add up to the universe exactly when the rows do not
      exceed it. */
  lemma BaselineAddsUpToTheUniverse(status: Status, doc: Document, given: Parameters, baseline: seq<Entry>,
                                    deep: seq<Entry>, decode: Opaque -> Facts, counts: DeepCounts)
    requires UniverseCount(doc).Some?
    ensures var r := Snapshot(status, doc, given, baseline, deep, decode, counts);
      && r.universeCount.Some? && r.baselineNotStarted.Some?
      && (r.baselineCompleted + r.baselineInProgress + r.baselineAwaitingRetry + Tally(baseline, IsPending())
          + r.baselineNotStarted.value == r.universeCount.value
          <==> |baseline| <= r.universeCount.value)
  {
    RowsPartition(baseline);
  }

  lemma FailedWithinCompleted(status: Status, doc: Document, given: Parameters, baseline: seq<Entry>, deep: seq<Entry>,
                              decode: Opaque -> Facts, counts: DeepCounts)
    ensures var r := Snapshot(status, doc, given, baseline, deep, decode, counts);
      r.baselineFailed <= r.baselineCompleted
  {
    FilterKeeps(TerminalRows(baseline), Unready(decode));
  }

  /** Completed deep rows stay within the denominator exactly when something was admitted or no deep row is done; the
      two failure kinds are disjoint and so stay within the completed rows. */
  lemma DeepWithinDenominator(status: Status, doc: Document, given: Parameters, baseline: seq<Entry>, deep: seq<Entry>,
                              decode: Opaque -> Facts)
    requires Keyed(deep)
    ensures var r := Snapshot(status, doc, given, baseline, deep, decode,
                              DeepCountsOf(TerminalDeep(doc, deep), decode));
      && (r.deepCompleted <= r.deepDenominator <==> Admitted(doc) != [] || forall e | e in deep :: !Done(e.row))
      && r.deep.readinessFailed + r.deep.technical <= r.deepCompleted
  {
    if Admitted(doc) != [] {
      CompletedWithinAdmission(deep, Admitted(doc));
    } else {
      NothingScopedOut(deep, Admitted(doc));
    }
    FailureKindsAreDisjoint(TerminalDeep(doc, deep));
  }

  /** Without an admission every row is in scope, so the completed ones are all that are done. */
  lemma NothingScopedOut(rows: seq<Entry>, admitted: seq<Opaque>)
    requires admitted == []
    ensures |TerminalRows(Scoped(rows, admitted))| == 0 <==> forall e | e in rows :: !Done(e.row)
  {
    var scoped := Scoped(rows, admitted);
    FilterKeeps(rows, (e: Entry) => admitted == [] || e.instrument in admitted);
    FilterKeeps(scoped, OnRow(IsDone()));
    if TerminalRows(scoped) != [] {
      var e := TerminalRows(scoped)[0];
      assert e in scoped && OnRow(IsDone())(e);
      var i :| 0 <= i < |scoped| && scoped[i] == e;
      assert e in rows && Done(e.row);
    }
    if e :| e in rows && Done(e.row) { assert e in scoped && OnRow(IsDone())(e); }
  }

  const NO_DOCUMENT := Document(None, None, None, None, None, None)

  /** A cycle that records deep rows and then loses its admission reports one completed of none. */
  lemma CompletedWithoutAdmission(status: Status, given: Parameters, row: Row, decode: Opaque -> Facts,
                                  counts: DeepCounts)
    requires row.state.AnalysisCompleted?
    ensures var r := Snapshot(status, NO_DOCUMENT, given, [], [Entry(1, row)], decode, counts);
      r.deepCompleted == 1 && r.deepDenominator == 0
  {
    var rows := [Entry(1, row)];
    assert Admitted(NO_DOCUMENT) == [];
    FilterOfOne(rows[0], (e: Entry) => Admitted(NO_DOCUMENT) == [] || e.instrument in Admitted(NO_DOCUMENT));
    FilterOfOne(rows[0], OnRow(IsDone()));
  }

  lemma FilterOfOne(e: Entry, p: Entry -> bool)
    ensures Filter([e], p) == if p(e) then [e] else []
  {
    assert Filter([e], p) == (if p(e) then [e] else []) + Filter([], p);
  }

  /** Two rows in a universe of one: the groups count two. */
  lemma RowsBeyondTheUniverse(status: Status, given: Parameters, row: Row, decode: Opaque -> Facts, counts: DeepCounts)
    requires row.state.AnalysisCompleted?
    ensures var r := Snapshot(status, NO_DOCUMENT.(universe := Some([1])), given, [Entry(1, row), Entry(2, row)], [],
                              decode, counts);
      r.universeCount == Some(1) && r.baselineCompleted == 2 && r.baselineNotStarted == Some(0)
  {
    var rows := [Entry(1, row), Entry(2, row)];
    assert rows[1..] == [Entry(2, row)] && [Entry(2, row)][1..] == [];
    TallyFirst(rows, IsDone());
    TallyFirst([Entry(2, row)], IsDone());
  }

  lemma {:induction false} FailureKindsAreDisjoint(rows: seq<Entry>)
    ensures Tally(rows, ReadinessFailed()) + Tally(rows, Technical()) <= |rows|
  {
    if rows != [] {
      FailureKindsAreDisjoint(rows[1..]);
      TallyFirst(rows, ReadinessFailed());
      TallyFirst(rows, Technical());
    }
  }

  /** The overall percentage is unknown exactly for a failed or cancelled run or an unknown stage total, else it lies
      between the two stage percentages. */
  lemma OverallIsBoundedByTheStages(status: Status, doc: Document, given: Parameters, baseline: seq<Entry>,
                                    deep: seq<Entry>, decode: Opaque -> Facts, counts: DeepCounts)
    ensures var r := Snapshot(status, doc, given, baseline, deep, decode, counts);
      && (r.overall.None? <==> status.Failed? || status.Cancelled? || UniverseCount(doc).None? || Admitted(doc) == [])
      && (r.overall.Some? ==>
            && r.stages.0.percentage.Some? && r.stages.1.percentage.Some?
            && var (p, q) := (r.stages.0.percentage.value, r.stages.1.percentage.value);
               Min(p, q) <= r.overall.value <= Max(p, q))
  {
    OverallLiesBetweenTheStages(status, Tally(baseline, IsDone()), UniverseCount(doc), |TerminalDeep(doc, deep)|,
                                DeepTotal(doc));
  }
}
