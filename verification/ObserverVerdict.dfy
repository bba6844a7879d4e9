/** The verdict of the deployment observer on one snapshot, and what it means for the cycle protocol. */
module ObserverVerdict {
  import opened Common
  import opened Lru
  import opened CycleTables
  import opened CycleProtocol
  import opened SnapshotObserver

  /** A row of the run table; `None` is a status text the observer does not know. */
  datatype RunRow = RunRow(cycle: CycleId, market: Market, status: Option<Status>, owner: Option<Owner>,
                           lease: Option<int>)

  datatype SlotRow = SlotRow(market: Market, cycle: CycleId)

  /** A row of the migration history; `baseline` stands for the types SCHEMA and BASELINE. */
  datatype MigrationRow = MigrationRow(script: int, checksum: Option<int>, success: bool, baseline: bool)

  /** One repeatable-read snapshot; of a refresh run only whether it has completed. */
  datatype Snapshot = Snapshot(now: int, runs: seq<Keyed<RunRow>>, slots: seq<Keyed<SlotRow>>,
                               refreshes: seq<Keyed<bool>>, events: seq<Keyed<EventRow>>,
                               migrations: seq<MigrationRow>)

  datatype Target = Target(cycle: CycleId, market: Market)

  /** `shaped`: a dictionary with exactly the two entries, the cycle id a text of the required form. */
  datatype Request = Request(shaped: bool, target: Target)

  const NSE: Market := 1
  const RECOVERY_MARKETS := {NSE}

  function TargetOf(recovery: Option<Request>): Option<Target> {
    if recovery.None? then None else Some(recovery.value.target)
  }

  datatype Reason = DurableWork | ActiveSlot | BackgroundRefresh | LegacyWork | TargetMissing | MarketMismatch
                  | TargetNotRunning | OwnerMissing | LeaseLive

  datatype Verdict = Unknown | Blocked(reasons: set<Reason>) | QuietSnapshot | RecoverySnapshot

  /** The rows come in the order of their primary keys. */
  ghost predicate WellKeyed(s: Snapshot) {
    && Ascending(s.runs) && (forall i | 0 <= i < |s.runs| :: s.runs[i].key == [s.runs[i].row.cycle])
    && Ascending(s.slots) && (forall i | 0 <= i < |s.slots| :: s.slots[i].key == [s.slots[i].row.market])
    && Ascending(s.refreshes)
    && Ascending(s.events) && (forall i | 0 <= i < |s.events| :: s.events[i].key == [s.events[i].row.event])
  }

  predicate Busy(r: RunRow) { r.status.None? || r.status.value.Active() || r.owner.Some? }

  predicate Lapsed(r: RunRow, now: int) { r.lease.Some? && r.lease.value < now }

  ghost predicate Named(runs: seq<Keyed<RunRow>>, c: CycleId) {
    exists i :: 0 <= i < |runs| && runs[i].row.cycle == c
  }

  ghost predicate BusyWith(runs: seq<Keyed<RunRow>>, c: CycleId) {
    exists i :: 0 <= i < |runs| && Busy(runs[i].row) && runs[i].row.cycle == c
  }

  /** Some job's greatest event is unresolved and no durable run backs the job. */
  ghost predicate LegacyPending(s: Snapshot) {
    exists i :: 0 <= i < |s.events| && PendingEvent(s, i)
  }

  ghost predicate PendingEvent(s: Snapshot, i: nat) requires i < |s.events| {
    && s.events[i].row.payload.JobEvent?
    && s.events[i].row.payload.status.Active()
    && !Named(s.runs, s.events[i].row.payload.job)
    && (forall k | 0 <= k < |s.events| && IsJob(s.events[k].row, s.events[i].row.payload.job) ::
          || s.events[k].row.generated < s.events[i].row.generated
          || (s.events[k].row.generated == s.events[i].row.generated && s.events[k].row.event <= s.events[i].row.event))
  }

  // ---------------------------------------------------------------- what each reason says

  /** What is wrong with the named cycle's row. */
  predicate Wrong(row: RunRow, market: Market, now: int, r: Reason) {
    match r
    case MarketMismatch => row.market != market
    case TargetNotRunning => row.status != Some(Running)
    case OwnerMissing => row.owner.None?
    case LeaseLive => !Lapsed(row, now)
    case _ => false
  }

  ghost predicate TargetIsWrong(s: Snapshot, t: Target, r: Reason) {
    exists i :: 0 <= i < |s.runs| && s.runs[i].row.cycle == t.cycle && Wrong(s.runs[i].row, t.market, s.now, r)
  }

  ghost predicate Holds(s: Snapshot, recovery: Option<Target>, r: Reason) {
    match r
    case BackgroundRefresh => exists i :: 0 <= i < |s.refreshes| && !s.refreshes[i].row
    case LegacyWork => LegacyPending(s)
    case DurableWork =>
      if recovery.None? then exists c :: BusyWith(s.runs, c)
      else !BusyWith(s.runs, recovery.value.cycle) || exists c :: BusyWith(s.runs, c) && c != recovery.value.cycle
    case ActiveSlot =>
      if recovery.None? then s.slots != []
      else Named(s.runs, recovery.value.cycle)
           && !(|s.slots| == 1 && s.slots[0].row == SlotRow(recovery.value.market, recovery.value.cycle))
    case TargetMissing => recovery.Some? && !Named(s.runs, recovery.value.cycle)
    case _ => recovery.Some? && TargetIsWrong(s, recovery.value, r)
  }

  // ---------------------------------------------------------------- the scans

  lemma DistinctCycles(s: Snapshot, i: nat, j: nat)
    requires WellKeyed(s) && i < |s.runs| && j < |s.runs| && s.runs[i].row.cycle == s.runs[j].row.cycle
    ensures i == j
  {
    if i < j { LessIsAsymmetric(s.runs[i].key, s.runs[j].key); }
    if j < i { LessIsAsymmetric(s.runs[j].key, s.runs[i].key); }
  }

  ghost predicate WorkAt(s: Snapshot, n: nat, work: seq<CycleId>, at: seq<nat>) requires n <= |s.runs| {
    && |at| == |work|
    && (forall i, j | 0 <= i < j < |at| :: at[i] < at[j])
    && (forall k | 0 <= k < |at| :: at[k] < n && Busy(s.runs[at[k]].row) && s.runs[at[k]].row.cycle == work[k])
  }

  lemma WorkIsDistinct(s: Snapshot, work: seq<CycleId>, at: seq<nat>)
    requires WellKeyed(s) && WorkAt(s, |s.runs|, work, at)
    ensures Distinct(work) && forall c | c in work :: BusyWith(s.runs, c)
  {
    forall i, j | 0 <= i < j < |work| ensures work[i] != work[j] {
      if work[i] == work[j] { DistinctCycles(s, at[i], at[j]); }
    }
    forall c | c in work ensures BusyWith(s.runs, c) {
      var k :| 0 <= k < |work| && work[k] == c;
      assert Busy(s.runs[at[k]].row) && s.runs[at[k]].row.cycle == c;
    }
  }

  /** The run table: what is durable, and the cycles that are not terminal or still owned. */
  method ScanRuns(s: Snapshot) returns (durable: set<CycleId>, work: seq<CycleId>, known: bool)
    requires WellKeyed(s)
    ensures known <==> forall i | 0 <= i < |s.runs| :: s.runs[i].row.status.Some?
    ensures known ==> forall c :: c in durable <==> Named(s.runs, c)
    ensures known ==> Distinct(work) && forall c :: c in work <==> BusyWith(s.runs, c)
  {
    durable, work := {}, [];
    ghost var at: seq<nat> := [];
    for n := 0 to |s.runs|
      invariant forall i | 0 <= i < n :: s.runs[i].row.status.Some? && s.runs[i].row.cycle in durable
      invariant forall c | c in durable :: Named(s.runs, c)
      invariant forall i | 0 <= i < n && Busy(s.runs[i].row) :: s.runs[i].row.cycle in work
      invariant WorkAt(s, n, work, at)
    {
      var r := s.runs[n].row;
      if r.status.None? { return durable, work, false; }
      durable := durable + {r.cycle};
      if Busy(r) { work, at := work + [r.cycle], at + [n]; }
    }
    WorkIsDistinct(s, work, at);
    known := true;
  }

  function MarketsOf(slots: seq<Keyed<SlotRow>>): seq<Market> {
    seq(|slots|, i requires 0 <= i < |slots| => slots[i].row.market)
  }

  method ScanSlots(s: Snapshot) returns (slots: seq<Market>)
    ensures slots == MarketsOf(s.slots)
  {
    slots := [];
    for n := 0 to |s.slots|
      invariant slots == MarketsOf(s.slots[..n])
    {
      slots := slots + [s.slots[n].row.market];
    }
    assert s.slots[..|s.slots|] == s.slots;
  }

  method ScanRefreshes(s: Snapshot) returns (incomplete: bool)
    ensures incomplete <==> exists i :: 0 <= i < |s.refreshes| && !s.refreshes[i].row
  {
    incomplete := false;
    for n := 0 to |s.refreshes|
      invariant incomplete <==> exists i :: 0 <= i < n && !s.refreshes[i].row
    {
      if !s.refreshes[n].row { incomplete := true; }
    }
  }

  method FindRun(s: Snapshot, c: CycleId) returns (row: Option<RunRow>)
    ensures row.None? <==> !Named(s.runs, c)
    ensures row.Some? ==> exists i :: 0 <= i < |s.runs| && s.runs[i].row == row.value && row.value.cycle == c
  {
    for n := 0 to |s.runs|
      invariant forall i | 0 <= i < n :: s.runs[i].row.cycle != c
    {
      if s.runs[n].row.cycle == c { return Some(s.runs[n].row); }
    }
    return None;
  }

  ghost predicate OnlyWork(s: Snapshot, c: CycleId) {
    BusyWith(s.runs, c) && forall d :: BusyWith(s.runs, d) ==> d == c
  }

  lemma TwoEntriesDiffer(work: seq<CycleId>)
    requires Distinct(work) && |work| > 1
    ensures work[0] in work && work[1] in work && work[0] != work[1]
  {
  }

  lemma OnlyWorkIsOneEntry(s: Snapshot, work: seq<CycleId>, c: CycleId)
    requires Distinct(work) && forall d :: d in work <==> BusyWith(s.runs, d)
    ensures work == [c] <==> OnlyWork(s, c)
  {
    if work == [c] { assert c in work; }
    if OnlyWork(s, c) {
      assert c in work;
      assert work[0] in work;
      if |work| > 1 { TwoEntriesDiffer(work); }
    }
  }

  method RowReasons(row: RunRow, market: Market, now: int) returns (reasons: set<Reason>)
    ensures forall r :: r in reasons <==> Wrong(row, market, now, r)
  {
    reasons := {};
    if row.market != market { reasons := reasons + {MarketMismatch}; }
    if row.status != Some(Running) { reasons := reasons + {TargetNotRunning}; }
    if row.owner.None? { reasons := reasons + {OwnerMissing}; }
    if !Lapsed(row, now) { reasons := reasons + {LeaseLive}; }
  }

  lemma TheTargetRow(s: Snapshot, t: Target, i: nat, r: Reason)
    requires WellKeyed(s) && i < |s.runs| && s.runs[i].row.cycle == t.cycle
    ensures TargetIsWrong(s, t, r) <==> Wrong(s.runs[i].row, t.market, s.now, r)
  {
    forall k | 0 <= k < |s.runs| && s.runs[k].row.cycle == t.cycle ensures k == i { DistinctCycles(s, i, k); }
  }

  /** `recovery_target`: the reasons that speak of the named cycle. */
  method RecoveryReasons(s: Snapshot, t: Target, work: seq<CycleId>, slots: seq<Market>) returns (reasons: set<Reason>)
    requires WellKeyed(s) && Distinct(work) && forall c :: c in work <==> BusyWith(s.runs, c)
    requires slots == MarketsOf(s.slots)
    ensures forall r :: r in reasons <==> !r.BackgroundRefresh? && !r.LegacyWork? && Holds(s, Some(t), r)
  {
    OnlyWorkIsOneEntry(s, work, t.cycle);
    var durable: set<Reason> := if work != [t.cycle] then {DurableWork} else {};
    var found := FindRun(s, t.cycle);
    if found.None? { return durable + {TargetMissing}; }
    var row := found.value;
    ghost var i :| 0 <= i < |s.runs| && s.runs[i].row == row;
    forall r ensures TargetIsWrong(s, t, r) <==> Wrong(row, t.market, s.now, r) { TheTargetRow(s, t, i, r); }
    reasons := RowReasons(row, t.market, s.now);
    reasons := reasons + durable;
    if slots != [t.market] || |s.slots| != 1 || s.slots[0].row != SlotRow(t.market, t.cycle) {
      reasons := reasons + {ActiveSlot};
    }
  }

  /** Without a recovery request: work and slots. */
  method PlainReasons(s: Snapshot, work: seq<CycleId>, slots: seq<Market>) returns (reasons: set<Reason>)
    requires (forall c :: c in work <==> BusyWith(s.runs, c)) && slots == MarketsOf(s.slots)
    ensures forall r :: r in reasons <==> !r.BackgroundRefresh? && !r.LegacyWork? && Holds(s, None, r)
  {
    var durable: set<Reason> := {};
    if work != [] {
      var c := work[0];
      assert c in work && BusyWith(s.runs, c);
      durable := {DurableWork};
    }
    var slotted: set<Reason> := if slots != [] then {ActiveSlot} else {};
    reasons := durable + slotted;
  }

  lemma UnresolvedIsPending(s: Snapshot, latest: map<Job, Winner>, durable: set<CycleId>)
    requires WellKeyed(s) && Latest(latest, Rows(s.events)) && forall c :: c in durable <==> Named(s.runs, c)
    ensures Unresolved(latest, durable) == {} <==> !LegacyPending(s)
  {
    var rows := Rows(s.events);
    if LegacyPending(s) {
      var i :| 0 <= i < |s.events| && PendingEvent(s, i);
      var j := rows[i].payload.job;
      assert j in latest;
      var k :| 0 <= k < |rows| && IsJob(rows[k], j) && AsWinner(rows[k]) == latest[j];
      assert NotBehind(AsWinner(rows[i]), AsWinner(s.events[k].row));
      SameEvent(s, i, k);
      assert j in Unresolved(latest, durable);
    }
    forall j | j in Unresolved(latest, durable) ensures LegacyPending(s) {
      var k :| 0 <= k < |rows| && IsJob(rows[k], j) && AsWinner(rows[k]) == latest[j];
      forall n | 0 <= n < |s.events| && IsJob(s.events[n].row, j)
        ensures NotBehind(AsWinner(s.events[k].row), AsWinner(s.events[n].row))
      {
        assert rows[n] == s.events[n].row;
      }
      assert PendingEvent(s, k);
    }
  }

  lemma SameEvent(s: Snapshot, i: nat, k: nat)
    requires WellKeyed(s) && i < |s.events| && k < |s.events| && s.events[i].row.event == s.events[k].row.event
    ensures i == k
  {
    if i < k { LessIsAsymmetric(s.events[i].key, s.events[k].key); }
    if k < i { LessIsAsymmetric(s.events[k].key, s.events[i].key); }
  }

  ghost predicate Unreadable(s: Snapshot) {
    (exists i | 0 <= i < |s.runs| :: s.runs[i].row.status.None?) || !Clean(Rows(s.events))
  }

  /** The deadline passes before so many rows of a table have been read to the end. */
  ghost predicate CutIn(expired: (nat, nat) -> bool, table: nat, rows: nat, batch: nat)
    requires 1 <= batch
  {
    CutWithin(rows, batch, (n: nat) => expired(table, n))
  }

  /** It passes while the tables are read. */
  ghost predicate CutReading(s: Snapshot, batch: nat, expired: (nat, nat) -> bool)
    requires 1 <= batch
  {
    || CutIn(expired, 0, |s.runs|, batch) || CutIn(expired, 1, |s.slots|, batch)
    || CutIn(expired, 2, |s.refreshes|, batch) || CutIn(expired, 3, |s.events|, batch)
  }

  /** It passes before the verdict. */
  ghost predicate CutOff(s: Snapshot, batch: nat, expired: (nat, nat) -> bool)
    requires 1 <= batch
  {
    CutReading(s, batch, expired) || expired(4, 0)
  }

  /** What one pass over the tables collects. */
  datatype Scan = Scan(work: seq<CycleId>, slots: seq<Market>, incomplete: bool, pending: bool)

  /** The pages of every table are read to the end, and what is scanned is the rows of these pages. */
  method ReadTables(s: Snapshot, batch: nat, expired: (nat, nat) -> bool) returns (scan: Option<Scan>)
    requires WellKeyed(s) && 1 <= batch
    ensures scan.Some? ==> !Unreadable(s) && scan.value.slots == MarketsOf(s.slots)
    ensures scan.Some? ==> Distinct(scan.value.work) && forall c :: c in scan.value.work <==> BusyWith(s.runs, c)
    ensures scan.Some? ==> (scan.value.incomplete <==> exists i :: 0 <= i < |s.refreshes| && !s.refreshes[i].row)
    ensures scan.Some? ==> (scan.value.pending <==> LegacyPending(s))
    ensures scan.None? <==> Unreadable(s) || CutReading(s, batch, expired)
  {
    var runPages, cut0 := Pages(s.runs, batch, (n: nat) => expired(0, n));
    var slotPages, cut1 := Pages(s.slots, batch, (n: nat) => expired(1, n));
    var refreshPages, cut2 := Pages(s.refreshes, batch, (n: nat) => expired(2, n));
    if cut0 || cut1 || cut2 { return None; }
    var seen := s.(runs := Flatten(runPages), slots := Flatten(slotPages), refreshes := Flatten(refreshPages));
    assert seen == s;
    var durable, work, known := ScanRuns(seen);
    if !known { return None; }
    var slots := ScanSlots(seen);
    var incomplete := ScanRefreshes(seen);
    var legacy := LegacyJobs(s.events, durable, batch, (n: nat) => expired(3, n));
    if legacy.None? { return None; }
    UnresolvedIsPending(s, legacy.value.latest, durable);
    return Some(Scan(work, slots, incomplete, legacy.value.unresolved != {}));
  }

  // ---------------------------------------------------------------- the migration history

  predicate Versioned(r: MigrationRow) { r.checksum.Some? }

  /** Every versioned migration succeeded, and none is recorded twice. */
  ghost predicate Orderly(rows: seq<MigrationRow>) {
    && (forall i | 0 <= i < |rows| && Versioned(rows[i]) :: rows[i].success)
    && (forall i, j | 0 <= i < j < |rows| && Versioned(rows[i]) && Versioned(rows[j]) ::
        rows[i].script != rows[j].script)
  }

  /** The history is exactly the expected one, but for schema and baseline rows without a checksum. */
  ghost predicate HistoryIs(rows: seq<MigrationRow>, expected: map<int, int>) {
    && (forall i | 0 <= i < |rows| && !Versioned(rows[i]) :: rows[i].baseline)
    && Orderly(rows)
    && (forall i | 0 <= i < |rows| && Versioned(rows[i]) ::
          rows[i].script in expected && expected[rows[i].script] == rows[i].checksum.value)
    && (forall x | x in expected :: exists i :: 0 <= i < |rows| && Versioned(rows[i]) && rows[i].script == x)
  }

  /** The dictionary of the successful versioned rows, the last of a script winning. */
  function Actual(rows: seq<MigrationRow>): map<int, int> {
    if rows == [] then map[] else
    var r := rows[|rows| - 1];
    if Versioned(r) && r.success then Actual(rows[..|rows| - 1])[r.script := r.checksum.value]
      else Actual(rows[..|rows| - 1])
  }

  function VersionedIn(rows: seq<MigrationRow>): nat {
    if rows == [] then 0 else VersionedIn(rows[..|rows| - 1]) + (if Versioned(rows[|rows| - 1]) then 1 else 0)
  }

  lemma {:induction false} ActualEntries(rows: seq<MigrationRow>)
    ensures forall x | x in Actual(rows) ::
      exists i :: 0 <= i < |rows| && Versioned(rows[i]) && rows[i].success && rows[i].script == x
                  && Actual(rows)[x] == rows[i].checksum.value
    ensures forall i | 0 <= i < |rows| && Versioned(rows[i]) && rows[i].success :: rows[i].script in Actual(rows)
  {
    if rows != [] {
      var init := rows[..|rows| - 1];
      ActualEntries(init);
      forall x | x in Actual(rows) ensures
        exists i :: 0 <= i < |rows| && Versioned(rows[i]) && rows[i].success && rows[i].script == x
                    && Actual(rows)[x] == rows[i].checksum.value
      {
        if x in Actual(init) && Actual(init)[x] == Actual(rows)[x] {
          var i :| 0 <= i < |init| && Versioned(init[i]) && init[i].success && init[i].script == x
                   && Actual(init)[x] == init[i].checksum.value;
          assert rows[i] == init[i];
        } else {
          assert rows[|rows| - 1].script == x;
        }
      }
    }
  }

  /** Comparing the two lengths finds exactly the failed and the repeated migrations. */
  lemma {:induction false} LengthsTellOrder(rows: seq<MigrationRow>)
    ensures |Actual(rows)| <= VersionedIn(rows)
    ensures |Actual(rows)| == VersionedIn(rows) <==> Orderly(rows)
  {
    if rows != [] {
      var init, r := rows[..|rows| - 1], rows[|rows| - 1];
      LengthsTellOrder(init);
      ActualEntries(init);
      assert forall i | 0 <= i < |init| :: rows[i] == init[i];
      if Orderly(init) && Versioned(r) && r.success {
        if r.script in Actual(init) {
          var i :| 0 <= i < |init| && Versioned(init[i]) && init[i].script == r.script;
          assert rows[i].script == rows[|rows| - 1].script;
        } else {
          assert Orderly(rows);
        }
      }
    }
  }

  lemma HistoryByDictionary(rows: seq<MigrationRow>, expected: map<int, int>)
    requires forall i | 0 <= i < |rows| && !Versioned(rows[i]) :: rows[i].baseline
    ensures HistoryIs(rows, expected) <==> |Actual(rows)| == VersionedIn(rows) && Actual(rows) == expected
  {
    ActualEntries(rows);
    LengthsTellOrder(rows);
    if Orderly(rows) {
      forall i | 0 <= i < |rows| && Versioned(rows[i]) ensures Actual(rows)[rows[i].script] == rows[i].checksum.value {
        var x := rows[i].script;
        var k :| 0 <= k < |rows| && Versioned(rows[k]) && rows[k].script == x
          && Actual(rows)[x] == rows[k].checksum.value;
        assert k == i;
      }
      if HistoryIs(rows, expected) {
        forall x | x in expected ensures x in Actual(rows) {
          var i :| 0 <= i < |rows| && Versioned(rows[i]) && rows[i].script == x;
          assert rows[i].success;
        }
        forall x | x in Actual(rows) ensures x in expected && expected[x] == Actual(rows)[x] {
          var k :| 0 <= k < |rows| && Versioned(rows[k]) && rows[k].script == x
            && Actual(rows)[x] == rows[k].checksum.value;
        }
        assert Actual(rows) == expected;
      }
    }
  }

  /** The migration check of `observe`. */
  method CheckMigrations(rows: seq<MigrationRow>, expected: map<int, int>) returns (ok: bool)
    ensures ok <==> HistoryIs(rows, expected)
  {
    var actual: map<int, int> := map[];
    var versioned := 0;
    for n := 0 to |rows|
      invariant actual == Actual(rows[..n]) && versioned == VersionedIn(rows[..n])
      invariant forall i | 0 <= i < n && !Versioned(rows[i]) :: rows[i].baseline
    {
      assert rows[..n + 1][..n] == rows[..n];
      var r := rows[n];
      if !Versioned(r) && !r.baseline { return false; }
      if Versioned(r) { versioned := versioned + 1; }
      if Versioned(r) && r.success { actual := actual[r.script := r.checksum.value]; }
    }
    assert rows[..|rows|] == rows;
    HistoryByDictionary(rows, expected);
    ok := |actual| == versioned && actual == expected;
  }

  // ---------------------------------------------------------------- the verdict

  /** What makes an observation impossible, whatever its deadline. */
  ghost predicate Refused(s: Snapshot, recovery: Option<Request>, expected: Option<map<int, int>>) {
    || (recovery.Some? && !(recovery.value.shaped && recovery.value.target.market == NSE))
    || Unreadable(s)
    || (expected.Some? && !HistoryIs(s.migrations, expected.value))
  }

  /** `observe`: a complete observation names exactly the reasons that hold, and none that does not. A request for
      recovery replaces the two reasons that the named cycle itself causes by the checks on that cycle. */
  method Observe(s: Snapshot, batch: nat, expired: (nat, nat) -> bool, recovery: Option<Request>,
                 expected: Option<map<int, int>>) returns (v: Verdict)
    requires WellKeyed(s) && 1 <= batch
    ensures v.Blocked? ==> v.reasons != {} && forall r :: r in v.reasons <==> Holds(s, TargetOf(recovery), r)
    ensures v.QuietSnapshot? ==> recovery.None? && forall r :: !Holds(s, None, r)
    ensures v.RecoverySnapshot? ==> recovery.Some? && forall r :: !Holds(s, TargetOf(recovery), r)
    ensures v.Unknown? <==> Refused(s, recovery, expected) || CutOff(s, batch, expired)
  {
    if recovery.Some? && !(recovery.value.shaped && recovery.value.target.market in RECOVERY_MARKETS) {
      return Unknown;
    }
    var scan := ReadTables(s, batch, expired);
    if scan.None? { return Unknown; }
    if expected.Some? {
      var ok := CheckMigrations(s.migrations, expected.value);
      if !ok { return Unknown; }
    }
    v := Conclude(s, scan.value, TargetOf(recovery), expired);
  }

  /** From the scan to the verdict. */
  method Conclude(s: Snapshot, scan: Scan, recovery: Option<Target>, expired: (nat, nat) -> bool) returns (v: Verdict)
    requires WellKeyed(s) && scan.slots == MarketsOf(s.slots)
    requires Distinct(scan.work) && forall c :: c in scan.work <==> BusyWith(s.runs, c)
    requires scan.incomplete <==> exists i :: 0 <= i < |s.refreshes| && !s.refreshes[i].row
    requires scan.pending <==> LegacyPending(s)
    ensures v.Unknown? <==> expired(4, 0)
    ensures v.Blocked? ==> v.reasons != {} && forall r :: r in v.reasons <==> Holds(s, recovery, r)
    ensures v.QuietSnapshot? ==> recovery.None? && forall r :: !Holds(s, recovery, r)
    ensures v.RecoverySnapshot? ==> recovery.Some? && forall r :: !Holds(s, recovery, r)
  {
    var refresh: set<Reason> := if scan.incomplete then {BackgroundRefresh} else {};
    var legacy: set<Reason> := if scan.pending then {LegacyWork} else {};
    var own: set<Reason>;
    if recovery.None? {
      own := PlainReasons(s, scan.work, scan.slots);
    } else {
      own := RecoveryReasons(s, recovery.value, scan.work, scan.slots);
    }
    if expired(4, 0) { return Unknown; }
    var active := refresh + legacy + own;
    forall r ensures r in active <==> Holds(s, recovery, r) {
      match r
      case BackgroundRefresh =>
      case LegacyWork =>
      case _ =>
    }
    if active != {} { return Blocked(active); }
    return if recovery.None? then QuietSnapshot else RecoverySnapshot;
  }

  // ---------------------------------------------------------------- what the verdicts promise

  /** The run has ended and nobody is recorded on it. */
  predicate Ended(row: RunRow) {
    row.status in {Some(Completed), Some(Failed), Some(Cancelled)} && row.owner == None
  }

  ghost predicate Idle(s: Snapshot) {
    && (forall i | 0 <= i < |s.runs| :: Ended(s.runs[i].row))
    && s.slots == []
    && (forall i | 0 <= i < |s.refreshes| :: s.refreshes[i].row)
    && !LegacyPending(s)
  }

  /** Exactly the one named cycle is at work: RUNNING, slotted, owned, and its lease has lapsed. */
  ghost predicate Recoverable(s: Snapshot, t: Target, i: nat) {
    && i < |s.runs|
    && s.runs[i].row.cycle == t.cycle && s.runs[i].row.market == t.market
    && s.runs[i].row.status == Some(Running) && s.runs[i].row.owner.Some?
    && s.runs[i].row.lease.Some? && s.runs[i].row.lease.value < s.now
    && (forall k | 0 <= k < |s.runs| && k != i :: Ended(s.runs[k].row))
    && |s.slots| == 1 && s.slots[0].row == SlotRow(t.market, t.cycle)
    && (forall k | 0 <= k < |s.refreshes| :: s.refreshes[k].row)
    && !LegacyPending(s)
  }

  lemma QuietMeansIdle(s: Snapshot)
    ensures (forall r :: !Holds(s, None, r)) <==> Idle(s)
  {
    if forall r :: !Holds(s, None, r) {
      assert !Holds(s, None, DurableWork) && !Holds(s, None, ActiveSlot);
      assert !Holds(s, None, BackgroundRefresh) && !Holds(s, None, LegacyWork);
      forall i | 0 <= i < |s.runs| ensures Ended(s.runs[i].row) {
        assert !BusyWith(s.runs, s.runs[i].row.cycle);
      }
    }
  }

  lemma NoReasonMeansRecoverable(s: Snapshot, t: Target) returns (i: nat)
    requires WellKeyed(s) && forall r :: !Holds(s, Some(t), r)
    ensures Recoverable(s, t, i)
  {
    assert !Holds(s, Some(t), DurableWork) && !Holds(s, Some(t), ActiveSlot) && !Holds(s, Some(t), TargetMissing);
    assert !Holds(s, Some(t), BackgroundRefresh) && !Holds(s, Some(t), LegacyWork);
    i :| 0 <= i < |s.runs| && s.runs[i].row.cycle == t.cycle;
    forall r: Reason | r.MarketMismatch? || r.TargetNotRunning? || r.OwnerMissing? || r.LeaseLive?
      ensures !Wrong(s.runs[i].row, t.market, s.now, r)
    {
      TheTargetRow(s, t, i, r);
      assert !Holds(s, Some(t), r);
    }
    assert !Wrong(s.runs[i].row, t.market, s.now, MarketMismatch)
      && !Wrong(s.runs[i].row, t.market, s.now, TargetNotRunning);
    assert !Wrong(s.runs[i].row, t.market, s.now, OwnerMissing) && !Wrong(s.runs[i].row, t.market, s.now, LeaseLive);
    forall k | 0 <= k < |s.runs| && k != i ensures Ended(s.runs[k].row) {
      if Busy(s.runs[k].row) {
        assert BusyWith(s.runs, s.runs[k].row.cycle);
        DistinctCycles(s, i, k);
      }
    }
  }

  lemma RecoveryMeansRecoverable(s: Snapshot, t: Target)
    requires WellKeyed(s)
    ensures (forall r :: !Holds(s, Some(t), r)) <==> exists i: nat :: Recoverable(s, t, i)
  {
    if forall r :: !Holds(s, Some(t), r) {
      var i := NoReasonMeansRecoverable(s, t);
    }
    if i: nat :| Recoverable(s, t, i) {
      assert Busy(s.runs[i].row);
      forall r ensures !Holds(s, Some(t), r) { TheTargetRow(s, t, i, r); }
    }
  }

  /** Without a request the reasons are a run that has not ended or is still owned, a slot, a refresh that has not
      completed, and a job that only legacy events know and whose last one has not ended. */
  lemma PlainReasonsMean(s: Snapshot)
    ensures Holds(s, None, DurableWork) <==> exists i :: 0 <= i < |s.runs| && !Ended(s.runs[i].row)
    ensures Holds(s, None, ActiveSlot) <==> |s.slots| > 0
    ensures Holds(s, None, BackgroundRefresh) <==> exists i :: 0 <= i < |s.refreshes| && !s.refreshes[i].row
    ensures Holds(s, None, LegacyWork) <==> LegacyPending(s)
    ensures forall r | Holds(s, None, r) :: r in {DurableWork, ActiveSlot, BackgroundRefresh, LegacyWork}
  {
    if Holds(s, None, DurableWork) {
      var c :| BusyWith(s.runs, c);
      var i :| 0 <= i < |s.runs| && Busy(s.runs[i].row) && s.runs[i].row.cycle == c;
      assert !Ended(s.runs[i].row);
    }
    if i :| 0 <= i < |s.runs| && !Ended(s.runs[i].row) { assert BusyWith(s.runs, s.runs[i].row.cycle); }
  }

  /** With a request, the checks of the named cycle's row i and its slot. */
  lemma RecoveryReasonsMean(s: Snapshot, t: Target, i: nat)
    requires WellKeyed(s) && i < |s.runs| && s.runs[i].row.cycle == t.cycle
    ensures var row := s.runs[i].row;
      && !Holds(s, Some(t), TargetMissing)
      && (Holds(s, Some(t), MarketMismatch) <==> row.market != t.market)
      && (Holds(s, Some(t), TargetNotRunning) <==> row.status != Some(Running))
      && (Holds(s, Some(t), OwnerMissing) <==> row.owner == None)
      && (Holds(s, Some(t), LeaseLive) <==> row.lease.None? || row.lease.value >= s.now)
      && (Holds(s, Some(t), ActiveSlot) <==>
            |s.slots| != 1 || s.slots[0].row.market != t.market || s.slots[0].row.cycle != t.cycle)
  {
    TheTargetRow(s, t, i, MarketMismatch);
    TheTargetRow(s, t, i, TargetNotRunning);
    TheTargetRow(s, t, i, OwnerMissing);
    TheTargetRow(s, t, i, LeaseLive);
  }

  /** The work of others, or that the named cycle is none. */
  lemma RecoveryWorkMeans(s: Snapshot, t: Target, i: nat)
    requires WellKeyed(s) && i < |s.runs| && s.runs[i].row.cycle == t.cycle
    ensures Holds(s, Some(t), DurableWork) <==>
      Ended(s.runs[i].row) || exists k :: 0 <= k < |s.runs| && k != i && !Ended(s.runs[k].row)
  {
    OwnWork(s, t, i);
    if c :| BusyWith(s.runs, c) && c != t.cycle {
      var k :| 0 <= k < |s.runs| && Busy(s.runs[k].row) && s.runs[k].row.cycle == c;
      assert k != i && !Ended(s.runs[k].row);
    }
    if k :| 0 <= k < |s.runs| && k != i && !Ended(s.runs[k].row) {
      assert BusyWith(s.runs, s.runs[k].row.cycle);
      if s.runs[k].row.cycle == t.cycle { DistinctCycles(s, i, k); }
    }
  }

  lemma OwnWork(s: Snapshot, t: Target, i: nat)
    requires WellKeyed(s) && i < |s.runs| && s.runs[i].row.cycle == t.cycle
    ensures BusyWith(s.runs, t.cycle) <==> !Ended(s.runs[i].row)
  {
    if k :| 0 <= k < |s.runs| && Busy(s.runs[k].row) && s.runs[k].row.cycle == t.cycle { DistinctCycles(s, i, k); }
  }

  /** A request for a cycle without a row: that is the reason, and so is that it is not at work; its slot is none. */
  lemma MissingTarget(s: Snapshot, t: Target)
    requires forall i | 0 <= i < |s.runs| :: s.runs[i].row.cycle != t.cycle
    ensures forall r :: Holds(s, Some(t), r) <==>
      || r == TargetMissing || r == DurableWork
      || (r == BackgroundRefresh && exists i :: 0 <= i < |s.refreshes| && !s.refreshes[i].row)
      || (r == LegacyWork && LegacyPending(s))
  {
  }

  /** The snapshot is one of these tables, taken at this database time. */
  ghost predicate Shows(s: Snapshot, w: World) {
    && s.now == w.clock
    && (forall c :: c in w.db.runs <==> Named(s.runs, c))
    && (forall i | 0 <= i < |s.runs| :: RowShows(s.runs[i].row, w.db))
    && (forall m | m in w.db.slots :: exists i :: 0 <= i < |s.slots| && s.slots[i].row == SlotRow(m, w.db.slots[m]))
    && (forall i | 0 <= i < |s.slots| ::
          s.slots[i].row.market in w.db.slots && w.db.slots[s.slots[i].row.market] == s.slots[i].row.cycle)
  }

  ghost predicate RowShows(r: RunRow, db: Db) {
    && r.cycle in db.runs
    && r.market == db.runs[r.cycle].market && r.status == Some(db.runs[r.cycle].status)
    && r.owner == db.runs[r.cycle].owner && r.lease == db.runs[r.cycle].lease
  }

  /** In a reachable state a slot never blocks on its own: the run it names is durable work too. */
  lemma SlotsComeWithWork(s: Snapshot, w: World)
    requires Inv(w.db) && Shows(s, w) && s.slots != []
    ensures Holds(s, None, DurableWork)
  {
    var c := s.slots[0].row.cycle;
    var i :| 0 <= i < |s.runs| && s.runs[i].row.cycle == c;
    assert RowShows(s.runs[i].row, w.db);
    assert BusyWith(s.runs, c);
  }

  /** Writes that need a run to be at work: every statement on a run, every progress row, every fenced save. */
  predicate NeedsARun(op: Op) {
    op.OnRun? || op.Record? || (op.SaveRadar? && op.fence.Some?) || (op.SaveAcquisition? && op.fence.Some?)
  }

  /** A run that is not busy accepts nothing. */
  lemma IdleRunAcceptsNothing(db: Db, c: CycleId, step: RunOp, clock: int)
    requires Inv(db) && c in db.runs && !db.runs[c].status.Active()
    ensures Transition(db.runs[c], step, clock).None? && db.runs[c].owner.None?
  {
    assert RunOk(db.runs[c]);
    if Transition(db.runs[c], step, clock).Some? { TransitionOk(db.runs[c], step, clock); }
  }

  lemma ShownIdle(s: Snapshot, w: World, c: CycleId)
    requires Shows(s, w) && Idle(s) && c in w.db.runs
    ensures !w.db.runs[c].status.Active()
  {
    var i :| 0 <= i < |s.runs| && s.runs[i].row.cycle == c;
    assert RowShows(s.runs[i].row, w.db) && Ended(s.runs[i].row);
  }

  function CycleOf(op: Op): CycleId requires NeedsARun(op) {
    match op
    case OnRun(c, _) => c
    case Record(_, k, _, _, _, _, _) => k.cycle
    case SaveRadar(_, _, f, _) => f.value.cycle
    case SaveAcquisition(_, _, f, _) => f.value.cycle
  }

  /** A quiet snapshot: no statement on any run, no progress row and no fenced save can be accepted any more, so nothing
      is under way, and every market is free for a new cycle. */
  lemma QuietStopsEveryRun(s: Snapshot, w: World, op: Op, created: CycleId, m: Market, p: Opaque)
    requires Inv(w.db) && Shows(s, w) && Idle(s)
    ensures NeedsARun(op) ==> !Commits(w, Perform(op))
    ensures created !in w.db.runs ==> Commits(w, Perform(Insert(created, m, p)))
  {
    if NeedsARun(op) && CycleOf(op) in w.db.runs {
      ShownIdle(s, w, CycleOf(op));
      if op.OnRun? { IdleRunAcceptsNothing(w.db, op.cycle, op.step, w.clock); }
      else { IdleRunAcceptsNothing(w.db, CycleOf(op), RequestCancel(0), w.clock); }
    }
  }

  /** A recovery snapshot: the lapsed owner can write nothing until it claims again, no other cycle can be claimed or
      changed, and any worker that now claims the named cycle gets it, one epoch later if it is a new owner. */
  lemma RecoverableRunCanBeTakenOver(s: Snapshot, t: Target, i: nat, w: World, o: Owner, seconds: nat)
    requires Inv(w.db) && Shows(s, w) && Recoverable(s, t, i)
    ensures t.cycle in w.db.runs
    ensures forall x, later | w.clock <= later :: !w.db.runs[t.cycle].Fenced(x, later)
    ensures forall c, step | c != t.cycle :: !Commits(w, Perform(OnRun(c, step)))
    ensures var claim := Perform(OnRun(t.cycle, Claim(o, w.clock, seconds)));
      && Commits(w, claim)
      && var r := Step(w, claim).db.runs[t.cycle];
         r.owner == Some(o) && r.status.Running?
         && r.resumeCount == w.db.runs[t.cycle].resumeCount + (if w.db.runs[t.cycle].owner == Some(o) then 0 else 1)
  {
    assert RowShows(s.runs[i].row, w.db);
    forall c, step | c != t.cycle ensures !Commits(w, Perform(OnRun(c, step))) {
      if c in w.db.runs {
        var k :| 0 <= k < |s.runs| && s.runs[k].row.cycle == c;
        assert RowShows(s.runs[k].row, w.db) && Ended(s.runs[k].row);
        if Transition(w.db.runs[c], step, w.clock).Some? { TransitionOk(w.db.runs[c], step, w.clock); }
      }
    }
  }
}
