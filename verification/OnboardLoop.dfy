/** The ETF_ONBOARD loop of the full ETF driver, on whatever handle it is given. */
module OnboardLoop {
  import opened Common
  import opened CycleTables
  import opened CycleProtocol
  import opened CheckpointSessions
  import opened CheckpointHandle
  import opened DriverLoops

  datatype HistoryStatus = SuccessWithData | SufficientExistingHistory | SuccessEmpty | TechnicalFailure

  function HistoryState(s: HistoryStatus): CandidateState {
    match s
    case SuccessWithData => AnalysisCompleted
    case SufficientExistingHistory => AnalysisCompleted
    case SuccessEmpty => EvidenceUnavailable
    case TechnicalFailure => RetryableFailure
  }

  /** The status string recorded as the disposition. */
  function Disposition(s: HistoryStatus): Opaque {
    match s
    case SuccessWithData => 0
    case SufficientExistingHistory => 1
    case SuccessEmpty => 2
    case TechnicalFailure => 3
  }

  /** The row of an attempt that has been brought to its end. */
  predicate Settled(db: Db, k: Key) {
    k in db.progress && (db.progress[k].state.Final() || db.progress[k].state.RetryableFailure?)
  }

  /** checkpoint.run() and the check on it. */
  predicate RunsFor(db: Db, c: CycleId, o: Owner) {
    c in db.runs && db.runs[c].status.Running? && db.runs[c].owner == Some(o)
  }

  function Conclusion(o: Owner, k: Key, status: HistoryStatus, payload: Opaque): Op {
    Record(o, k, HistoryState(status), Some(Disposition(status)), None, Some(payload), false)
  }

  /** The transactions of one item: start and finish, each refused unless the lease is live. */
  function Onboarded(db: Db, o: Owner, k: Key, status: HistoryStatus, payload: Opaque, clock: int, later: int)
    : (Db, bool)
  {
    if !RunsFor(db, k.cycle, o) then (db, false) else
    var started := Apply(db, BeginAction(o, k).op, clock);
    if !started.1 then started else Apply(started.0, Conclusion(o, k, status, payload), later)
  }

  /** The row of a history acquisition that ended so. */
  predicate Acquired(rows: Rows, k: Key, status: HistoryStatus, payload: Opaque) {
    && k in rows && rows[k].payload == Some(payload) && rows[k].failureReason == None
    && rows[k].disposition == Some(Disposition(status))
    && (status == SuccessWithData || status == SufficientExistingHistory ==> rows[k].state == AnalysisCompleted)
    && (status == SuccessEmpty ==> rows[k].state == EvidenceUnavailable)
    && (status == TechnicalFailure ==> rows[k].state == RetryableFailure)
  }

  /** A technical failure is taken up again until its attempts reach the budget; any other end of an acquisition never
      is. */
  lemma AcquiredIsRestorable(rows: Rows, k: Key, status: HistoryStatus, payload: Opaque, maxAttempts: int)
    requires Acquired(rows, k, status, payload)
    ensures Restorable(rows, k, maxAttempts).Some? <==> status != TechnicalFailure || rows[k].attempts >= maxAttempts
  {
  }

  /** The row holds what was acquired, and whether it is taken up again follows from how that ended. */
  ghost predicate AcquiredFor(rows: Rows, k: Key, status: HistoryStatus, payload: Opaque) {
    && Acquired(rows, k, status, payload)
    && forall budget ::
      Restorable(rows, k, budget).Some? <==> status != TechnicalFailure || rows[k].attempts >= budget
  }

  lemma OnboardedMeans(db: Db, rows: Rows, o: Owner, k: Key, status: HistoryStatus, payload: Opaque, clock: int,
                       later: int)
    ensures var (after, ok) := Onboarded(db, o, k, status, payload, clock, later);
      && (ok ==>
            && AcquiredFor(after.progress, k, status, payload)
            && AcquiredFor(OnboardedRows(db, rows, o, k, status, payload, clock, later), k, status, payload))
      && (!ok ==> !HoldsAt(db, k.cycle, o, clock) || !HoldsAt(db, k.cycle, o, later))
  {
  }

  lemma DispositionsTellStatuses(s: HistoryStatus, t: HistoryStatus)
    ensures Disposition(s) == Disposition(t) <==> s == t
  {
  }

  lemma OnboardedRow(db: Db, o: Owner, k: Key, status: HistoryStatus, payload: Opaque, clock: int, later: int,
                     other: Key)
    requires Onboarded(db, o, k, status, payload, clock, later).1
    ensures var after := Onboarded(db, o, k, status, payload, clock, later).0;
      && Settled(after, k) && (Settled(db, other) ==> Settled(after, other))
      && Acquired(after.progress, k, status, payload) && Attempts(after, k) == Attempts(db, k) + 1
  {
  }

  /** What one item leaves: nothing moves but its own row, in the tables and in the handle, which stays truthful; if it
      was concluded its row is settled with one attempt more. */
  ghost predicate OnboardedAt(db: Db, rows: Rows, db': Db, rows': Rows, k: Key, ok: bool, maxAttempts: int) {
    && db' == db.(progress := db'.progress)
    && (forall other | other != k :: Same(db.progress, db'.progress, other) && Same(rows, rows', other))
    && Attempts(db, k) <= Attempts(db', k)
    && (TruthfulAt(db, rows, k, maxAttempts) ==> TruthfulAt(db', rows', k, maxAttempts))
    && (!Misses(db, rows, k, maxAttempts) ==> PreservedAt(db.progress, db'.progress, k, maxAttempts))
    && (ok ==> Settled(db', k) && Grew(db, db', k))
  }

  /** The handle after these transactions. */
  function OnboardedRows(db: Db, rows: Rows, o: Owner, k: Key, status: HistoryStatus, payload: Opaque, clock: int,
                         later: int): Rows
  {
    if !RunsFor(db, k.cycle, o) then rows else
    var started := Apply(db, BeginAction(o, k).op, clock);
    if !started.1 then rows
    else if !Apply(started.0, Conclusion(o, k, status, payload), later).1 then Begun(rows, k)
    else Finished(Begun(rows, k), k, HistoryState(status), Some(Disposition(status)), None, Some(payload))
  }

  lemma OnboardingIsThat(db: Db, rows: Rows, o: Owner, k: Key, status: HistoryStatus, payload: Opaque, clock: int,
                         later: int, maxAttempts: int)
    requires Restorable(rows, k, maxAttempts).None?
    ensures var (db', ok) := Onboarded(db, o, k, status, payload, clock, later);
      OnboardedAt(db, rows, db', OnboardedRows(db, rows, o, k, status, payload, clock, later), k, ok, maxAttempts)
  {
  }

  /** One item of the ETF_ONBOARD loop, on any handle that does not call its row restorable: ownership check, start,
      acquisition, finish. */
  method OnboardItem(cp: CycleCheckpoint, isin: Opaque, status: HistoryStatus, payload: Opaque, clock: int, later: int)
    returns (ok: bool)
    requires EtfOnboard in cp.executed && cp.RestorableRow(EtfOnboard, isin).None?
    modifies cp`progress, cp`executed, cp.store
    ensures EtfOnboard in cp.executed
    ensures (cp.store.State(), ok) ==
      Onboarded(old(cp.store.State()), cp.owner, cp.KeyOf(EtfOnboard, isin), status, payload, clock, later)
    ensures cp.executed[EtfOnboard] == old(cp.executed)[EtfOnboard] +
      (if RunsFor(old(cp.store.State()), cp.cycle, cp.owner) then 1 else 0)
    ensures old(cp.InStep()) ==> cp.InStep()
    ensures cp.progress ==
      OnboardedRows(old(cp.store.State()), old(cp.progress), cp.owner, cp.KeyOf(EtfOnboard, isin), status, payload,
                    clock, later)
    ensures ok ==>
      AcquiredFor(cp.store.progress, cp.KeyOf(EtfOnboard, isin), status, payload)
      && AcquiredFor(cp.progress, cp.KeyOf(EtfOnboard, isin), status, payload)
    ensures !ok ==> !HoldsAt(old(cp.store.State()), cp.cycle, cp.owner, clock)
                    || !HoldsAt(old(cp.store.State()), cp.cycle, cp.owner, later)
  {
    OnboardedMeans(cp.store.State(), cp.progress, cp.owner, cp.KeyOf(EtfOnboard, isin), status, payload, clock, later);
    if cp.cycle !in cp.store.runs || !cp.store.runs[cp.cycle].status.Running?
      || cp.store.runs[cp.cycle].owner != Some(cp.owner) {
      return false;
    }
    ok := cp.Start(EtfOnboard, isin, clock);
    if !ok { return; }
    ok := cp.Finish(EtfOnboard, isin, HistoryState(status), Some(Disposition(status)), None, Some(payload), later);
  }

  predicate Unique(universe: seq<Item>) {
    forall i, j | 0 <= i < j < |universe| && universe[i].canonical && universe[j].canonical ::
      universe[i].isin != universe[j].isin
  }

  /** The handle calls the row of every canonical item restorable that the tables do. */
  ghost predicate KnowsCanonical(db: Db, rows: Rows, c: CycleId, universe: seq<Item>, maxAttempts: int) {
    forall i | 0 <= i < |universe| && universe[i].canonical ::
      !Misses(db, rows, Key(c, EtfOnboard, universe[i].isin), maxAttempts)
  }

  ghost predicate Canonical(universe: seq<Item>, c: CycleId, k: Key) {
    && k.cycle == c && k.phase.EtfOnboard?
    && exists i :: 0 <= i < |universe| && universe[i].canonical && universe[i].isin == k.instrument
  }

  /** Any row, between the beginning of the pass and now; `neat` when no canonical item is repeated or the handle was in
      step. */
  ghost predicate OnboardKey(db0: Db, rows0: Rows, db: Db, rows: Rows, c: CycleId, universe: seq<Item>, neat: bool,
                             k: Key, maxAttempts: int)
  {
    && Attempts(db0, k) <= Attempts(db, k)
    && (TruthfulAt(db0, rows0, k, maxAttempts) ==> TruthfulAt(db, rows, k, maxAttempts))
    && (!Canonical(universe, c, k) ==> Same(db0.progress, db.progress, k))
    && (neat && !Misses(db0, rows0, k, maxAttempts) ==> PreservedAt(db0.progress, db.progress, k, maxAttempts))
  }

  /** An item not yet come to. */
  ghost predicate Ahead(db0: Db, rows0: Rows, db: Db, rows: Rows, c: CycleId, universe: seq<Item>, j: nat)
    requires j < |universe|
  {
    var k := Key(c, EtfOnboard, universe[j].isin);
    universe[j].canonical && Unique(universe) ==> Same(db0.progress, db.progress, k) && Same(rows0, rows, k)
  }

  /** An item dealt with: settled, as far as the handle knows at least, and onboarded again if the handle missed its
      row. */
  ghost predicate Behind(db0: Db, rows0: Rows, db: Db, rows: Rows, c: CycleId, universe: seq<Item>, j: nat,
                         maxAttempts: int)
    requires j < |universe|
  {
    var k := Key(c, EtfOnboard, universe[j].isin);
    universe[j].canonical ==>
      && (Settled(db, k) || Restorable(rows, k, maxAttempts).Some?)
      && (Unique(universe) && Misses(db0, rows0, k, maxAttempts) ==> Grew(db0, db, k))
  }

  ghost predicate Onboarding(db0: Db, rows0: Rows, db: Db, rows: Rows, c: CycleId, universe: seq<Item>, neat: bool,
                             n: nat, maxAttempts: int)
  {
    && n <= |universe| && db == db0.(progress := db.progress)
    && (forall k :: OnboardKey(db0, rows0, db, rows, c, universe, neat, k, maxAttempts))
    && (forall j: nat | n <= j < |universe| :: Ahead(db0, rows0, db, rows, c, universe, j))
    && (forall j: nat | j < n :: Behind(db0, rows0, db, rows, c, universe, j, maxAttempts))
  }

  /** The row of the item at hand. */
  lemma OwnKey(db0: Db, rows0: Rows, db: Db, rows: Rows, db': Db, rows': Rows, c: CycleId, universe: seq<Item>,
               neat: bool, n: nat, ok: bool, maxAttempts: int)
    requires n < |universe| && universe[n].canonical && Ahead(db0, rows0, db, rows, c, universe, n)
    requires var k := Key(c, EtfOnboard, universe[n].isin);
      && OnboardKey(db0, rows0, db, rows, c, universe, neat, k, maxAttempts)
      && OnboardedAt(db, rows, db', rows', k, ok, maxAttempts) && Restorable(rows, k, maxAttempts).None?
      && (neat ==> Unique(universe) || !Misses(db, rows, k, maxAttempts))
    ensures OnboardKey(db0, rows0, db', rows', c, universe, neat, Key(c, EtfOnboard, universe[n].isin), maxAttempts)
    ensures ok ==> Behind(db0, rows0, db', rows', c, universe, n, maxAttempts)
  {
  }

  /** Every other row. */
  lemma OtherKey(db0: Db, rows0: Rows, db: Db, rows: Rows, db': Db, rows': Rows, c: CycleId, universe: seq<Item>,
                 neat: bool, at: Key, ok: bool, k: Key, maxAttempts: int)
    requires k != at && OnboardedAt(db, rows, db', rows', at, ok, maxAttempts)
    requires OnboardKey(db0, rows0, db, rows, c, universe, neat, k, maxAttempts)
    ensures OnboardKey(db0, rows0, db', rows', c, universe, neat, k, maxAttempts)
    ensures Same(db.progress, db'.progress, k) && Same(rows, rows', k)
  {
    assert Same(db.progress, db'.progress, k) && Same(rows, rows', k);
  }

  /** Item n is taken up. */
  lemma OnboardingGoesOn(db0: Db, rows0: Rows, db: Db, rows: Rows, db': Db, rows': Rows, c: CycleId,
                         universe: seq<Item>, neat: bool, n: nat, ok: bool, maxAttempts: int)
    requires n < |universe| && universe[n].canonical
    requires Onboarding(db0, rows0, db, rows, c, universe, neat, n, maxAttempts)
    requires var k := Key(c, EtfOnboard, universe[n].isin);
      && OnboardedAt(db, rows, db', rows', k, ok, maxAttempts) && Restorable(rows, k, maxAttempts).None?
      && (neat ==> Unique(universe) || !Misses(db, rows, k, maxAttempts))
    ensures db' == db0.(progress := db'.progress)
    ensures forall k :: OnboardKey(db0, rows0, db', rows', c, universe, neat, k, maxAttempts)
    ensures ok ==> Onboarding(db0, rows0, db', rows', c, universe, neat, n + 1, maxAttempts)
  {
    var at := Key(c, EtfOnboard, universe[n].isin);
    OwnKey(db0, rows0, db, rows, db', rows', c, universe, neat, n, ok, maxAttempts);
    forall k ensures OnboardKey(db0, rows0, db', rows', c, universe, neat, k, maxAttempts) {
      if k != at { OtherKey(db0, rows0, db, rows, db', rows', c, universe, neat, at, ok, k, maxAttempts); }
    }
    if ok {
      forall j: nat | n + 1 <= j < |universe| ensures Ahead(db0, rows0, db', rows', c, universe, j) {
        AheadStays(db0, rows0, db, rows, db', rows', c, universe, at, ok, n, j, maxAttempts);
      }
      forall j: nat | j < n + 1 ensures Behind(db0, rows0, db', rows', c, universe, j, maxAttempts) {
        if j < n { BehindStays(db0, rows0, db, rows, db', rows', c, universe, at, j, maxAttempts); }
      }
    }
  }

  lemma AheadStays(db0: Db, rows0: Rows, db: Db, rows: Rows, db': Db, rows': Rows, c: CycleId, universe: seq<Item>,
                   at: Key, ok: bool, n: nat, j: nat, maxAttempts: int)
    requires n < j < |universe| && universe[n].canonical && at == Key(c, EtfOnboard, universe[n].isin)
    requires OnboardedAt(db, rows, db', rows', at, ok, maxAttempts) && Ahead(db0, rows0, db, rows, c, universe, j)
    ensures Ahead(db0, rows0, db', rows', c, universe, j)
  {
    var k := Key(c, EtfOnboard, universe[j].isin);
    if k != at { assert Same(db.progress, db'.progress, k) && Same(rows, rows', k); }
  }

  lemma BehindStays(db0: Db, rows0: Rows, db: Db, rows: Rows, db': Db, rows': Rows, c: CycleId, universe: seq<Item>,
                    at: Key, j: nat, maxAttempts: int)
    requires j < |universe| && OnboardedAt(db, rows, db', rows', at, true, maxAttempts)
    requires Behind(db0, rows0, db, rows, c, universe, j, maxAttempts)
    ensures Behind(db0, rows0, db', rows', c, universe, j, maxAttempts)
  {
    var k := Key(c, EtfOnboard, universe[j].isin);
    if k != at { assert Same(db.progress, db'.progress, k) && Same(rows, rows', k); }
  }

  /** Item n is passed over: it is not canonical, or the handle calls its row restorable. */
  lemma OnboardingPassesOver(db0: Db, rows0: Rows, db: Db, rows: Rows, c: CycleId, universe: seq<Item>, neat: bool,
                             n: nat, maxAttempts: int)
    requires n < |universe| && Onboarding(db0, rows0, db, rows, c, universe, neat, n, maxAttempts)
    requires universe[n].canonical ==> Restorable(rows, Key(c, EtfOnboard, universe[n].isin), maxAttempts).Some?
    ensures Onboarding(db0, rows0, db, rows, c, universe, neat, n + 1, maxAttempts)
  {
    assert Ahead(db0, rows0, db, rows, c, universe, n);
    assert Behind(db0, rows0, db, rows, c, universe, n, maxAttempts);
  }

  lemma OnboardingMeans(db0: Db, rows0: Rows, db: Db, rows: Rows, c: CycleId, universe: seq<Item>, neat: bool,
                        maxAttempts: int)
    requires db == db0.(progress := db.progress)
    requires forall k :: OnboardKey(db0, rows0, db, rows, c, universe, neat, k, maxAttempts)
    ensures neat && KnowsCanonical(db0, rows0, c, universe, maxAttempts) ==> Preserves(db0, db, maxAttempts)
    ensures Truthful(db0, rows0, c, maxAttempts) ==> Truthful(db, rows, c, maxAttempts)
  {
    if neat && KnowsCanonical(db0, rows0, c, universe, maxAttempts) {
      forall k ensures PreservedAt(db0.progress, db.progress, k, maxAttempts) {
        assert OnboardKey(db0, rows0, db, rows, c, universe, neat, k, maxAttempts);
        if Canonical(universe, c, k) {
          var i :| 0 <= i < |universe| && universe[i].canonical && universe[i].isin == k.instrument;
          assert !Misses(db0, rows0, Key(c, EtfOnboard, universe[i].isin), maxAttempts);
        }
      }
    }
    if Truthful(db0, rows0, c, maxAttempts) {
      forall k: Key | k.cycle == c ensures TruthfulAt(db, rows, k, maxAttempts) {
        assert OnboardKey(db0, rows0, db, rows, c, universe, neat, k, maxAttempts)
          && TruthfulAt(db0, rows0, k, maxAttempts);
      }
    }
  }

  /** What a pass means that has come to its end. */
  lemma OnboardingDone(db0: Db, rows0: Rows, db: Db, rows: Rows, c: CycleId, universe: seq<Item>, neat: bool,
                       maxAttempts: int)
    requires Onboarding(db0, rows0, db, rows, c, universe, neat, |universe|, maxAttempts)
    ensures Unique(universe) && Preserves(db0, db, maxAttempts) ==> KnowsCanonical(db0, rows0, c, universe, maxAttempts)
    ensures Truthful(db0, rows0, c, maxAttempts) ==> AllSettled(db, c, universe)
  {
    OnboardingMeans(db0, rows0, db, rows, c, universe, neat, maxAttempts);
    forall i: nat | i < |universe| && universe[i].canonical
      ensures Truthful(db0, rows0, c, maxAttempts) ==> Settled(db, Key(c, EtfOnboard, universe[i].isin))
      ensures Unique(universe) && Preserves(db0, db, maxAttempts) ==>
        !Misses(db0, rows0, Key(c, EtfOnboard, universe[i].isin), maxAttempts)
    {
      var k := Key(c, EtfOnboard, universe[i].isin);
      assert Behind(db0, rows0, db, rows, c, universe, i, maxAttempts);
      if Truthful(db0, rows0, c, maxAttempts) { assert TruthfulAt(db, rows, k, maxAttempts); }
      if Preserves(db0, db, maxAttempts) { assert PreservedAt(db0.progress, db.progress, k, maxAttempts); }
    }
  }

  ghost predicate AllSettled(db: Db, c: CycleId, universe: seq<Item>) {
    forall i | 0 <= i < |universe| && universe[i].canonical :: Settled(db, Key(c, EtfOnboard, universe[i].isin))
  }

  // ---------------------------------------------------------------- what the loop acquires

  /** What the ETF_ONBOARD loop has to do: item i yields `acquire(i)`. */
  datatype Task = Task(cycle: CycleId, universe: seq<Item>, acquire: nat -> (HistoryStatus, Opaque), maxAttempts: int)
  {
    function KeyOf(isin: Opaque): Key { Key(cycle, EtfOnboard, isin) }

    predicate Is(i: nat, isin: Opaque) { i < |universe| && universe[i].canonical && universe[i].isin == isin }
  }

  /** The row holds what item i acquired. */
  predicate AcquiredBy(task: Task, db: Db, rows: Rows, isin: Opaque, i: nat) {
    && Acquired(db.progress, task.KeyOf(isin), task.acquire(i).0, task.acquire(i).1)
    && Acquired(rows, task.KeyOf(isin), task.acquire(i).0, task.acquire(i).1)
  }

  /** After n items a row is as it was, because the handle called it restorable or no canonical item has come to it;
      or the handle did not and it holds what one of them acquired, with one attempt more if there is but one. */
  ghost predicate TakenUpAt(task: Task, db0: Db, rows0: Rows, db: Db, rows: Rows, n: nat, isin: Opaque) {
    var k := task.KeyOf(isin);
    || (&& Same(db0.progress, db.progress, k) && Same(rows0, rows, k)
        && (Restorable(rows0, k, task.maxAttempts).Some? || forall i: nat | i < n :: !task.Is(i, isin)))
    || (&& Restorable(rows0, k, task.maxAttempts).None?
        && (exists i: nat :: i < n && task.Is(i, isin) && AcquiredBy(task, db, rows, isin, i))
        && (Unique(task.universe) ==> Attempts(db, k) == Attempts(db0, k) + 1))
  }

  ghost predicate TakenUp(task: Task, db0: Db, rows0: Rows, db: Db, rows: Rows, n: nat) {
    n <= |task.universe| && forall isin :: TakenUpAt(task, db0, rows0, db, rows, n, isin)
  }

  /** As far as item n, whose own row may have been started and no more. */
  ghost predicate TakenUpShortOf(task: Task, db0: Db, rows0: Rows, db: Db, rows: Rows, n: nat) {
    && n < |task.universe|
    && forall isin | isin != task.universe[n].isin :: TakenUpAt(task, db0, rows0, db, rows, n, isin)
  }

  lemma TakingUp(task: Task, db0: Db, rows0: Rows, db: Db, rows: Rows, db': Db, rows': Rows, n: nat, ok: bool)
    requires TakenUp(task, db0, rows0, db, rows, n) && n < |task.universe| && task.universe[n].canonical
    requires var k := task.KeyOf(task.universe[n].isin);
      && Restorable(rows, k, task.maxAttempts).None? && OnboardedAt(db, rows, db', rows', k, ok, task.maxAttempts)
      && (ok ==> AcquiredBy(task, db', rows', task.universe[n].isin, n) && Attempts(db', k) == Attempts(db, k) + 1)
    ensures if ok then TakenUp(task, db0, rows0, db', rows', n + 1)
            else TakenUpShortOf(task, db0, rows0, db', rows', n)
  {
    var own := task.universe[n].isin;
    var m := if ok then n + 1 else n;
    forall isin | isin != own ensures TakenUpAt(task, db0, rows0, db', rows', m, isin) {
      assert TakenUpAt(task, db0, rows0, db, rows, n, isin);
      assert Same(db.progress, db'.progress, task.KeyOf(isin)) && Same(rows, rows', task.KeyOf(isin));
      if i: nat :| i < n && task.Is(i, isin) && AcquiredBy(task, db, rows, isin, i) {
        assert AcquiredBy(task, db', rows', isin, i);
      }
    }
    assert TakenUpAt(task, db0, rows0, db, rows, n, own);
    if ok { assert task.Is(n, own) && TakenUpAt(task, db0, rows0, db', rows', m, own); }
  }

  lemma PassingOver(task: Task, db0: Db, rows0: Rows, db: Db, rows: Rows, n: nat)
    requires TakenUp(task, db0, rows0, db, rows, n) && n < |task.universe|
    requires task.universe[n].canonical ==>
      Restorable(rows, task.KeyOf(task.universe[n].isin), task.maxAttempts).Some?
    ensures TakenUp(task, db0, rows0, db, rows, n + 1)
  {
    var m := n + 1;
    forall isin ensures TakenUpAt(task, db0, rows0, db, rows, m, isin) {
      assert TakenUpAt(task, db0, rows0, db, rows, n, isin);
      if i: nat :| i < n && task.Is(i, isin) && AcquiredBy(task, db, rows, isin, i) {
        assert i < m && task.Is(i, isin) && AcquiredBy(task, db, rows, isin, i);
      }
    }
  }

  /** The ETF_ONBOARD loop, on any handle. It is completed when the owner holds the RUNNING cycle throughout, and then
      every canonical item whose row the handle did not call restorable holds what was acquired for it, and all of them
      are settled if the handle was truthful. It has rewritten no restorable row if and only if the handle knew those of
      the canonical items, none of which is repeated; and a pass that finds nothing to do changes nothing, so it can be
      resumed any number of times. */
  method OnboardPass(cp: CycleCheckpoint, universe: seq<Item>, acquire: nat -> (HistoryStatus, Opaque), at: nat -> int)
    returns (lost: bool, ghost done: nat)
    requires EtfOnboard in cp.executed
    modifies cp`progress, cp`executed, cp.store
    ensures lost ==> LostAtSomeClock(old(cp.store.State()), cp.cycle, cp.owner, at)
    ensures var task := Task(cp.cycle, universe, acquire, cp.maxAttempts);
      if lost then TakenUpShortOf(task, old(cp.store.State()), old(cp.progress), cp.store.State(), cp.progress, done)
      else TakenUp(task, old(cp.store.State()), old(cp.progress), cp.store.State(), cp.progress, |universe|)
    ensures old(cp.InStep()) ==> cp.InStep() && Preserves(old(cp.store.State()), cp.store.State(), cp.maxAttempts)
    ensures Unique(universe)
            && old(KnowsCanonical(cp.store.State(), cp.progress, cp.cycle, universe, cp.maxAttempts))
            ==> Preserves(old(cp.store.State()), cp.store.State(), cp.maxAttempts)
    ensures !lost && Unique(universe) ==>
      (Preserves(old(cp.store.State()), cp.store.State(), cp.maxAttempts) <==>
       old(KnowsCanonical(cp.store.State(), cp.progress, cp.cycle, universe, cp.maxAttempts)))
    ensures !lost && old(Truthful(cp.store.State(), cp.progress, cp.cycle, cp.maxAttempts)) ==>
      AllSettled(cp.store.State(), cp.cycle, universe)
    ensures (forall i | 0 <= i < |universe| && universe[i].canonical ::
               old(cp.RestorableRow(EtfOnboard, universe[i].isin)).Some?)
            ==> !lost && cp.store.State() == old(cp.store.State())
  {
    ghost var db, rows, inStep := cp.store.State(), cp.progress, cp.InStep();
    ghost var neat := Unique(universe) || inStep;
    ghost var nothingToDo := forall i | 0 <= i < |universe| && universe[i].canonical ::
      cp.RestorableRow(EtfOnboard, universe[i].isin).Some?;
    ghost var task := Task(cp.cycle, universe, acquire, cp.maxAttempts);
    WhatHandlesMiss(db, rows, cp.cycle, cp.maxAttempts);
    for i := 0 to |universe|
      invariant EtfOnboard in cp.executed && (inStep ==> cp.InStep())
      invariant OnboardState(task, db, rows, cp.store.State(), cp.progress, neat, i)
      invariant nothingToDo ==> cp.store.State() == db && cp.progress == rows
    {
      if universe[i].canonical && cp.RestorableRow(EtfOnboard, universe[i].isin).None? {
        var (status, payload) := acquire(i);
        var ok := TakeUp(cp, universe, i, status, payload, at(2 * i), at(2 * i + 1), task, db, rows, neat);
        if !ok {
          assert !HoldsAt(db, cp.cycle, cp.owner, at(2 * i)) || !HoldsAt(db, cp.cycle, cp.owner, at(2 * i + 1));
          return true, i;
        }
      } else {
        OnboardingPassesOver(db, rows, cp.store.State(), cp.progress, cp.cycle, universe, neat, i, cp.maxAttempts);
        PassingOver(task, db, rows, cp.store.State(), cp.progress, i);
      }
    }
    OnboardingMeans(db, rows, cp.store.State(), cp.progress, cp.cycle, universe, neat, cp.maxAttempts);
    OnboardingDone(db, rows, cp.store.State(), cp.progress, cp.cycle, universe, neat, cp.maxAttempts);
    return false, |universe|;
  }

  ghost predicate OnboardState(task: Task, db0: Db, rows0: Rows, db: Db, rows: Rows, neat: bool, n: nat) {
    && Onboarding(db0, rows0, db, rows, task.cycle, task.universe, neat, n, task.maxAttempts)
    && TakenUp(task, db0, rows0, db, rows, n)
  }

  /** Item i, whose row the handle does not call restorable. */
  method TakeUp(cp: CycleCheckpoint, universe: seq<Item>, i: nat, status: HistoryStatus, payload: Opaque, clock: int,
                later: int, ghost task: Task, ghost db0: Db, ghost rows0: Rows, ghost neat: bool) returns (ok: bool)
    requires EtfOnboard in cp.executed && i < |universe| && universe[i].canonical
    requires cp.RestorableRow(EtfOnboard, universe[i].isin).None?
    requires task.cycle == cp.cycle && task.universe == universe && task.maxAttempts == cp.maxAttempts
    requires task.acquire(i) == (status, payload) && (neat ==> Unique(universe) || cp.InStep())
    requires OnboardState(task, db0, rows0, cp.store.State(), cp.progress, neat, i)
    modifies cp`progress, cp`executed, cp.store
    ensures EtfOnboard in cp.executed && (old(cp.InStep()) ==> cp.InStep())
    ensures ok ==> OnboardState(task, db0, rows0, cp.store.State(), cp.progress, neat, i + 1)
    ensures !ok ==>
      && TakenUpShortOf(task, db0, rows0, cp.store.State(), cp.progress, i)
      && (!HoldsAt(db0, cp.cycle, cp.owner, clock) || !HoldsAt(db0, cp.cycle, cp.owner, later))
    ensures neat && KnowsCanonical(db0, rows0, cp.cycle, universe, cp.maxAttempts) ==>
      Preserves(db0, cp.store.State(), cp.maxAttempts)
  {
    ghost var mid, midRows := cp.store.State(), cp.progress;
    ghost var k := cp.KeyOf(EtfOnboard, universe[i].isin);
    WhatHandlesMiss(mid, midRows, cp.cycle, cp.maxAttempts);
    ok := OnboardItem(cp, universe[i].isin, status, payload, clock, later);
    OnboardingIsThat(mid, midRows, cp.owner, k, status, payload, clock, later, cp.maxAttempts);
    OnboardingGoesOn(db0, rows0, mid, midRows, cp.store.State(), cp.progress, cp.cycle, universe, neat, i, ok,
                     cp.maxAttempts);
    OnboardingMeans(db0, rows0, cp.store.State(), cp.progress, cp.cycle, universe, neat, cp.maxAttempts);
    if ok { OnboardedRow(mid, cp.owner, k, status, payload, clock, later, k); }
    TakingUp(task, db0, rows0, mid, midRows, cp.store.State(), cp.progress, i, ok);
  }
}
