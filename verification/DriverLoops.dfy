/** The BASELINE loop of the full ETF driver, on whatever handle it is given: its worker hands it one that was never
    loaded, its callers elsewhere one that was. */
module DriverLoops {
  import opened Common
  import opened CycleTables
  import opened CycleProtocol
  import opened CheckpointSessions
  import opened CheckpointHandle

  datatype Item = Item(isin: Opaque, canonical: bool)

  datatype PassResult = AllReported(outcomes: seq<Option<Opaque>>) | OwnershipLost | Aborted

  /** Every row that was restorable before is still there, unchanged, and nothing but progress rows moved. */
  ghost predicate Preserves(before: Db, after: Db, maxAttempts: int) {
    after == before.(progress := after.progress) && KeepsRestorable(before.progress, after.progress, maxAttempts)
  }

  ghost predicate KeepsRestorable(before: Rows, after: Rows, maxAttempts: int) {
    forall k :: PreservedAt(before, after, k, maxAttempts)
  }

  predicate PreservedAt(before: Rows, after: Rows, k: Key, maxAttempts: int) {
    Restorable(before, k, maxAttempts).Some? ==> k in after && after[k] == before[k]
  }

  // ---------------------------------------------------------------- what a handle may not know

  /** The tables call the row restorable and the handle does not. */
  predicate Misses(db: Db, rows: Rows, k: Key, maxAttempts: int) {
    Restorable(db.progress, k, maxAttempts).Some? && Restorable(rows, k, maxAttempts).None?
  }

  /** What the handle calls restorable is so in the tables, with that outcome; it never counts more attempts. */
  predicate TruthfulAt(db: Db, rows: Rows, k: Key, maxAttempts: int) {
    && AttemptsIn(rows, k) <= Attempts(db, k)
    && (Restorable(rows, k, maxAttempts).Some? ==>
          Restorable(db.progress, k, maxAttempts).Some? && db.progress[k].payload == rows[k].payload)
  }

  ghost predicate Truthful(db: Db, rows: Rows, c: CycleId, maxAttempts: int) {
    forall k: Key | k.cycle == c :: TruthfulAt(db, rows, k, maxAttempts)
  }

  /** A handle in step is truthful and misses nothing; one that was never loaded is truthful, and misses exactly what is
      restorable. */
  lemma WhatHandlesMiss(db: Db, rows: Rows, c: CycleId, maxAttempts: int)
    ensures Agrees(rows, db, c) ==>
      Truthful(db, rows, c, maxAttempts) && forall k: Key | k.cycle == c :: !Misses(db, rows, k, maxAttempts)
    ensures rows == map[] ==>
      && Truthful(db, rows, c, maxAttempts)
      && forall k :: Misses(db, rows, k, maxAttempts) <==> Restorable(db.progress, k, maxAttempts).Some?
  {
  }

  predicate Same(before: Rows, after: Rows, k: Key) {
    (k in before <==> k in after) && (k in before ==> before[k] == after[k])
  }

  predicate Grew(before: Db, after: Db, k: Key) { Attempts(before, k) < Attempts(after, k) }

  // ---------------------------------------------------------------- losing the cycle

  /** The owner holds the RUNNING cycle at this clock. */
  predicate HoldsAt(db: Db, c: CycleId, o: Owner, clock: int) {
    c in db.runs && db.runs[c].status == Running && db.runs[c].Fenced(o, clock)
  }

  /** At one clock of the pass at least the owner did not hold the RUNNING cycle. */
  ghost predicate LostAtSomeClock(db: Db, c: CycleId, o: Owner, at: nat -> int) {
    exists i: nat :: !HoldsAt(db, c, o, at(i))
  }

  // ---------------------------------------------------------------- starting a batch

  function Occurrences(items: seq<Item>, isin: Opaque): nat {
    if items == [] then 0
    else Occurrences(items[..|items| - 1], isin) + (if items[|items| - 1].isin == isin then 1 else 0)
  }

  lemma OneMoreOccurrence(items: seq<Item>, i: nat, isin: Opaque)
    requires i < |items|
    ensures Occurrences(items[..i + 1], isin) ==
      Occurrences(items[..i], isin) + (if items[i].isin == isin then 1 else 0)
  {
    assert items[..i + 1][..i] == items[..i];
  }

  lemma {:induction false} OccursIn(items: seq<Item>, isin: Opaque)
    ensures Occurrences(items, isin) > 0 <==> exists i :: 0 <= i < |items| && items[i].isin == isin
  {
    if items != [] {
      var n := |items| - 1;
      OccursIn(items[..n], isin);
      if i :| 0 <= i < |items| && items[i].isin == isin { assert i < n ==> items[..n][i] == items[i]; }
    }
  }

  function Times(items: seq<Item>, c: CycleId, k: Key): nat {
    if k.cycle == c && k.phase.Baseline? then Occurrences(items, k.instrument) else 0
  }

  /** What so many starts of a row leave: in the tables and in the handle it is open, with so many attempts more. */
  ghost predicate StartedAt(db: Db, rows: Rows, db': Db, rows': Rows, k: Key, times: nat) {
    && Attempts(db', k) == Attempts(db, k) + times && AttemptsIn(rows', k) == AttemptsIn(rows, k) + times
    && (times == 0 ==> Same(db.progress, db'.progress, k) && Same(rows, rows', k))
    && (times > 0 ==>
          && k in db'.progress && db'.progress[k].state.InProgress?
          && k in rows' && rows'[k].state.InProgress?)
  }

  ghost predicate StartedAll(db: Db, rows: Rows, db': Db, rows': Rows, c: CycleId, items: seq<Item>) {
    db' == db.(progress := db'.progress) && forall k :: StartedAt(db, rows, db', rows', k, Times(items, c, k))
  }

  lemma OneStartMore(db: Db, rows: Rows, mid: Db, midRows: Rows, o: Owner, k: Key, clock: int, other: Key, times: nat)
    requires StartedAt(db, rows, mid, midRows, other, times) && Apply(mid, BeginAction(o, k).op, clock).1
    ensures StartedAt(db, rows, Apply(mid, BeginAction(o, k).op, clock).0, Begun(midRows, k), other,
                      times + (if k == other then 1 else 0))
  {
  }

  lemma OneItemMore(db: Db, rows: Rows, mid: Db, midRows: Rows, o: Owner, c: CycleId, items: seq<Item>, i: nat,
                    clock: int)
    requires i < |items| && StartedAll(db, rows, mid, midRows, c, items[..i])
    requires Apply(mid, BeginAction(o, Key(c, Baseline, items[i].isin)).op, clock).1
    ensures var k := Key(c, Baseline, items[i].isin);
      StartedAll(db, rows, Apply(mid, BeginAction(o, k).op, clock).0, Begun(midRows, k), c, items[..i + 1])
  {
    var k := Key(c, Baseline, items[i].isin);
    var db', rows' := Apply(mid, BeginAction(o, k).op, clock).0, Begun(midRows, k);
    var upto := items[..i + 1];
    forall other ensures StartedAt(db, rows, db', rows', other, Times(upto, c, other)) {
      OneMoreOccurrence(items, i, other.instrument);
      OneStartMore(db, rows, mid, midRows, o, k, clock, other, Times(items[..i], c, other));
    }
  }

  /** Starts the items one after the other, until a start is refused: the first n were started. */
  method StartAll(cp: CycleCheckpoint, pending: seq<Item>, at: nat -> int, t: nat)
    returns (ok: bool, t': nat, ghost n: nat)
    requires Baseline in cp.executed
    modifies cp`progress, cp`executed, cp.store
    ensures Baseline in cp.executed && (old(cp.InStep()) ==> cp.InStep())
    ensures n <= |pending| && (ok ==> n == |pending|)
    ensures !ok ==> LostAtSomeClock(old(cp.store.State()), cp.cycle, cp.owner, at)
    ensures StartedAll(old(cp.store.State()), old(cp.progress), cp.store.State(), cp.progress, cp.cycle, pending[..n])
  {
    ok, t', n := true, t, 0;
    ghost var db, rows := cp.store.State(), cp.progress;
    for i := 0 to |pending|
      invariant Baseline in cp.executed && (old(cp.InStep()) ==> cp.InStep())
      invariant ok && n == i && StartedAll(db, rows, cp.store.State(), cp.progress, cp.cycle, pending[..i])
    {
      ghost var mid, midRows := cp.store.State(), cp.progress;
      ok := cp.Start(Baseline, pending[i].isin, at(t'));
      t' := t' + 1;
      if !ok {
        assert !HoldsAt(mid, cp.cycle, cp.owner, at(t' - 1));
        return;
      }
      OneItemMore(db, rows, mid, midRows, cp.owner, cp.cycle, pending, i, at(t' - 1));
      n := i + 1;
    }
  }

  /** The items of the batch whose rows the handle does not call restorable. */
  method OpenItems(cp: CycleCheckpoint, batch: seq<Item>) returns (pending: seq<Item>)
    ensures forall x | x in pending :: x in batch && cp.RestorableRow(Baseline, x.isin).None?
    ensures forall isin :: Occurrences(pending, isin) == OpenOccurrences(cp, batch, isin)
  {
    pending := [];
    for i := 0 to |batch|
      invariant forall x | x in pending :: x in batch && cp.RestorableRow(Baseline, x.isin).None?
      invariant forall isin :: Occurrences(pending, isin) == OpenOccurrences(cp, batch[..i], isin)
    {
      forall isin ensures
        Occurrences(batch[..i + 1], isin) == Occurrences(batch[..i], isin) + (if batch[i].isin == isin then 1 else 0)
      {
        OneMoreOccurrence(batch, i, isin);
      }
      if cp.RestorableRow(Baseline, batch[i].isin).None? {
        assert (pending + [batch[i]])[..|pending|] == pending;
        pending := pending + [batch[i]];
      }
    }
    assert batch[..|batch|] == batch;
  }

  function OpenOccurrences(cp: CycleCheckpoint, batch: seq<Item>, isin: Opaque): nat
    reads cp
  {
    if cp.RestorableRow(Baseline, isin).None? then Occurrences(batch, isin) else 0
  }

  /** Starts every item of the batch that the handle does not call restorable when the batch begins; `taken` are those
      that were started, all of them on success. */
  method StartPending(cp: CycleCheckpoint, batch: seq<Item>, at: nat -> int, t: nat)
    returns (ok: bool, t': nat, ghost taken: seq<Item>)
    requires Baseline in cp.executed
    modifies cp`progress, cp`executed, cp.store
    ensures Baseline in cp.executed && (old(cp.InStep()) ==> cp.InStep())
    ensures TakenFrom(taken, batch, old(cp.progress), cp.cycle, cp.maxAttempts)
    ensures ok ==> forall isin :: Occurrences(taken, isin) == old(OpenOccurrences(cp, batch, isin))
    ensures StartedAll(old(cp.store.State()), old(cp.progress), cp.store.State(), cp.progress, cp.cycle, taken)
    ensures !ok ==> LostAtSomeClock(old(cp.store.State()), cp.cycle, cp.owner, at)
  {
    var pending := OpenItems(cp, batch);
    ghost var n;
    ok, t', n := StartAll(cp, pending, at, t);
    taken := pending[..n];
    assert ok ==> taken == pending;
    assert forall i | 0 <= i < |taken| :: taken[i] == pending[i];
  }

  // ---------------------------------------------------------------- finishing an item

  function Outcome(o: Owner, k: Key, disposition: Opaque, record: Opaque): Op {
    Record(o, k, TerminalOutcome, Some(disposition), None, Some(record), false)
  }

  /** The row of a finished item: a terminal outcome with its disposition, no failure reason and its record. */
  predicate Wrote(rows: Rows, k: Key, disposition: Opaque, record: Opaque) {
    && k in rows && rows[k].state == TerminalOutcome && rows[k].disposition == Some(disposition)
    && rows[k].failureReason == None && rows[k].payload == Some(record)
  }

  /** Item i of the universe has a restorable durable row, and it carries the reported outcome. */
  ghost predicate Reported(db: Db, c: CycleId, universe: seq<Item>, outcomes: seq<Option<Opaque>>, maxAttempts: int)
    requires |outcomes| <= |universe|
  {
    forall i | 0 <= i < |outcomes| ::
      var k := Key(c, Baseline, universe[i].isin);
      Restorable(db.progress, k, maxAttempts).Some? && outcomes[i] == db.progress[k].payload
  }

  lemma OutcomeKeeps(db: Db, rows: Rows, o: Owner, k: Key, disposition: Opaque, record: Opaque, clock: int,
                     maxAttempts: int)
    requires Restorable(rows, k, maxAttempts).None? && !Misses(db, rows, k, maxAttempts)
    ensures Preserves(db, Apply(db, Outcome(o, k, disposition, record), clock).0, maxAttempts)
  {
  }

  /** Reports a row the handle calls restorable as it stands and finishes every other item with the record just
      computed. */
  method FinishItem(cp: CycleCheckpoint, item: Item, disposition: Opaque, record: Opaque, clock: int)
    returns (ok: bool, outcome: Option<Opaque>)
    modifies cp`progress, cp.store
    ensures old(cp.RestorableRow(Baseline, item.isin)).Some? ==>
      && ok && outcome == old(cp.RestorableRow(Baseline, item.isin)).value.payload
      && cp.store.State() == old(cp.store.State()) && cp.progress == old(cp.progress)
    ensures old(cp.RestorableRow(Baseline, item.isin)).None? ==>
      && outcome == Some(record)
      && var k := cp.KeyOf(Baseline, item.isin);
         && (cp.store.State(), ok) == Apply(old(cp.store.State()), Outcome(cp.owner, k, disposition, record), clock)
         && cp.progress == (if ok
                            then Finished(old(cp.progress), k, TerminalOutcome, Some(disposition), None, Some(record))
                            else old(cp.progress))
         && (ok ==> Wrote(cp.store.progress, k, disposition, record) && Wrote(cp.progress, k, disposition, record))
    ensures !ok ==> !HoldsAt(old(cp.store.State()), cp.cycle, cp.owner, clock)
    ensures old(cp.InStep()) ==>
      && cp.InStep() && Preserves(old(cp.store.State()), cp.store.State(), cp.maxAttempts)
      && (ok ==> Reported(cp.store.State(), cp.cycle, [item], [outcome], cp.maxAttempts))
  {
    var previous := cp.RestorableRow(Baseline, item.isin);
    if previous.Some? { return true, previous.value.payload; }
    if cp.InStep() {
      OutcomeKeeps(cp.store.State(), cp.progress, cp.owner, cp.KeyOf(Baseline, item.isin), disposition, record, clock,
                   cp.maxAttempts);
    }
    ok := cp.Finish(Baseline, item.isin, TerminalOutcome, Some(disposition), None, Some(record), clock);
    outcome := Some(record);
  }

  // ---------------------------------------------------------------- the course of a BASELINE pass

  /** Any row, between the beginning of the pass and now. */
  ghost predicate KeyCourse(db0: Db, rows0: Rows, db: Db, rows: Rows, k: Key, maxAttempts: int) {
    && Attempts(db0, k) <= Attempts(db, k)
    && (TruthfulAt(db0, rows0, k, maxAttempts) ==> TruthfulAt(db, rows, k, maxAttempts))
    && (!Misses(db0, rows0, k, maxAttempts) ==>
          !Misses(db, rows, k, maxAttempts) && PreservedAt(db0.progress, db.progress, k, maxAttempts))
  }

  ghost predicate Listed(universe: seq<Item>, c: CycleId, p: Phase, k: Key) {
    k.cycle == c && k.phase == p && exists i :: 0 <= i < |universe| && universe[i].isin == k.instrument
  }

  /** The row the handle has come to call restorable has been started since. */
  ghost predicate NewsWasStarted(db0: Db, rows0: Rows, db: Db, rows: Rows, k: Key, maxAttempts: int) {
    Restorable(rows0, k, maxAttempts).None? && Restorable(rows, k, maxAttempts).Some? ==> Grew(db0, db, k)
  }

  /** The first `started` items have been started if the handle did not call them restorable, and of these the first
      |outcomes| reported. */
  ghost predicate Course(db0: Db, rows0: Rows, db: Db, rows: Rows, c: CycleId, universe: seq<Item>, started: nat,
                         outcomes: seq<Option<Opaque>>, maxAttempts: int)
  {
    && db == db0.(progress := db.progress) && |outcomes| <= started <= |universe|
    && (forall k :: KeyCourse(db0, rows0, db, rows, k, maxAttempts))
    && (forall k :: NewsWasStarted(db0, rows0, db, rows, k, maxAttempts))
    && (forall k | !Listed(universe, c, Baseline, k) :: Same(db0.progress, db.progress, k))
    && (forall j | 0 <= j < started :: OnceStarted(db0, rows0, db, Key(c, Baseline, universe[j].isin), maxAttempts))
    && (forall j | 0 <= j < |outcomes| :: Answered(rows, Key(c, Baseline, universe[j].isin), outcomes[j], maxAttempts))
  }

  ghost predicate OnceStarted(db0: Db, rows0: Rows, db: Db, k: Key, maxAttempts: int) {
    Restorable(rows0, k, maxAttempts).None? ==> Grew(db0, db, k)
  }

  ghost predicate Answered(rows: Rows, k: Key, outcome: Option<Opaque>, maxAttempts: int) {
    Restorable(rows, k, maxAttempts).Some? && outcome == rows[k].payload
  }

  /** Starting rows that the handle does not call restorable. */
  lemma KeyAfterStarts(db0: Db, rows0: Rows, db: Db, rows: Rows, db': Db, rows': Rows, k: Key, times: nat,
                       maxAttempts: int)
    requires KeyCourse(db0, rows0, db, rows, k, maxAttempts) && NewsWasStarted(db0, rows0, db, rows, k, maxAttempts)
    requires StartedAt(db, rows, db', rows', k, times) && (times > 0 ==> Restorable(rows, k, maxAttempts).None?)
    ensures KeyCourse(db0, rows0, db', rows', k, maxAttempts) && NewsWasStarted(db0, rows0, db', rows', k, maxAttempts)
  {
  }

  /** The items started are of this batch and open for the handle. */
  ghost predicate TakenFrom(taken: seq<Item>, batch: seq<Item>, rows: Rows, c: CycleId, maxAttempts: int) {
    forall i | 0 <= i < |taken| ::
      taken[i] in batch && Restorable(rows, Key(c, Baseline, taken[i].isin), maxAttempts).None?
  }

  /** All that were open have been started. */
  ghost predicate AllTaken(taken: seq<Item>, batch: seq<Item>, rows: Rows, c: CycleId, maxAttempts: int) {
    forall isin | Restorable(rows, Key(c, Baseline, isin), maxAttempts).None? ::
      Occurrences(taken, isin) == Occurrences(batch, isin)
  }

  lemma TakenIsListed(taken: seq<Item>, rows: Rows, c: CycleId, universe: seq<Item>, offset: nat, end: nat, k: Key,
                      maxAttempts: int)
    requires offset <= end <= |universe| && TakenFrom(taken, universe[offset..end], rows, c, maxAttempts)
    ensures Times(taken, c, k) > 0 ==> Listed(universe, c, Baseline, k) && Restorable(rows, k, maxAttempts).None?
  {
    OccursIn(taken, k.instrument);
    if Times(taken, c, k) > 0 {
      var i :| 0 <= i < |taken| && taken[i].isin == k.instrument;
      assert taken[i] in universe[offset..end] && k == Key(c, Baseline, taken[i].isin);
      var j :| 0 <= j < |universe[offset..end]| && universe[offset..end][j] == taken[i];
      assert universe[offset + j].isin == k.instrument;
    }
  }

  lemma StartedOrBefore(db0: Db, rows0: Rows, db: Db, rows: Rows, db': Db, rows': Rows, c: CycleId, taken: seq<Item>,
                        batch: seq<Item>, i: nat, maxAttempts: int)
    requires i < |batch| && AllTaken(taken, batch, rows, c, maxAttempts)
    requires var k := Key(c, Baseline, batch[i].isin);
      && StartedAt(db, rows, db', rows', k, Times(taken, c, k))
      && KeyCourse(db0, rows0, db, rows, k, maxAttempts) && NewsWasStarted(db0, rows0, db, rows, k, maxAttempts)
    ensures OnceStarted(db0, rows0, db', Key(c, Baseline, batch[i].isin), maxAttempts)
  {
    OccursIn(batch, batch[i].isin);
    assert Times(taken, c, Key(c, Baseline, batch[i].isin)) == Occurrences(taken, batch[i].isin);
  }

  lemma CourseAfterStarts(db0: Db, rows0: Rows, db: Db, rows: Rows, db': Db, rows': Rows, c: CycleId,
                          universe: seq<Item>,
                          offset: nat, end: nat, taken: seq<Item>, ok: bool, outcomes: seq<Option<Opaque>>,
                          maxAttempts: int)
    requires Course(db0, rows0, db, rows, c, universe, offset, outcomes, maxAttempts) && offset <= end <= |universe|
    requires StartedAll(db, rows, db', rows', c, taken) && TakenFrom(taken, universe[offset..end], rows, c, maxAttempts)
    requires ok ==> AllTaken(taken, universe[offset..end], rows, c, maxAttempts)
    ensures Course(db0, rows0, db', rows', c, universe, if ok then end else offset, outcomes, maxAttempts)
  {
    forall k
      ensures KeyCourse(db0, rows0, db', rows', k, maxAttempts)
        && NewsWasStarted(db0, rows0, db', rows', k, maxAttempts)
      ensures !Listed(universe, c, Baseline, k) ==> Same(db0.progress, db'.progress, k)
    {
      assert StartedAt(db, rows, db', rows', k, Times(taken, c, k));
      TakenIsListed(taken, rows, c, universe, offset, end, k, maxAttempts);
      KeyAfterStarts(db0, rows0, db, rows, db', rows', k, Times(taken, c, k), maxAttempts);
    }
    forall j | 0 <= j < (if ok then end else offset)
      ensures OnceStarted(db0, rows0, db', Key(c, Baseline, universe[j].isin), maxAttempts)
    {
      var k := Key(c, Baseline, universe[j].isin);
      assert StartedAt(db, rows, db', rows', k, Times(taken, c, k)) && KeyCourse(db0, rows0, db, rows, k, maxAttempts);
      if j < offset {
        assert OnceStarted(db0, rows0, db, k, maxAttempts);
      } else {
        assert universe[offset..end][j - offset] == universe[j];
        assert NewsWasStarted(db0, rows0, db, rows, k, maxAttempts);
        StartedOrBefore(db0, rows0, db, rows, db', rows', c, taken, universe[offset..end], j - offset, maxAttempts);
      }
    }
    AnswersAfterStarts(db, rows, db', rows', c, universe, taken, outcomes, maxAttempts);
  }

  lemma AnswersAfterStarts(db: Db, rows: Rows, db': Db, rows': Rows, c: CycleId, universe: seq<Item>, taken: seq<Item>,
                           outcomes: seq<Option<Opaque>>, maxAttempts: int)
    requires |outcomes| <= |universe| && StartedAll(db, rows, db', rows', c, taken)
    requires forall i | 0 <= i < |taken| :: Restorable(rows, Key(c, Baseline, taken[i].isin), maxAttempts).None?
    requires forall j | 0 <= j < |outcomes| ::
      Answered(rows, Key(c, Baseline, universe[j].isin), outcomes[j], maxAttempts)
    ensures forall j | 0 <= j < |outcomes| ::
      Answered(rows', Key(c, Baseline, universe[j].isin), outcomes[j], maxAttempts)
  {
    forall j | 0 <= j < |outcomes|
      ensures Answered(rows', Key(c, Baseline, universe[j].isin), outcomes[j], maxAttempts)
    {
      var k := Key(c, Baseline, universe[j].isin);
      assert Answered(rows, k, outcomes[j], maxAttempts) && StartedAt(db, rows, db', rows', k, Times(taken, c, k));
      OccursIn(taken, k.instrument);
    }
  }

  /** Finishing row k, which is final afterwards in the tables and in the handle, with the record as its outcome. */
  ghost predicate FinishedAt(db: Db, rows: Rows, db': Db, rows': Rows, k: Key, record: Opaque) {
    && db' == db.(progress := db'.progress)
    && (forall other | other != k :: Same(db.progress, db'.progress, other) && Same(rows, rows', other))
    && (forall other ::
          Attempts(db', other) == Attempts(db, other) && AttemptsIn(rows', other) == AttemptsIn(rows, other))
    && k in db'.progress && db'.progress[k].state.Final() && db'.progress[k].payload == Some(record)
    && k in rows' && rows'[k].state.Final() && rows'[k].payload == Some(record)
  }

  lemma FinishIsThat(db: Db, rows: Rows, o: Owner, k: Key, disposition: Opaque, record: Opaque, clock: int)
    requires Apply(db, Outcome(o, k, disposition, record), clock).1
    ensures FinishedAt(db, rows, Apply(db, Outcome(o, k, disposition, record), clock).0,
                       Finished(rows, k, TerminalOutcome, Some(disposition), None, Some(record)), k, record)
  {
  }

  lemma KeyAfterFinish(db0: Db, rows0: Rows, db: Db, rows: Rows, db': Db, rows': Rows, k: Key, record: Opaque,
                       other: Key, maxAttempts: int)
    requires KeyCourse(db0, rows0, db, rows, other, maxAttempts)
    requires NewsWasStarted(db0, rows0, db, rows, other, maxAttempts)
    requires FinishedAt(db, rows, db', rows', k, record)
    requires Restorable(rows, k, maxAttempts).None? && OnceStarted(db0, rows0, db, k, maxAttempts)
    ensures KeyCourse(db0, rows0, db', rows', other, maxAttempts)
    ensures NewsWasStarted(db0, rows0, db', rows', other, maxAttempts)
  {
    assert Attempts(db', other) == Attempts(db, other) && AttemptsIn(rows', other) == AttemptsIn(rows, other);
    if other != k { assert Same(db.progress, db'.progress, other) && Same(rows, rows', other); }
  }

  lemma CourseAfterFinish(db0: Db, rows0: Rows, db: Db, rows: Rows, db': Db, rows': Rows, c: CycleId,
                          universe: seq<Item>,
                          started: nat, outcomes: seq<Option<Opaque>>, record: Opaque, maxAttempts: int)
    requires Course(db0, rows0, db, rows, c, universe, started, outcomes, maxAttempts) && |outcomes| < started
    requires var k := Key(c, Baseline, universe[|outcomes|].isin);
      Restorable(rows, k, maxAttempts).None? && FinishedAt(db, rows, db', rows', k, record)
    ensures Course(db0, rows0, db', rows', c, universe, started, outcomes + [Some(record)], maxAttempts)
  {
    var k := Key(c, Baseline, universe[|outcomes|].isin);
    assert OnceStarted(db0, rows0, db, k, maxAttempts) && Listed(universe, c, Baseline, k);
    forall other
      ensures KeyCourse(db0, rows0, db', rows', other, maxAttempts)
      ensures NewsWasStarted(db0, rows0, db', rows', other, maxAttempts)
      ensures !Listed(universe, c, Baseline, other) ==> Same(db0.progress, db'.progress, other)
    {
      KeyAfterFinish(db0, rows0, db, rows, db', rows', k, record, other, maxAttempts);
      if other != k { assert Same(db.progress, db'.progress, other); }
    }
    var more := outcomes + [Some(record)];
    forall j | 0 <= j < |more| ensures Answered(rows', Key(c, Baseline, universe[j].isin), more[j], maxAttempts) {
      var other := Key(c, Baseline, universe[j].isin);
      if j < |outcomes| { assert Answered(rows, other, outcomes[j], maxAttempts); }
      if other != k { assert Same(rows, rows', other); }
    }
    forall j | 0 <= j < started ensures OnceStarted(db0, rows0, db', Key(c, Baseline, universe[j].isin), maxAttempts) {
      var other := Key(c, Baseline, universe[j].isin);
      assert OnceStarted(db0, rows0, db, other, maxAttempts) && Attempts(db', other) == Attempts(db, other);
    }
  }

  /** An item that the handle calls restorable is reported as it stands. */
  lemma CourseAfterReuse(db0: Db, rows0: Rows, db: Db, rows: Rows, c: CycleId, universe: seq<Item>, started: nat,
                         outcomes: seq<Option<Opaque>>, outcome: Option<Opaque>, maxAttempts: int)
    requires Course(db0, rows0, db, rows, c, universe, started, outcomes, maxAttempts) && |outcomes| < started
    requires Answered(rows, Key(c, Baseline, universe[|outcomes|].isin), outcome, maxAttempts)
    ensures Course(db0, rows0, db, rows, c, universe, started, outcomes + [outcome], maxAttempts)
  {
    var more := outcomes + [outcome];
    forall j | 0 <= j < |more| ensures Answered(rows, Key(c, Baseline, universe[j].isin), more[j], maxAttempts) {
      if j < |outcomes| { assert Answered(rows, Key(c, Baseline, universe[j].isin), outcomes[j], maxAttempts); }
    }
  }

  /** What a pass means that has come so far: if the handle misses no row of the universe, no restorable row is
      rewritten; if it is truthful, what was reported stands in the tables; and if all items were reported, a missed row
      has been rewritten. */
  lemma CourseMeans(db0: Db, rows0: Rows, db: Db, rows: Rows, c: CycleId, universe: seq<Item>, started: nat,
                    outcomes: seq<Option<Opaque>>, maxAttempts: int)
    requires Course(db0, rows0, db, rows, c, universe, started, outcomes, maxAttempts)
    ensures KnowsAll(db0, rows0, c, Baseline, universe, maxAttempts) ==> Preserves(db0, db, maxAttempts)
    ensures Truthful(db0, rows0, c, maxAttempts) ==>
      Truthful(db, rows, c, maxAttempts) && Reported(db, c, universe, outcomes, maxAttempts)
    ensures |outcomes| == |universe| ==>
      (Preserves(db0, db, maxAttempts) <==> KnowsAll(db0, rows0, c, Baseline, universe, maxAttempts))
  {
    if KnowsAll(db0, rows0, c, Baseline, universe, maxAttempts) {
      forall k ensures PreservedAt(db0.progress, db.progress, k, maxAttempts) {
        assert KeyCourse(db0, rows0, db, rows, k, maxAttempts);
        if Listed(universe, c, Baseline, k) {
          var i :| 0 <= i < |universe| && universe[i].isin == k.instrument;
          assert !Misses(db0, rows0, Key(c, Baseline, universe[i].isin), maxAttempts);
        } else {
          assert Same(db0.progress, db.progress, k);
        }
      }
    } else if |outcomes| == |universe| {
      var i :| 0 <= i < |universe| && Misses(db0, rows0, Key(c, Baseline, universe[i].isin), maxAttempts);
      assert OnceStarted(db0, rows0, db, Key(c, Baseline, universe[i].isin), maxAttempts);
      assert !PreservedAt(db0.progress, db.progress, Key(c, Baseline, universe[i].isin), maxAttempts);
    }
    if Truthful(db0, rows0, c, maxAttempts) {
      forall k: Key | k.cycle == c ensures TruthfulAt(db, rows, k, maxAttempts) {
        assert KeyCourse(db0, rows0, db, rows, k, maxAttempts) && TruthfulAt(db0, rows0, k, maxAttempts);
      }
      forall i | 0 <= i < |outcomes|
        ensures var k := Key(c, Baseline, universe[i].isin);
          Restorable(db.progress, k, maxAttempts).Some? && outcomes[i] == db.progress[k].payload
      {
        var k := Key(c, Baseline, universe[i].isin);
        assert Answered(rows, k, outcomes[i], maxAttempts) && TruthfulAt(db, rows, k, maxAttempts);
      }
    }
  }

  /** The handle calls every row of the universe restorable that the tables do. */
  ghost predicate KnowsAll(db: Db, rows: Rows, c: CycleId, p: Phase, universe: seq<Item>, maxAttempts: int) {
    forall i | 0 <= i < |universe| :: !Misses(db, rows, Key(c, p, universe[i].isin), maxAttempts)
  }

  // ---------------------------------------------------------------- whose record a row holds

  /** What a BASELINE pass has to do: item i yields `disposition(i)` and `record(i)`. */
  datatype Job = Job(cycle: CycleId, universe: seq<Item>, disposition: nat -> Opaque, record: nat -> Opaque,
                     maxAttempts: int)
  {
    function KeyOf(isin: Opaque): Key { Key(cycle, Baseline, isin) }

    /** The handle's rows call the item's row restorable. */
    predicate Done(rows: Rows, isin: Opaque) { Restorable(rows, KeyOf(isin), maxAttempts).Some? }
  }

  /** The first item with this ISIN; the number of items if there is none. */
  function First(universe: seq<Item>, isin: Opaque): (i: nat)
    ensures i <= |universe| && (i < |universe| ==> universe[i].isin == isin)
    ensures forall j | 0 <= j < i :: universe[j].isin != isin
  {
    if universe == [] || universe[0].isin == isin then 0 else 1 + First(universe[1..], isin)
  }

  /** Of the first n items: a row the handle called restorable is as it was, any other holds the outcome of the first
      item with its ISIN, in the tables and in the handle. Of the others, the handle calls no more restorable. */
  predicate WrittenAt(job: Job, rows0: Rows, db: Db, rows: Rows, n: nat, isin: Opaque) {
    var k := job.KeyOf(isin);
    var i := First(job.universe, isin);
    if job.Done(rows0, isin) then Same(rows0, rows, k)
    else if i < n then
      Wrote(rows, k, job.disposition(i), job.record(i)) && Wrote(db.progress, k, job.disposition(i), job.record(i))
    else !job.Done(rows, isin)
  }

  ghost predicate Written(job: Job, rows0: Rows, db: Db, rows: Rows, n: nat) {
    n <= |job.universe| && forall isin :: WrittenAt(job, rows0, db, rows, n, isin)
  }

  /** How often an item is started whose row is open: once for every item with its ISIN in its batch of five. */
  function StartsDue(universe: seq<Item>, isin: Opaque): nat {
    var lo := First(universe, isin) / 5 * 5;
    Occurrences(universe[lo..Min(lo + 5, |universe|)], isin)
  }

  predicate StartsAt(job: Job, db0: Db, rows0: Rows, db: Db, started: nat, isin: Opaque) {
    Attempts(db, job.KeyOf(isin)) == Attempts(db0, job.KeyOf(isin)) +
      (if !job.Done(rows0, isin) && First(job.universe, isin) < started then StartsDue(job.universe, isin) else 0)
  }

  ghost predicate StartsCounted(job: Job, db0: Db, rows0: Rows, db: Db, started: nat) {
    forall isin :: StartsAt(job, db0, rows0, db, started, isin)
  }

  lemma WrittenAfterStarts(job: Job, rows0: Rows, db: Db, rows: Rows, db': Db, rows': Rows, taken: seq<Item>, n: nat)
    requires Written(job, rows0, db, rows, n) && StartedAll(db, rows, db', rows', job.cycle, taken)
    requires forall i | 0 <= i < |taken| :: !job.Done(rows, taken[i].isin)
    ensures Written(job, rows0, db', rows', n)
  {
    forall isin ensures WrittenAt(job, rows0, db', rows', n, isin) {
      var k := job.KeyOf(isin);
      OccursIn(taken, isin);
      assert StartedAt(db, rows, db', rows', k, Times(taken, job.cycle, k));
      assert WrittenAt(job, rows0, db, rows, n, isin);
    }
  }

  /** One row, when a batch has been started: `times` is how often, and only its own batch has items with its ISIN that
      are open. */
  lemma StartsOfBatch(job: Job, db0: Db, rows0: Rows, db: Db, rows: Rows, db': Db, offset: nat, end: nat,
                      isin: Opaque, times: nat)
    requires offset % 5 == 0 && offset < |job.universe| && end == Min(offset + 5, |job.universe|)
    requires WrittenAt(job, rows0, db, rows, offset, isin) && StartsAt(job, db0, rows0, db, offset, isin)
    requires Attempts(db', job.KeyOf(isin)) == Attempts(db, job.KeyOf(isin)) + times
    requires times == if job.Done(rows, isin) then 0 else Occurrences(job.universe[offset..end], isin)
    ensures StartsAt(job, db0, rows0, db', end, isin)
  {
    var batch, i := job.universe[offset..end], First(job.universe, isin);
    if i >= end {
      OccursIn(batch, isin);
      assert forall j | 0 <= j < |batch| :: batch[j] == job.universe[offset + j];
    } else if offset <= i {
      assert i / 5 * 5 == offset;
    }
  }

  lemma StartsAfterBatch(job: Job, db0: Db, rows0: Rows, db: Db, rows: Rows, db': Db, rows': Rows, taken: seq<Item>,
                         offset: nat, end: nat)
    requires Written(job, rows0, db, rows, offset) && StartsCounted(job, db0, rows0, db, offset)
    requires StartedAll(db, rows, db', rows', job.cycle, taken)
    requires offset % 5 == 0 && offset < |job.universe| && end == Min(offset + 5, |job.universe|)
    requires forall isin ::
      Occurrences(taken, isin) == if job.Done(rows, isin) then 0 else Occurrences(job.universe[offset..end], isin)
    ensures StartsCounted(job, db0, rows0, db', end)
  {
    forall isin ensures StartsAt(job, db0, rows0, db', end, isin) {
      assert StartedAt(db, rows, db', rows', job.KeyOf(isin), Times(taken, job.cycle, job.KeyOf(isin)));
      assert WrittenAt(job, rows0, db, rows, offset, isin) && StartsAt(job, db0, rows0, db, offset, isin);
      StartsOfBatch(job, db0, rows0, db, rows, db', offset, end, isin, Occurrences(taken, isin));
    }
  }

  lemma WrittenAfterFinish(job: Job, rows0: Rows, db: Db, rows: Rows, db': Db, rows': Rows, n: nat)
    requires Written(job, rows0, db, rows, n) && n < |job.universe| && !job.Done(rows, job.universe[n].isin)
    requires var k := job.KeyOf(job.universe[n].isin);
      && FinishedAt(db, rows, db', rows', k, job.record(n))
      && Wrote(rows', k, job.disposition(n), job.record(n)) && Wrote(db'.progress, k, job.disposition(n), job.record(n))
    ensures Written(job, rows0, db', rows', n + 1)
  {
    var m := n + 1;
    forall isin ensures WrittenAt(job, rows0, db', rows', m, isin) {
      assert WrittenAt(job, rows0, db, rows, n, isin);
      if isin != job.universe[n].isin {
        assert Same(db.progress, db'.progress, job.KeyOf(isin)) && Same(rows, rows', job.KeyOf(isin));
      }
    }
  }

  lemma StartsAfterFinish(job: Job, db0: Db, rows0: Rows, db: Db, rows: Rows, db': Db, rows': Rows, started: nat,
                          k: Key, record: Opaque)
    requires StartsCounted(job, db0, rows0, db, started) && FinishedAt(db, rows, db', rows', k, record)
    ensures StartsCounted(job, db0, rows0, db', started)
  {
    forall isin ensures StartsAt(job, db0, rows0, db', started, isin) {
      assert StartsAt(job, db0, rows0, db, started, isin);
      assert Attempts(db', job.KeyOf(isin)) == Attempts(db, job.KeyOf(isin));
    }
  }

  lemma WrittenAfterReuse(job: Job, rows0: Rows, db: Db, rows: Rows, n: nat)
    requires Written(job, rows0, db, rows, n) && n < |job.universe| && job.Done(rows, job.universe[n].isin)
    ensures Written(job, rows0, db, rows, n + 1)
  {
    var m := n + 1;
    forall isin ensures WrittenAt(job, rows0, db, rows, m, isin) {
      assert WrittenAt(job, rows0, db, rows, n, isin);
    }
  }

  /** What is reported for an item: the outcome its row had when the pass began, if the handle knew it, else the record
      of the first item with its ISIN. */
  function Due(job: Job, rows0: Rows, isin: Opaque): Option<Opaque> {
    if job.Done(rows0, isin) then rows0[job.KeyOf(isin)].payload else Some(job.record(First(job.universe, isin)))
  }

  lemma AnswersAreDue(job: Job, rows0: Rows, db: Db, rows: Rows, outcomes: seq<Option<Opaque>>)
    requires |outcomes| <= |job.universe| && Written(job, rows0, db, rows, |outcomes|)
    requires forall j | 0 <= j < |outcomes| ::
      Answered(rows, job.KeyOf(job.universe[j].isin), outcomes[j], job.maxAttempts)
    ensures forall j | 0 <= j < |outcomes| :: outcomes[j] == Due(job, rows0, job.universe[j].isin)
  {
    forall j | 0 <= j < |outcomes| ensures outcomes[j] == Due(job, rows0, job.universe[j].isin) {
      assert Answered(rows, job.KeyOf(job.universe[j].isin), outcomes[j], job.maxAttempts);
      assert WrittenAt(job, rows0, db, rows, |outcomes|, job.universe[j].isin);
    }
  }

  // ---------------------------------------------------------------- the BASELINE pass

  /** No batch beginning before item n found the transport aborted. */
  ghost predicate NoAbortBefore(aborts: nat -> bool, n: nat) { forall b: nat | b < n && b % 5 == 0 :: !aborts(b) }

  /** The first batch after which the transport was aborted begins at this item. */
  ghost predicate FirstAbort(aborts: nat -> bool, universe: seq<Item>, b: nat) {
    b % 5 == 0 && b < |universe| && aborts(b) && NoAbortBefore(aborts, b)
  }

  /** How far a pass has come that ended so: through; to the end of the first batch that found the transport aborted; or
      to an item short of that, after a clock at which the owner did not hold the RUNNING cycle. */
  ghost predicate EndsPass(result: PassResult, done: nat, db0: Db, o: Owner, job: Job, aborts: nat -> bool,
                           at: nat -> int)
  {
    match result
    case AllReported(outcomes) =>
      done == |job.universe| == |outcomes| && NoAbortBefore(aborts, |job.universe|)
    case Aborted => exists b: nat :: FirstAbort(aborts, job.universe, b) && done == Min(b + 5, |job.universe|)
    case OwnershipLost =>
      done < |job.universe| && NoAbortBefore(aborts, done / 5 * 5) && LostAtSomeClock(db0, job.cycle, o, at)
  }

  /** The state of a pass whose items have been started as far as `started` and reported as far as `outcomes` goes. */
  ghost predicate PassState(job: Job, db0: Db, rows0: Rows, db: Db, rows: Rows, started: nat,
                            outcomes: seq<Option<Opaque>>)
  {
    && Course(db0, rows0, db, rows, job.cycle, job.universe, started, outcomes, job.maxAttempts)
    && Written(job, rows0, db, rows, |outcomes|)
  }

  /** The BASELINE loop, five items a batch, on any handle. `disposition` and `record` stand for what acquisition
      yields for an item, `aborts` for the transport's abort flag after each batch; `done` is how many items have been
      reported. The pass reports every item when the owner holds the RUNNING cycle throughout and the transport does not
      abort. Every row reported that the handle did not call restorable holds what acquisition yielded for it. A pass
      that reports every item has rewritten no restorable row if and only if the handle knew every restorable row of
      the universe when the pass began. */
  method BaselinePass(cp: CycleCheckpoint, universe: seq<Item>, disposition: nat -> Opaque, record: nat -> Opaque,
                      aborts: nat -> bool, at: nat -> int) returns (result: PassResult, ghost done: nat)
    requires Baseline in cp.executed
    modifies cp`progress, cp`executed, cp.store
    ensures Baseline in cp.executed && (old(cp.InStep()) ==> cp.InStep())
    ensures cp.store.State() == old(cp.store.State()).(progress := cp.store.progress)
    ensures var job := Job(cp.cycle, universe, disposition, record, cp.maxAttempts);
      && EndsPass(result, done, old(cp.store.State()), cp.owner, job, aborts, at)
      && Written(job, old(cp.progress), cp.store.State(), cp.progress, done)
      && (!result.OwnershipLost? ==>
            StartsCounted(job, old(cp.store.State()), old(cp.progress), cp.store.State(), done))
      && (result.AllReported? ==>
            forall i | 0 <= i < |universe| :: result.outcomes[i] == Due(job, old(cp.progress), universe[i].isin))
    ensures !LostAtSomeClock(old(cp.store.State()), cp.cycle, cp.owner, at) && NoAbortBefore(aborts, |universe|)
            ==> result.AllReported?
    ensures old(KnowsAll(cp.store.State(), cp.progress, cp.cycle, Baseline, universe, cp.maxAttempts)) ==>
      Preserves(old(cp.store.State()), cp.store.State(), cp.maxAttempts)
    ensures result.AllReported? ==>
      (Preserves(old(cp.store.State()), cp.store.State(), cp.maxAttempts) <==>
       old(KnowsAll(cp.store.State(), cp.progress, cp.cycle, Baseline, universe, cp.maxAttempts)))
    ensures result.AllReported? && old(Truthful(cp.store.State(), cp.progress, cp.cycle, cp.maxAttempts)) ==>
      Reported(cp.store.State(), cp.cycle, universe, result.outcomes, cp.maxAttempts)
  {
    ghost var db, rows := cp.store.State(), cp.progress;
    ghost var job := Job(cp.cycle, universe, disposition, record, cp.maxAttempts);
    ghost var started, reported;
    result, reported, started := Batches(cp, universe, disposition, record, aborts, at, job);
    done := |reported|;
    CourseMeans(db, rows, cp.store.State(), cp.progress, cp.cycle, universe, started, reported, cp.maxAttempts);
    AnswersAreDue(job, rows, cp.store.State(), cp.progress, reported);
  }

  lemma LostHere(done: nat, db0: Db, o: Owner, job: Job, aborts: nat -> bool, at: nat -> int, offset: nat)
    requires offset % 5 == 0 && offset <= done < Min(offset + 5, |job.universe|)
    requires NoAbortBefore(aborts, offset) && LostAtSomeClock(db0, job.cycle, o, at)
    ensures EndsPass(OwnershipLost, done, db0, o, job, aborts, at)
  {
    assert done / 5 * 5 == offset;
  }

  lemma AbortsAfter(aborts: nat -> bool, universe: seq<Item>, offset: nat)
    requires offset % 5 == 0 && offset < |universe| && NoAbortBefore(aborts, offset)
    ensures aborts(offset) ==> FirstAbort(aborts, universe, offset)
    ensures !aborts(offset) ==> NoAbortBefore(aborts, offset + 5)
  {
  }

  method Batches(cp: CycleCheckpoint, universe: seq<Item>, disposition: nat -> Opaque, record: nat -> Opaque,
                 aborts: nat -> bool, at: nat -> int, ghost job: Job)
    returns (result: PassResult, ghost reported: seq<Option<Opaque>>, ghost started: nat)
    requires Baseline in cp.executed && job == Job(cp.cycle, universe, disposition, record, cp.maxAttempts)
    modifies cp`progress, cp`executed, cp.store
    ensures Baseline in cp.executed && (old(cp.InStep()) ==> cp.InStep())
    ensures PassState(job, old(cp.store.State()), old(cp.progress), cp.store.State(), cp.progress, started, reported)
    ensures EndsPass(result, |reported|, old(cp.store.State()), cp.owner, job, aborts, at)
    ensures result.AllReported? ==> reported == result.outcomes
    ensures !result.OwnershipLost? ==>
      StartsCounted(job, old(cp.store.State()), old(cp.progress), cp.store.State(), |reported|)
  {
    ghost var db, rows := cp.store.State(), cp.progress;
    var outcomes: seq<Option<Opaque>> := [];
    var t: nat, offset := 0, 0;
    while offset < |universe|
      invariant Baseline in cp.executed && (old(cp.InStep()) ==> cp.InStep())
      invariant offset % 5 == 0 && |outcomes| == Min(offset, |universe|) && NoAbortBefore(aborts, offset)
      invariant PassState(job, db, rows, cp.store.State(), cp.progress, |outcomes|, outcomes)
      invariant StartsCounted(job, db, rows, cp.store.State(), |outcomes|)
    {
      var ok;
      ghost var begun;
      ok, t, outcomes, begun := Batch(cp, universe, offset, outcomes, disposition, record, at, t, db, rows, job);
      if !ok {
        LostHere(|outcomes|, db, cp.owner, job, aborts, at, offset);
        return OwnershipLost, outcomes, begun;
      }
      AbortsAfter(aborts, universe, offset);
      if aborts(offset) {
        return Aborted, outcomes, begun;
      }
      offset := offset + 5;
    }
    return AllReported(outcomes), outcomes, |outcomes|;
  }

  /** One batch: its open items are started, then its items reported in order. */
  method Batch(cp: CycleCheckpoint, universe: seq<Item>, offset: nat, before: seq<Option<Opaque>>,
               disposition: nat -> Opaque, record: nat -> Opaque, at: nat -> int, t: nat, ghost db0: Db,
               ghost rows0: Rows, ghost job: Job)
    returns (ok: bool, t': nat, outcomes: seq<Option<Opaque>>, ghost started: nat)
    requires Baseline in cp.executed && job == Job(cp.cycle, universe, disposition, record, cp.maxAttempts)
    requires offset % 5 == 0 && offset < |universe| && |before| == offset
    requires PassState(job, db0, rows0, cp.store.State(), cp.progress, offset, before)
    requires StartsCounted(job, db0, rows0, cp.store.State(), offset)
    modifies cp`progress, cp`executed, cp.store
    ensures Baseline in cp.executed && (old(cp.InStep()) ==> cp.InStep())
    ensures PassState(job, db0, rows0, cp.store.State(), cp.progress, started, outcomes)
    ensures ok ==>
      |outcomes| == Min(offset + 5, |universe|) && StartsCounted(job, db0, rows0, cp.store.State(), |outcomes|)
    ensures !ok ==>
      offset <= |outcomes| < Min(offset + 5, |universe|) && LostAtSomeClock(db0, cp.cycle, cp.owner, at)
  {
    var end := Min(offset + 5, |universe|);
    ok, t' := StartBatch(cp, universe, offset, end, before, at, t, db0, rows0, job);
    if !ok { return ok, t', before, offset; }
    ok, t', outcomes := ReportBatch(cp, universe, end, before, disposition, record, at, t', db0, rows0, job);
    started := end;
  }

  method StartBatch(cp: CycleCheckpoint, universe: seq<Item>, offset: nat, end: nat,
                    ghost outcomes: seq<Option<Opaque>>,
                    at: nat -> int, t: nat, ghost db0: Db, ghost rows0: Rows, ghost job: Job)
    returns (ok: bool, t': nat)
    requires Baseline in cp.executed && job.cycle == cp.cycle && job.universe == universe
    requires job.maxAttempts == cp.maxAttempts
    requires offset % 5 == 0 && offset < |universe| && end == Min(offset + 5, |universe|) && |outcomes| == offset
    requires PassState(job, db0, rows0, cp.store.State(), cp.progress, offset, outcomes)
    requires StartsCounted(job, db0, rows0, cp.store.State(), offset)
    modifies cp`progress, cp`executed, cp.store
    ensures Baseline in cp.executed && (old(cp.InStep()) ==> cp.InStep())
    ensures PassState(job, db0, rows0, cp.store.State(), cp.progress, if ok then end else offset, outcomes)
    ensures ok ==> StartsCounted(job, db0, rows0, cp.store.State(), end)
    ensures !ok ==> LostAtSomeClock(db0, cp.cycle, cp.owner, at)
  {
    ghost var db, rows := cp.store.State(), cp.progress;
    ghost var taken;
    ok, t', taken := StartPending(cp, universe[offset..end], at, t);
    CourseAfterStarts(db0, rows0, db, rows, cp.store.State(), cp.progress, cp.cycle, universe, offset, end, taken, ok,
                      outcomes, cp.maxAttempts);
    WrittenAfterStarts(job, rows0, db, rows, cp.store.State(), cp.progress, taken, offset);
    if ok {
      StartsAfterBatch(job, db0, rows0, db, rows, cp.store.State(), cp.progress, taken, offset, end);
    } else {
      SameRunsLost(db0, db, cp.cycle, cp.owner, at);
    }
  }

  lemma SameRunsLost(db0: Db, db: Db, c: CycleId, o: Owner, at: nat -> int)
    requires db0.runs == db.runs
    ensures LostAtSomeClock(db, c, o, at) <==> LostAtSomeClock(db0, c, o, at)
  {
    if i: nat :| !HoldsAt(db, c, o, at(i)) { assert !HoldsAt(db0, c, o, at(i)); }
    if i: nat :| !HoldsAt(db0, c, o, at(i)) { assert !HoldsAt(db, c, o, at(i)); }
  }

  /** Reports the items of the batch in order, until a write is refused. */
  method ReportBatch(cp: CycleCheckpoint, universe: seq<Item>, end: nat, before: seq<Option<Opaque>>,
                     disposition: nat -> Opaque, record: nat -> Opaque, at: nat -> int, t: nat, ghost db0: Db,
                     ghost rows0: Rows, ghost job: Job)
    returns (ok: bool, t': nat, outcomes: seq<Option<Opaque>>)
    requires |before| <= end <= |universe| && job == Job(cp.cycle, universe, disposition, record, cp.maxAttempts)
    requires PassState(job, db0, rows0, cp.store.State(), cp.progress, end, before)
    requires StartsCounted(job, db0, rows0, cp.store.State(), end)
    modifies cp`progress, cp.store
    ensures old(cp.InStep()) ==> cp.InStep()
    ensures |before| <= |outcomes| && (if ok then |outcomes| == end else |outcomes| < end)
    ensures PassState(job, db0, rows0, cp.store.State(), cp.progress, end, outcomes)
    ensures StartsCounted(job, db0, rows0, cp.store.State(), end)
    ensures !ok ==> LostAtSomeClock(db0, cp.cycle, cp.owner, at)
  {
    ok, t', outcomes := true, t, before;
    for i := |before| to end
      invariant ok && |outcomes| == i && (old(cp.InStep()) ==> cp.InStep())
      invariant PassState(job, db0, rows0, cp.store.State(), cp.progress, end, outcomes)
      invariant StartsCounted(job, db0, rows0, cp.store.State(), end)
    {
      ghost var mid := cp.store.State();
      var outcome;
      ok, outcome := ReportNext(cp, universe, end, outcomes, disposition(i), record(i), at(t'), db0, rows0, job);
      t' := t' + 1;
      if !ok {
        assert !HoldsAt(mid, cp.cycle, cp.owner, at(t' - 1));
        SameRunsLost(db0, mid, cp.cycle, cp.owner, at);
        return;
      }
      outcomes := outcomes + [outcome];
    }
  }

  method ReportNext(cp: CycleCheckpoint, universe: seq<Item>, ghost started: nat, outcomes: seq<Option<Opaque>>,
                    disposition: Opaque, record: Opaque, clock: int, ghost db0: Db, ghost rows0: Rows, ghost job: Job)
    returns (ok: bool, outcome: Option<Opaque>)
    requires |outcomes| < started <= |universe| && job.cycle == cp.cycle && job.universe == universe
    requires job.maxAttempts == cp.maxAttempts
    requires job.disposition(|outcomes|) == disposition && job.record(|outcomes|) == record
    requires PassState(job, db0, rows0, cp.store.State(), cp.progress, started, outcomes)
    requires StartsCounted(job, db0, rows0, cp.store.State(), started)
    modifies cp`progress, cp.store
    ensures old(cp.InStep()) ==> cp.InStep()
    ensures PassState(job, db0, rows0, cp.store.State(), cp.progress, started,
                      if ok then outcomes + [outcome] else outcomes)
    ensures StartsCounted(job, db0, rows0, cp.store.State(), started)
    ensures !ok ==> !HoldsAt(old(cp.store.State()), cp.cycle, cp.owner, clock)
  {
    ghost var db, rows := cp.store.State(), cp.progress;
    ok, outcome := FinishItem(cp, universe[|outcomes|], disposition, record, clock);
    var k := cp.KeyOf(Baseline, universe[|outcomes|].isin);
    if Restorable(rows, k, cp.maxAttempts).Some? {
      CourseAfterReuse(db0, rows0, db, rows, cp.cycle, universe, started, outcomes, outcome, cp.maxAttempts);
      WrittenAfterReuse(job, rows0, db, rows, |outcomes|);
    } else if ok {
      FinishIsThat(db, rows, cp.owner, k, disposition, record, clock);
      CourseAfterFinish(db0, rows0, db, rows, cp.store.State(), cp.progress, cp.cycle, universe, started, outcomes,
                        record, cp.maxAttempts);
      WrittenAfterFinish(job, rows0, db, rows, cp.store.State(), cp.progress, |outcomes|);
      StartsAfterFinish(job, db0, rows0, db, rows, cp.store.State(), cp.progress, started, k, record);
    }
  }

  /** A BASELINE pass of the ETF worker from its claim on, with the handle it makes and never loads: every item it
      reports is acquired anew. One that reports every item has rewritten no restorable row if and only if the tables
      had none for the universe to begin with. */
  method ClaimAndPass(store: CycleRunStore, c: CycleId, o: Owner, sampled: int, seconds: int, maxAttempts: int,
                      clock: int,
                      universe: seq<Item>, disposition: nat -> Opaque, record: nat -> Opaque, aborts: nat -> bool,
                      at: nat -> int) returns (result: Option<PassResult>, ghost done: nat)
    modifies store
    ensures var (claimed, ok) := Apply(old(store.State()), OnRun(c, Claim(o, sampled, seconds)), clock);
      && (result.None? <==> !ok)
      && (!ok ==> store.State() == old(store.State()))
      && (ok ==>
            && store.State() == claimed.(progress := store.progress)
            && EndsPass(result.value, done, claimed, o, Job(c, universe, disposition, record, maxAttempts), aborts, at)
            && forall i | 0 <= i < done ::
              var f := First(universe, universe[i].isin);
              Wrote(store.progress, Key(c, Baseline, universe[i].isin), disposition(f), record(f)))
    ensures result.Some? && result.value.AllReported? ==>
      && |result.value.outcomes| == |universe|
      && Reported(store.State(), c, universe, result.value.outcomes, maxAttempts)
      && (KeepsRestorable(old(store.State()).progress, store.State().progress, maxAttempts) <==>
          forall i | 0 <= i < |universe| ::
            Restorable(old(store.State()).progress, Key(c, Baseline, universe[i].isin), maxAttempts).None?)
  {
    var cp := ClaimAndOpen(store, c, o, sampled, seconds, maxAttempts, clock);
    if cp == null { return None, 0; }
    WhatHandlesMiss(store.State(), cp.progress, c, maxAttempts);
    ghost var job := Job(c, universe, disposition, record, maxAttempts);
    ghost var rows := cp.progress;
    var pass;
    pass, done := BaselinePass(cp, universe, disposition, record, aborts, at);
    NothingKnown(job, rows, store.State(), cp.progress, done);
    return Some(pass), done;
  }

  /** A pass on an empty handle has written every row it reported. */
  lemma NothingKnown(job: Job, rows0: Rows, db: Db, rows: Rows, n: nat)
    requires rows0 == map[] && Written(job, rows0, db, rows, n)
    ensures forall i | 0 <= i < n ::
      var f := First(job.universe, job.universe[i].isin);
      Wrote(db.progress, job.KeyOf(job.universe[i].isin), job.disposition(f), job.record(f))
  {
    forall i | 0 <= i < n
      ensures var f := First(job.universe, job.universe[i].isin);
        Wrote(db.progress, job.KeyOf(job.universe[i].isin), job.disposition(f), job.record(f))
    {
      assert WrittenAt(job, rows0, db, rows, n, job.universe[i].isin);
    }
  }
}
