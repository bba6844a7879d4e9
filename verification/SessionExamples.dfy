/** Runs that show where the results about checkpoints and reported progress end. */
module SessionExamples {
  import opened Common
  import opened CycleTables
  import opened CycleProtocol
  import opened CheckpointSessions
  import CycleStatus

  const CYCLE: CycleId := 1
  const ALICE: Owner := 7
  const BOB: Owner := 8
  const KEY := Key(CYCLE, Baseline, 5)

  const START := Sys(World(EMPTY_DB, 0), map[])
  const WAIT := Act(Tick(400))

  function ClaimBy(o: Owner, sampled: int): Move { Act(Perform(OnRun(CYCLE, Claim(o, sampled, 300)))) }

  function Conclude(h: HandleId, state: CandidateState): Move { Finish(h, KEY, state, None, None, Some(9)) }

  /** Alice creates and claims the cycle and makes handle 1. */
  const ALICE_BEGINS := [Act(Perform(Insert(CYCLE, 1, 0))), ClaimBy(ALICE, 0), Open(1, ALICE, CYCLE)]

  // ---------------------------------------------------------------- runs in parts

  /** The run is careful, and leaves these handles ready. */
  ghost predicate Leaves(s: Sys, moves: seq<Move>, ready: set<HandleId>, maxAttempts: int, t: Sys,
                         after: set<HandleId>) {
    Reached(s, moves) == t && ReadyThen(s, moves, ready) == after && AllCareful(s, moves, ready, maxAttempts)
  }

  lemma {:induction false} OneMove(s: Sys, m: Move, ready: set<HandleId>, maxAttempts: int)
    requires Careful(s, m, ready, maxAttempts)
    ensures Leaves(s, [m], ready, maxAttempts, Next(s, m), ReadyAfter(s, m, ready))
  {
    assert [m][1..] == [];
    assert Reached(Next(s, m), []) == Next(s, m)
      && ReadyThen(Next(s, m), [], ReadyAfter(s, m, ready)) == ReadyAfter(s, m, ready);
  }

  lemma {:induction false} TwoParts(s: Sys, a: seq<Move>, ready: set<HandleId>, maxAttempts: int, t: Sys,
                                    after: set<HandleId>, b: seq<Move>, u: Sys, finally: set<HandleId>)
    requires Leaves(s, a, ready, maxAttempts, t, after) && Leaves(t, b, after, maxAttempts, u, finally)
    ensures Leaves(s, a + b, ready, maxAttempts, u, finally)
    decreases a
  {
    if a == [] {
      assert a + b == b;
    } else {
      assert (a + b)[1..] == a[1..] + b;
      TwoParts(Next(s, a[0]), a[1..], ReadyAfter(s, a[0], ready), maxAttempts, t, after, b, u, finally);
    }
  }

  /** One more move. */
  lemma {:induction false} Then(s: Sys, a: seq<Move>, ready: set<HandleId>, maxAttempts: int, t: Sys,
                                after: set<HandleId>, m: Move)
    requires Leaves(s, a, ready, maxAttempts, t, after) && Careful(t, m, after, maxAttempts)
    ensures Leaves(s, a + [m], ready, maxAttempts, Next(t, m), ReadyAfter(t, m, after))
  {
    OneMove(t, m, after, maxAttempts);
    TwoParts(s, a, ready, maxAttempts, t, after, [m], Next(t, m), ReadyAfter(t, m, after));
  }

  // ---------------------------------------------------------------- what the runs pass through

  /** A running cycle that o holds until `lease`, with these rows. */
  ghost predicate Held(w: World, clock: int, o: Owner, lease: int, rows: Rows) {
    && w.clock == clock < lease && CYCLE in w.db.runs && w.db.runs[CYCLE].status.Running?
    && w.db.runs[CYCLE].owner == Some(o) && w.db.runs[CYCLE].lease == Some(lease) && w.db.progress == rows
  }

  function Only(state: CandidateState, attempts: nat, payload: Option<Opaque>): Rows {
    map[KEY := Row(state, None, None, attempts, payload)]
  }

  lemma {:induction false} AliceBegins(maxAttempts: int) returns (t: Sys, ready: set<HandleId>)
    ensures Leaves(START, ALICE_BEGINS, {}, maxAttempts, t, ready)
    ensures Held(t.world, 0, ALICE, 300, map[]) && t.sessions == map[1 := Session(ALICE, CYCLE, true, map[])]
      && ready == {1}
  {
    var a, b, c := ALICE_BEGINS[0], ALICE_BEGINS[1], ALICE_BEGINS[2];
    OneMove(START, a, {}, maxAttempts);
    t, ready := Next(START, a), ReadyAfter(START, a, {});
    assert t.world.db.runs[CYCLE].status.Accepted? && t.world.db.runs[CYCLE].owner.None? && ready == {};
    Then(START, [a], {}, maxAttempts, t, ready, b);
    t, ready := Next(t, b), ReadyAfter(t, b, ready);
    assert Held(t.world, 0, ALICE, 300, map[]) && t.sessions == map[] && ready == {};
    assert RowsOf(t.world.db, CYCLE) == map[];
    Then(START, [a] + [b], {}, maxAttempts, t, ready, c);
    t, ready := Next(t, c), ReadyAfter(t, c, ready);
    assert [a] + [b] + [c] == ALICE_BEGINS;
  }

  /** A handle of the cycle's holder that has just these rows. */
  ghost predicate Has(s: Sys, h: HandleId, o: Owner, rows: Rows) {
    h in s.sessions && s.sessions[h] == Session(o, CYCLE, true, rows)
  }

  /** The other handles, but for whether they are current. */
  ghost predicate OthersStay(s: Sys, t: Sys, h: HandleId) {
    forall g | g in s.sessions && g != h ::
      g in t.sessions && t.sessions[g].(current := false) == s.sessions[g].(current := false)
  }

  lemma {:induction false} Starts(s: Sys, h: HandleId, clock: int, o: Owner, lease: int, rows: Rows,
                                  ready: set<HandleId>)
    returns (t: Sys, mine: Row)
    requires Held(s.world, clock, o, lease, rows) && Has(s, h, o, rows) && h in ready
    ensures Succeeds(s, Begin(h, KEY)) && t == Next(s, Begin(h, KEY)) && h in ReadyAfter(s, Begin(h, KEY), ready)
    ensures mine.state.InProgress? && mine.attempts == AttemptsIn(rows, KEY) + 1
    ensures exists durable: Row :: durable.state.InProgress? && durable.attempts == mine.attempts
                                   && Held(t.world, clock, o, lease, rows[KEY := durable])
    ensures Has(t, h, o, rows[KEY := mine]) && OthersStay(s, t, h)
  {
    t := Next(s, Begin(h, KEY));
    mine := t.sessions[h].rows[KEY];
    assert Held(t.world, clock, o, lease, rows[KEY := t.world.db.progress[KEY]]);
  }

  lemma {:induction false} Concludes(s: Sys, h: HandleId, clock: int, o: Owner, lease: int, rows: Rows, durable: Row,
                                     mine: Row, state: CandidateState, ready: set<HandleId>)
    returns (t: Sys)
    requires mine.attempts == durable.attempts && Held(s.world, clock, o, lease, rows[KEY := durable])
    requires Has(s, h, o, rows[KEY := mine]) && h in ready && forall k | k in rows :: k == KEY
    ensures Succeeds(s, Conclude(h, state)) && t == Next(s, Conclude(h, state))
    ensures h in ReadyAfter(s, Conclude(h, state), ready) && OthersStay(s, t, h)
    ensures Held(t.world, clock, o, lease, Only(state, mine.attempts, Some(9)))
    ensures Has(t, h, o, Only(state, mine.attempts, Some(9)))
  {
    t := Next(s, Conclude(h, state));
    assert t.world.db.progress == Only(state, mine.attempts, Some(9));
    assert t.sessions[h].rows == Only(state, mine.attempts, Some(9));
  }

  /** A ready and current handle of the holder starts the row and concludes it. */
  lemma {:induction false} Works(s: Sys, h: HandleId, clock: int, o: Owner, lease: int, rows: Rows,
                                 state: CandidateState, ready: set<HandleId>, maxAttempts: int)
    returns (t: Sys, after: set<HandleId>)
    requires Held(s.world, clock, o, lease, rows) && Has(s, h, o, rows) && h in ready
    requires Restorable(rows, KEY, maxAttempts).None? && forall k | k in rows :: k == KEY
    requires state.Final() || state.RetryableFailure?
    ensures Leaves(s, [Begin(h, KEY)] + [Conclude(h, state)], ready, maxAttempts, t, after) && h in after
    ensures var done := Only(state, AttemptsIn(rows, KEY) + 1, Some(9));
      Held(t.world, clock, o, lease, done) && Has(t, h, o, done)
    ensures OthersStay(s, t, h)
  {
    var begin, done := Begin(h, KEY), Conclude(h, state);
    OneMove(s, begin, ready, maxAttempts);
    var u, mine := Starts(s, h, clock, o, lease, rows, ready);
    var mid := ReadyAfter(s, begin, ready);
    var durable: Row :| durable.state.InProgress? && durable.attempts == mine.attempts
                        && Held(u.world, clock, o, lease, rows[KEY := durable]);
    Then(s, [begin], ready, maxAttempts, u, mid, done);
    t := Concludes(u, h, clock, o, lease, rows, durable, mine, state, mid);
    after := ReadyAfter(u, done, mid);
  }

  /** The lapsed cycle is claimed by o, who makes handle h. */
  lemma {:induction false} TakesOver(s: Sys, clock: int, was: Owner, o: Owner, h: HandleId, rows: Rows,
                                     ready: set<HandleId>, maxAttempts: int)
    returns (t: Sys, after: set<HandleId>)
    requires Held(s.world, clock, was, clock + 300, rows) && was != o && h !in s.sessions && h !in ready
    requires forall k | k in rows :: k.cycle == CYCLE
    ensures Leaves(s, [WAIT] + [ClaimBy(o, clock + 400)] + [Open(h, o, CYCLE)], ready, maxAttempts, t, after)
    ensures Held(t.world, clock + 400, o, clock + 700, rows)
    ensures h in t.sessions && t.sessions[h] == Session(o, CYCLE, rows == map[], map[]) && OthersStay(s, t, h)
    ensures h in after <==> rows == map[]
  {
    var a, b, c := WAIT, ClaimBy(o, clock + 400), Open(h, o, CYCLE);
    OneMove(s, a, ready, maxAttempts);
    t, after := Next(s, a), ReadyAfter(s, a, ready);
    Then(s, [a], ready, maxAttempts, t, after, b);
    assert Succeeds(t, b);
    t, after := Next(t, b), ReadyAfter(t, b, after);
    assert Held(t.world, clock + 400, o, clock + 700, rows) && RowsOf(t.world.db, CYCLE) == rows;
    Then(s, [a] + [b], ready, maxAttempts, t, after, c);
    t, after := Next(t, c), ReadyAfter(t, c, after);
  }

  /** A handle with no rows starts the row of a cycle that its owner holds. */
  lemma {:induction false} EmptyHandleStarts(s: Sys, h: HandleId, clock: int, o: Owner, lease: int, rows: Rows,
                                             maxAttempts: int)
    requires Held(s.world, clock, o, lease, rows) && KEY in rows
    requires h in s.sessions && s.sessions[h].rows == map[] && s.sessions[h].owner == o && s.sessions[h].cycle == CYCLE
    ensures Disciplined(s, Begin(h, KEY), maxAttempts) && Succeeds(s, Begin(h, KEY))
    ensures KEY in Next(s, Begin(h, KEY)).world.db.progress
    ensures Next(s, Begin(h, KEY)).world.db.progress[KEY].state.InProgress?
    ensures Next(s, Begin(h, KEY)).world.db.progress[KEY].attempts == rows[KEY].attempts + 1
  {
  }

  // ---------------------------------------------------------------- the runs

  function Over(h: HandleId, o: Owner, sampled: int): seq<Move> { [WAIT] + [ClaimBy(o, sampled)] + [Open(h, o, CYCLE)] }

  function Work(h: HandleId, state: CandidateState): seq<Move> { [Begin(h, KEY)] + [Conclude(h, state)] }

  /** What the worker of an ETF cycle does: Alice works a first pass and finishes the row, her lease lapses, Bob
      claims the cycle and makes a handle, which nobody loads. */
  const TAKEN_UP_AGAIN := ALICE_BEGINS + Work(1, TerminalOutcome) + Over(2, BOB, 400)

  lemma {:induction false} TakenUpAgain(maxAttempts: int) returns (t: Sys, ready: set<HandleId>)
    ensures Leaves(START, TAKEN_UP_AGAIN, {}, maxAttempts, t, ready) && 2 !in ready
    ensures Held(t.world, 400, BOB, 700, Only(TerminalOutcome, 1, Some(9)))
    ensures 2 in t.sessions && t.sessions[2] == Session(BOB, CYCLE, false, map[])
  {
    var u, before := AliceBegins(maxAttempts);
    t, ready := Works(u, 1, 0, ALICE, 300, map[], TerminalOutcome, before, maxAttempts);
    TwoParts(START, ALICE_BEGINS, {}, maxAttempts, u, before, Work(1, TerminalOutcome), t, ready);
    u, before := t, ready;
    t, ready := TakesOver(u, 0, ALICE, BOB, 2, Only(TerminalOutcome, 1, Some(9)), before, maxAttempts);
    TwoParts(START, ALICE_BEGINS + Work(1, TerminalOutcome), {}, maxAttempts, u, before, Over(2, BOB, 400), t, ready);
  }

  /** Up to here everybody is careful. But Bob's handle knows of no row: it starts the finished one again, and is
      accepted; one item that was completed is so no more. */
  lemma {:induction false} AnUnloadedHandleRewritesAFinalRow(maxAttempts: int) returns (t: Sys)
    ensures Initial(START) && t == Reached(START, TAKEN_UP_AGAIN) && AllCareful(START, TAKEN_UP_AGAIN, {}, maxAttempts)
    ensures 2 !in ReadyThen(START, TAKEN_UP_AGAIN, {})
    ensures t.world.db.progress == Only(TerminalOutcome, 1, Some(9))
    ensures Disciplined(t, Begin(2, KEY), maxAttempts) && Succeeds(t, Begin(2, KEY))
    ensures KEY in Next(t, Begin(2, KEY)).world.db.progress
    ensures Next(t, Begin(2, KEY)).world.db.progress[KEY].state.InProgress?
    ensures Next(t, Begin(2, KEY)).world.db.progress[KEY].attempts == 2
  {
    var ready;
    t, ready := TakenUpAgain(maxAttempts);
    EmptyHandleStarts(t, 2, 400, BOB, 700, Only(TerminalOutcome, 1, Some(9)), maxAttempts);
  }

  /** Alice makes a handle, Bob takes the lapsed cycle over and finishes a row that Alice's handle has never seen, and
      Alice claims the cycle once more. */
  const CLAIMED_BACK :=
    ALICE_BEGINS + Over(2, BOB, 400) + Work(2, AnalysisCompleted) + ([WAIT] + [ClaimBy(ALICE, 800)])

  lemma {:induction false} ComesBack(s: Sys, rows: Rows, ready: set<HandleId>, maxAttempts: int)
    returns (t: Sys, after: set<HandleId>)
    requires Held(s.world, 400, BOB, 700, rows)
    requires 1 in s.sessions && s.sessions[1].(current := false) == Session(ALICE, CYCLE, false, map[])
    ensures Leaves(s, [WAIT] + [ClaimBy(ALICE, 800)], ready, maxAttempts, t, after) && 1 !in after
    ensures Held(t.world, 800, ALICE, 1100, rows)
    ensures 1 in t.sessions && t.sessions[1].(current := false) == Session(ALICE, CYCLE, false, map[])
  {
    var a, b := WAIT, ClaimBy(ALICE, 800);
    OneMove(s, a, ready, maxAttempts);
    t, after := Next(s, a), ReadyAfter(s, a, ready);
    Then(s, [a], ready, maxAttempts, t, after, b);
    assert Succeeds(t, b) && BeginsEpoch(t.world, ActionOf(t, b), CYCLE, ALICE);
    t, after := Next(t, b), ReadyAfter(t, b, after);
  }

  lemma {:induction false} ClaimedBack(maxAttempts: int) returns (t: Sys, ready: set<HandleId>)
    ensures Leaves(START, CLAIMED_BACK, {}, maxAttempts, t, ready) && 1 !in ready
    ensures Held(t.world, 800, ALICE, 1100, Only(AnalysisCompleted, 1, Some(9)))
    ensures 1 in t.sessions && t.sessions[1].(current := false) == Session(ALICE, CYCLE, false, map[])
  {
    var u, before := AliceBegins(maxAttempts);
    t, ready := TakesOver(u, 0, ALICE, BOB, 2, map[], before, maxAttempts);
    TwoParts(START, ALICE_BEGINS, {}, maxAttempts, u, before, Over(2, BOB, 400), t, ready);
    u, before := t, ready;
    t, ready := Works(u, 2, 400, BOB, 700, map[], AnalysisCompleted, before, maxAttempts);
    TwoParts(START, ALICE_BEGINS + Over(2, BOB, 400), {}, maxAttempts, u, before, Work(2, AnalysisCompleted), t, ready);
    u, before := t, ready;
    t, ready := ComesBack(u, Only(AnalysisCompleted, 1, Some(9)), before, maxAttempts);
    TwoParts(START, ALICE_BEGINS + Over(2, BOB, 400) + Work(2, AnalysisCompleted), {}, maxAttempts, u, before,
             [WAIT] + [ClaimBy(ALICE, 800)], t, ready);
  }

  /** If she goes on with her old handle, its answer is out of date and the start it makes is accepted: a new epoch
      needs a new load. */
  lemma {:induction false} AStaleHandleRewritesAFinalRow(maxAttempts: int) returns (t: Sys)
    ensures Initial(START) && t == Reached(START, CLAIMED_BACK) && AllCareful(START, CLAIMED_BACK, {}, maxAttempts)
    ensures 1 !in ReadyThen(START, CLAIMED_BACK, {})
    ensures t.world.db.progress == Only(AnalysisCompleted, 1, Some(9))
    ensures Disciplined(t, Begin(1, KEY), maxAttempts) && Succeeds(t, Begin(1, KEY))
    ensures KEY in Next(t, Begin(1, KEY)).world.db.progress
    ensures Next(t, Begin(1, KEY)).world.db.progress[KEY].state.InProgress?
  {
    var ready;
    t, ready := ClaimedBack(maxAttempts);
    EmptyHandleStarts(t, 1, 800, ALICE, 1100, Only(AnalysisCompleted, 1, Some(9)), maxAttempts);
  }

  // ---------------------------------------------------------------- reported progress

  const FAILURE := Work(1, RetryableFailure)
  const THREE_FAILURES := ALICE_BEGINS + FAILURE + FAILURE + FAILURE

  lemma {:induction false} FailsThrice(maxAttempts: int) returns (t: Sys, ready: set<HandleId>)
    requires maxAttempts > 3
    ensures Leaves(START, THREE_FAILURES, {}, maxAttempts, t, ready) && 1 in ready
    ensures var rows := Only(RetryableFailure, 3, Some(9)); Held(t.world, 0, ALICE, 300, rows) && Has(t, 1, ALICE, rows)
  {
    var u, before := AliceBegins(maxAttempts);
    t, ready := Works(u, 1, 0, ALICE, 300, map[], RetryableFailure, before, maxAttempts);
    TwoParts(START, ALICE_BEGINS, {}, maxAttempts, u, before, FAILURE, t, ready);
    u, before := t, ready;
    t, ready := Works(u, 1, 0, ALICE, 300, Only(RetryableFailure, 1, Some(9)), RetryableFailure, before, maxAttempts);
    TwoParts(START, ALICE_BEGINS + FAILURE, {}, maxAttempts, u, before, FAILURE, t, ready);
    u, before := t, ready;
    t, ready := Works(u, 1, 0, ALICE, 300, Only(RetryableFailure, 2, Some(9)), RetryableFailure, before, maxAttempts);
    TwoParts(START, ALICE_BEGINS + FAILURE + FAILURE, {}, maxAttempts, u, before, FAILURE, t, ready);
  }

  lemma {:induction false} FourthStart(t: Sys, ready: set<HandleId>, maxAttempts: int) returns (row: Row)
    requires maxAttempts > 3 && 1 in ready
    requires Held(t.world, 0, ALICE, 300, Only(RetryableFailure, 3, Some(9)))
    requires Has(t, 1, ALICE, Only(RetryableFailure, 3, Some(9)))
    ensures AllCareful(t, [Begin(1, KEY)], ready, maxAttempts)
    ensures row.state.InProgress? && Reached(t, [Begin(1, KEY)]).world.db.progress == map[KEY := row]
  {
    var rows := Only(RetryableFailure, 3, Some(9));
    var u, mine := Starts(t, 1, 0, ALICE, 300, rows, ready);
    OneMove(t, Begin(1, KEY), ready, maxAttempts);
    row :| row.state.InProgress? && row.attempts == mine.attempts && Held(u.world, 0, ALICE, 300, rows[KEY := row]);
    assert rows[KEY := row] == map[KEY := row];
  }

  /** The listing of a phase with one row. */
  lemma OnlyRow(db: Db, row: Row)
    requires db.progress == map[KEY := row]
    ensures CycleStatus.Lists([CycleStatus.Entry(5, row)], db, CYCLE, Baseline)
    ensures CycleStatus.Tally([CycleStatus.Entry(5, row)], CycleStatus.IsDone()) ==
      if CycleStatus.Done(row) then 1 else 0
  {
    CycleStatus.FilterOfOne(CycleStatus.Entry(5, row), CycleStatus.OnRow(CycleStatus.IsDone()));
  }

  /** From one completed item to none, in one phase of the cycle. */
  ghost predicate GoesBack(s: Sys, t: Sys) {
    exists before, after ::
      && CycleStatus.Lists(before, s.world.db, CYCLE, Baseline) && CycleStatus.Lists(after, t.world.db, CYCLE, Baseline)
      && CycleStatus.Tally(before, CycleStatus.IsDone()) == 1 && CycleStatus.Tally(after, CycleStatus.IsDone()) == 0
  }

  lemma {:induction false} OneRowGoesBack(s: Sys, t: Sys, done: Row, open: Row)
    requires s.world.db.progress == map[KEY := done] && t.world.db.progress == map[KEY := open]
    requires CycleStatus.Done(done) && !CycleStatus.Done(open)
    ensures GoesBack(s, t)
  {
    OnlyRow(s.world.db, done);
    OnlyRow(t.world.db, open);
    assert CycleStatus.Lists([CycleStatus.Entry(5, done)], s.world.db, CYCLE, Baseline);
    assert CycleStatus.Lists([CycleStatus.Entry(5, open)], t.world.db, CYCLE, Baseline);
  }

  /** With a repair budget above the snapshot's three, the completed count goes back though everybody is careful: the
      snapshot calls a row done after its third retryable failure, and the driver then starts it once more. */
  lemma {:induction false} CompletedCanGoBack(maxAttempts: int) returns (t: Sys)
    requires maxAttempts > CycleStatus.DEFAULT_MAX_ATTEMPTS
    ensures Initial(START) && t == Reached(START, THREE_FAILURES) && AllCareful(START, THREE_FAILURES, {}, maxAttempts)
    ensures AllCareful(t, [Begin(1, KEY)], ReadyThen(START, THREE_FAILURES, {}), maxAttempts)
    ensures GoesBack(t, Reached(t, [Begin(1, KEY)]))
  {
    var ready;
    t, ready := FailsThrice(maxAttempts);
    var row := FourthStart(t, ready, maxAttempts);
    OneRowGoesBack(t, Reached(t, [Begin(1, KEY)]), Row(RetryableFailure, None, None, 3, Some(9)), row);
  }

  /** And so it does, whatever the budget, when an ETF cycle is taken up again with a handle that was never loaded. */
  lemma {:induction false} AnUnloadedHandleTakesProgressBack(maxAttempts: int)
    ensures GoesBack(Reached(START, TAKEN_UP_AGAIN), Next(Reached(START, TAKEN_UP_AGAIN), Begin(2, KEY)))
  {
    var t := AnUnloadedHandleRewritesAFinalRow(maxAttempts);
    var u := Next(t, Begin(2, KEY));
    assert u.world.db.progress == map[KEY := u.world.db.progress[KEY]];
    OneRowGoesBack(t, u, Row(TerminalOutcome, None, None, 1, Some(9)), u.world.db.progress[KEY]);
  }
}
