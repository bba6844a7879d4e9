/** A run that shows why a new epoch needs a new transport. */
module BudgetExamples {
  import opened Common
  import opened CycleTables
  import opened CycleProtocol
  import opened RequestBudget

  const CYCLE: CycleId := 1
  const ALICE: Owner := 7
  const BOB: Owner := 8

  const START := Sys(World(EMPTY_DB, 0), map[], map[], map[])
  const WAIT := Act(Tick(400))

  function ClaimOf(o: Owner, sampled: int): Move { Act(Perform(OnRun(CYCLE, Claim(o, sampled, 300)))) }

  /** Alice creates and claims the cycle and opens driver 1. */
  const ALICE_OPENS :=
    [] + [Act(Perform(Insert(CYCLE, 1, 0)))] + [ClaimOf(ALICE, 0)] + [Open(1, ALICE, CYCLE, 10, 0)]

  /** Bob takes the lapsed cycle over with driver 2. */
  const BOB_OPENS := ALICE_OPENS + [WAIT] + [ClaimOf(BOB, 400)] + [Open(2, BOB, CYCLE, 10, 0)]

  /** He reserves one request and sends it. */
  const BOB_SENDS := BOB_OPENS + [Reserve(2)] + [Send(2)]

  /** Alice claims the lapsed cycle once more. */
  const ALICE_RETURNS := BOB_SENDS + [WAIT] + [ClaimOf(ALICE, 800)]

  /** The run is careful and leads here, with these drivers ready. */
  ghost predicate Leads(s: Sys, moves: seq<Move>, ready: set<DriverId>, t: Sys, after: set<DriverId>) {
    Reached(s, moves) == t && ReadyThen(s, moves, ready) == after && AllCareful(s, moves, ready)
  }

  lemma {:induction false} OneFurther(s: Sys, moves: seq<Move>, ready: set<DriverId>, t: Sys, after: set<DriverId>,
                                      m: Move)
    requires Leads(s, moves, ready, t, after) && Careful(m, after)
    ensures Leads(s, moves + [m], ready, Next(t, m), ReadyAfter(t, m, after))
    decreases moves
  {
    if moves == [] {
      assert [] + [m] == [m] && [m][1..] == [];
      assert Reached(Next(s, m), []) == Next(s, m);
    } else {
      assert (moves + [m])[1..] == moves[1..] + [m];
      OneFurther(Next(s, moves[0]), moves[1..], ReadyAfter(s, moves[0], ready), t, after, m);
    }
  }

  /** A running cycle that o holds until `lease`, with this selection. */
  ghost predicate Held(w: World, clock: int, o: Owner, lease: int, selection: Option<Selection>) {
    && w.clock == clock < lease && CYCLE in w.db.runs && w.db.runs[CYCLE].status.Running?
    && w.db.runs[CYCLE].owner == Some(o) && w.db.runs[CYCLE].lease == Some(lease)
    && w.db.runs[CYCLE].selection == selection
  }

  function Fresh(o: Owner, current: bool): Driver { Driver(o, CYCLE, current, Selection(0, 10, 0)) }

  lemma {:induction false} AliceOpens() returns (t: Sys, ready: set<DriverId>)
    ensures Leads(START, ALICE_OPENS, {}, t, ready) && ready == {1}
    ensures Held(t.world, 0, ALICE, 300, None) && t == START.(world := t.world, drivers := map[1 := Fresh(ALICE, true)])
  {
    var insert, claim, open := Act(Perform(Insert(CYCLE, 1, 0))), ClaimOf(ALICE, 0), Open(1, ALICE, CYCLE, 10, 0);
    OneFurther(START, [], {}, START, {}, insert);
    t, ready := Next(START, insert), ReadyAfter(START, insert, {});
    assert t.world.db.runs[CYCLE].status.Accepted? && t.world.db.runs[CYCLE].owner.None? && ready == {};
    OneFurther(START, [] + [insert], {}, t, ready, claim);
    t, ready := Next(t, claim), ReadyAfter(t, claim, ready);
    assert Held(t.world, 0, ALICE, 300, None) && t.drivers == map[] && ready == {};
    OneFurther(START, [] + [insert] + [claim], {}, t, ready, open);
    t, ready := Next(t, open), ReadyAfter(t, open, ready);
  }

  lemma {:induction false} BobOpens() returns (t: Sys, ready: set<DriverId>)
    ensures Leads(START, BOB_OPENS, {}, t, ready) && ready == {1, 2}
    ensures Held(t.world, 400, BOB, 700, None)
    ensures t == START.(world := t.world, drivers := map[1 := Fresh(ALICE, false), 2 := Fresh(BOB, true)])
  {
    t, ready := AliceOpens();
    var claim, open := ClaimOf(BOB, 400), Open(2, BOB, CYCLE, 10, 0);
    OneFurther(START, ALICE_OPENS, {}, t, ready, WAIT);
    t, ready := Next(t, WAIT), ReadyAfter(t, WAIT, ready);
    assert ready == {1} && t.drivers == map[1 := Fresh(ALICE, true)];
    OneFurther(START, ALICE_OPENS + [WAIT], {}, t, ready, claim);
    t, ready := Next(t, claim), ReadyAfter(t, claim, ready);
    assert Held(t.world, 400, BOB, 700, None) && t.drivers == map[1 := Fresh(ALICE, false)] && ready == {1};
    OneFurther(START, ALICE_OPENS + [WAIT] + [claim], {}, t, ready, open);
    t, ready := Next(t, open), ReadyAfter(t, open, ready);
  }

  /** One request is sent and counted; Alice's driver has its old selection. */
  ghost predicate OneSent(t: Sys, clock: int, o: Owner, lease: int) {
    && Held(t.world, clock, o, lease, Some(Selection(1, 10, 0))) && SendsOf(t, CYCLE) == 1
    && 1 in t.drivers && t.drivers[1] == Fresh(ALICE, false)
  }

  lemma {:induction false} BobSends() returns (t: Sys, ready: set<DriverId>)
    ensures Leads(START, BOB_SENDS, {}, t, ready) && OneSent(t, 400, BOB, 700)
  {
    t, ready := BobOpens();
    OneFurther(START, BOB_OPENS, {}, t, ready, Reserve(2));
    t, ready := Next(t, Reserve(2)), ReadyAfter(t, Reserve(2), ready);
    assert Held(t.world, 400, BOB, 700, Some(Selection(1, 10, 0))) && PermitsOf(t, CYCLE) == {2};
    assert t.drivers[1] == Fresh(ALICE, false) && t.sends == map[];
    OneFurther(START, BOB_OPENS + [Reserve(2)], {}, t, ready, Send(2));
    t, ready := Next(t, Send(2)), ReadyAfter(t, Send(2), ready);
  }

  lemma {:induction false} AliceReturns() returns (t: Sys, ready: set<DriverId>)
    ensures Leads(START, ALICE_RETURNS, {}, t, ready) && OneSent(t, 800, ALICE, 1100) && 1 !in ready
  {
    t, ready := BobSends();
    var claim := ClaimOf(ALICE, 800);
    OneFurther(START, BOB_SENDS, {}, t, ready, WAIT);
    t, ready := Next(t, WAIT), ReadyAfter(t, WAIT, ready);
    OneFurther(START, BOB_SENDS + [WAIT], {}, t, ready, claim);
    assert Succeeds(t, claim) && BeginsEpoch(t.world, ActionOf(t, claim), CYCLE, ALICE);
    t, ready := Next(t, claim), ReadyAfter(t, claim, ready);
  }

  /** Up to here everybody is careful. When Alice then goes on with her old transport, the selection it saves takes the
      counter back below the requests already sent. */
  lemma {:induction false} AStaleDriverLowersTheCounter() returns (t: Sys)
    ensures Initial(START) && t == Reached(START, ALICE_RETURNS) && AllCareful(START, ALICE_RETURNS, {})
    ensures 1 !in ReadyThen(START, ALICE_RETURNS, {}) && Saves(t, Save(1, 0)) && !Covers(t, Save(1, 0))
    ensures Persisted(t.world.db, CYCLE) == 1 && SendsOf(t, CYCLE) == 1
    ensures Persisted(Next(t, Save(1, 0)).world.db, CYCLE) == 0 && SendsOf(Next(t, Save(1, 0)), CYCLE) == 1
  {
    var ready;
    t, ready := AliceReturns();
    SaveSetsSelection(t, Save(1, 0), CYCLE);
  }
}
