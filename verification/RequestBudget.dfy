/** The request budget of the full ETF driver: its counter lives in the durable selection, so that it survives
    crashes and takeovers; a request may be sent only after a fenced save has counted it. */
module RequestBudget {
  import opened Common
  import opened CycleTables
  import opened CycleProtocol

  type DriverId = int

  /** One transport and the selection it holds in memory; it lives on through claims of its own owner and of others
      until it is dropped. `current`: since it read the selection, when its owner held the cycle or could have, no other
      owner's claim has been accepted, nor a selection saved by another driver. */
  datatype Driver = Driver(owner: Owner, cycle: CycleId, current: bool, selection: Selection)

  /** `permits` are reservations counted by a committed save and not yet used for a request. */
  datatype Sys = Sys(world: World, drivers: map<DriverId, Driver>, permits: map<CycleId, set<DriverId>>,
                     sends: map<CycleId, nat>)

  datatype Move =
    | Act(act: Action)  // anything but a selection write, claims included
    | Open(driver: DriverId, owner: Owner, cycle: CycleId, limit: nat, body: Opaque)
    | Save(driver: DriverId, body: Opaque)
    | Reserve(driver: DriverId)
    | Send(driver: DriverId)
    | Crash(driver: DriverId)

  function SelectionOf(db: Db, c: CycleId): Option<Selection> {
    if c in db.runs then db.runs[c].selection else None
  }

  /** The persisted request_reservations. */
  function Persisted(db: Db, c: CycleId): nat {
    if SelectionOf(db, c).Some? then SelectionOf(db, c).value.reservations else 0
  }

  function PermitsOf(s: Sys, c: CycleId): set<DriverId> { if c in s.permits then s.permits[c] else {} }

  function SendsOf(s: Sys, c: CycleId): nat { if c in s.sends then s.sends[c] else 0 }

  function SaveAction(o: Owner, c: CycleId, sel: Selection): Action {
    Perform(OnRun(c, Update(o, Fields(None, None, Some(sel), None))))
  }

  /** The selection a move tries to persist. */
  function Intended(s: Sys, m: Move): Option<Selection> {
    match m
    case Save(d, body) => if d in s.drivers then Some(s.drivers[d].selection.(body := body)) else None
    case Reserve(d) =>
      if d in s.drivers && s.drivers[d].selection.reservations < s.drivers[d].selection.maxRequests
      then Some(s.drivers[d].selection.(reservations := s.drivers[d].selection.reservations + 1))
      else None
    case _ => None
  }

  predicate SavesSelection(act: Action) {
    act.Perform? && act.op.OnRun? && act.op.step.Update? && act.op.step.fields.selection.Some?
  }

  /** The transaction a move performs; moves that touch no table let no time pass. */
  function ActionOf(s: Sys, m: Move): Action {
    match m
    case Act(act) => if SavesSelection(act) then Tick(0) else act
    case Save(d, _) =>
      if Intended(s, m).Some? then SaveAction(s.drivers[d].owner, s.drivers[d].cycle, Intended(s, m).value) else Tick(0)
    case Reserve(d) =>
      if Intended(s, m).Some? then SaveAction(s.drivers[d].owner, s.drivers[d].cycle, Intended(s, m).value) else Tick(0)
    case _ => Tick(0)
  }

  predicate Succeeds(s: Sys, m: Move) { Commits(s.world, ActionOf(s, m)) }

  /** An accepted selection save by a driver. */
  predicate Saves(s: Sys, m: Move) { Intended(s, m).Some? && Succeeds(s, m) }

  /** What ends a driver's tenure when somebody else does it. */
  predicate Foreign(a: Action, x: Driver) {
    && a.Perform? && a.op.OnRun? && a.op.cycle == x.cycle
    && ((a.op.step.Claim? && a.op.step.owner != x.owner) || SavesSelection(a))
  }

  function Interrupted(a: Action, x: Driver): Driver { if Foreign(a, x) then x.(current := false) else x }

  function AllInterrupted(drivers: map<DriverId, Driver>, a: Action): map<DriverId, Driver> {
    map d | d in drivers :: Interrupted(a, drivers[d])
  }

  /** The selection as the driver finds it, or a new one. */
  function Opened(db: Db, o: Owner, c: CycleId, limit: nat, body: Opaque): Driver {
    Driver(o, c, OwnerOf(db, c).None? || OwnerOf(db, c) == Some(o),
           if SelectionOf(db, c).Some? then SelectionOf(db, c).value else Selection(0, limit, body))
  }

  function Next(s: Sys, m: Move): Sys {
    var a := ActionOf(s, m);
    var w := Step(s.world, a);
    match m
    case Act(_) => s.(world := w, drivers := if Succeeds(s, m) then AllInterrupted(s.drivers, a) else s.drivers)
    case Open(d, o, c, limit, body) =>
      if d in s.drivers then s else s.(drivers := s.drivers[d := Opened(s.world.db, o, c, limit, body)])
    case Send(d) =>
      if d !in s.drivers || d !in PermitsOf(s, s.drivers[d].cycle) then s else
      var c := s.drivers[d].cycle;
      s.(permits := s.permits[c := PermitsOf(s, c) - {d}], sends := s.sends[c := SendsOf(s, c) + 1])
    case Crash(d) =>
      if d !in s.drivers then s else
      var c := s.drivers[d].cycle;
      s.(drivers := (map x | x in s.drivers && x != d :: s.drivers[x]),
         permits := s.permits[c := PermitsOf(s, c) - {d}])
    case _ =>
      if Intended(s, m).None? then s else
      // The counter in memory moves even when the save is refused; only a committed save allows a request.
      var mine := s.drivers[m.driver].(selection := Intended(s, m).value);
      var c := mine.cycle;
      s.(world := w,
         drivers := (if Succeeds(s, m) then AllInterrupted(s.drivers, a) else s.drivers)[m.driver := mine],
         permits := if m.Reserve? && Succeeds(s, m) then s.permits[c := PermitsOf(s, c) + {m.driver}] else s.permits)
  }

  function Reached(s: Sys, moves: seq<Move>): Sys
    decreases moves
  {
    if moves == [] then s else Reached(Next(s, moves[0]), moves[1..])
  }

  ghost predicate Initial(s: Sys) {
    Start(s.world) && s.drivers == map[] && s.permits == map[] && s.sends == map[]
  }

  // ---------------------------------------------------------------- what every run keeps

  ghost predicate DriverOk(x: Driver, db: Db) {
    && x.selection.reservations <= x.selection.maxRequests
    && (x.current ==>
          && (OwnerOf(db, x.cycle).None? || OwnerOf(db, x.cycle) == Some(x.owner))
          && Persisted(db, x.cycle) <= x.selection.reservations
          && (SelectionOf(db, x.cycle).Some? ==> SelectionOf(db, x.cycle).value.maxRequests == x.selection.maxRequests))
  }

  predicate WithinLimit(db: Db, c: CycleId) {
    SelectionOf(db, c).Some? ==> SelectionOf(db, c).value.reservations <= SelectionOf(db, c).value.maxRequests
  }

  ghost predicate SysInv(s: Sys) {
    && Inv(s.world.db)
    && (forall d | d in s.drivers :: DriverOk(s.drivers[d], s.world.db))
    && (forall c: CycleId :: WithinLimit(s.world.db, c))
  }

  lemma ActKeepsSelections(w: World, a: Action, c: CycleId)
    requires !SavesSelection(a)
    ensures SelectionOf(Step(w, a).db, c) == SelectionOf(w.db, c)
  {
  }

  lemma SaveSetsSelection(s: Sys, m: Move, c: CycleId)
    requires Saves(s, m)
    ensures m.driver in s.drivers
    ensures SelectionOf(Next(s, m).world.db, c) ==
      if c == s.drivers[m.driver].cycle then Intended(s, m) else SelectionOf(s.world.db, c)
    ensures OwnerOf(Next(s, m).world.db, c) == OwnerOf(s.world.db, c)
  {
  }

  /** A transaction that is not foreign to a driver leaves the selection and its owner's standing alone; a claim of its
      own owner is no interruption. */
  lemma ActKeepsDriver(w: World, a: Action, x: Driver)
    requires Inv(w.db) && DriverOk(x, w.db) && !SavesSelection(a)
    ensures DriverOk(if Commits(w, a) then Interrupted(a, x) else x, Step(w, a).db)
  {
    ActKeepsSelections(w, a, x.cycle);
  }

  lemma SaveKeepsDriver(s: Sys, m: Move, d: DriverId)
    requires SysInv(s) && Saves(s, m) && d in s.drivers
    ensures d in Next(s, m).drivers && DriverOk(Next(s, m).drivers[d], Next(s, m).world.db)
  {
    assert DriverOk(s.drivers[d], s.world.db);
    SaveSetsSelection(s, m, s.drivers[d].cycle);
  }

  lemma SaveKeepsInv(s: Sys, m: Move)
    requires SysInv(s) && Saves(s, m)
    ensures SysInv(Next(s, m))
  {
    StepKeepsInv(s.world, ActionOf(s, m));
    forall d | d in Next(s, m).drivers ensures DriverOk(Next(s, m).drivers[d], Next(s, m).world.db) {
      SaveKeepsDriver(s, m, d);
    }
    assert DriverOk(s.drivers[m.driver], s.world.db);
    forall c: CycleId ensures WithinLimit(Next(s, m).world.db, c) {
      assert WithinLimit(s.world.db, c);
      SaveSetsSelection(s, m, c);
    }
  }

  lemma ActKeepsInv(s: Sys, m: Move)
    requires SysInv(s) && m.Act?
    ensures SysInv(Next(s, m))
  {
    var a := ActionOf(s, m);
    StepKeepsInv(s.world, a);
    forall d | d in Next(s, m).drivers ensures DriverOk(Next(s, m).drivers[d], Next(s, m).world.db) {
      ActKeepsDriver(s.world, a, s.drivers[d]);
    }
    forall c: CycleId ensures WithinLimit(Next(s, m).world.db, c) {
      assert WithinLimit(s.world.db, c);
      ActKeepsSelections(s.world, a, c);
    }
  }

  lemma NextKeepsInv(s: Sys, m: Move)
    requires SysInv(s)
    ensures SysInv(Next(s, m))
  {
    if m.Act? {
      ActKeepsInv(s, m);
    } else if Saves(s, m) {
      SaveKeepsInv(s, m);
    } else {
      var t := Next(s, m);
      assert t.world.db == s.world.db;
      forall d | d in t.drivers ensures DriverOk(t.drivers[d], t.world.db) {
        if d in s.drivers { assert DriverOk(s.drivers[d], s.world.db); }
        if m.Open? { assert WithinLimit(s.world.db, m.cycle); }
      }
    }
  }

  lemma {:induction false} RunKeepsInv(s: Sys, moves: seq<Move>)
    requires SysInv(s)
    ensures SysInv(Reached(s, moves))
    decreases moves
  {
    if moves != [] {
      NextKeepsInv(s, moves[0]);
      RunKeepsInv(Next(s, moves[0]), moves[1..]);
    }
  }

  /** Whatever drivers do, stale ones included, the persisted counter stays within the persisted limit. */
  lemma CounterStaysWithinTheLimit(s: Sys, moves: seq<Move>, c: CycleId)
    requires Initial(s)
    ensures WithinLimit(Reached(s, moves).world.db, c)
  {
    RunKeepsInv(s, moves);
  }

  // ---------------------------------------------------------------- when a save counts

  /** If the move saves, the driver's own counter is not behind the persisted one. */
  predicate Covers(s: Sys, m: Move) {
    Saves(s, m) ==> Persisted(s.world.db, s.drivers[m.driver].cycle) <= s.drivers[m.driver].selection.reservations
  }

  ghost predicate AllCover(s: Sys, moves: seq<Move>)
    decreases moves
  {
    moves == [] || (Covers(s, moves[0]) && AllCover(Next(s, moves[0]), moves[1..]))
  }

  /** A save keeps the persisted counter, and a reservation raises it, exactly when the driver is not behind. */
  lemma SavesCountExactly(s: Sys, m: Move)
    requires Saves(s, m)
    ensures var c := s.drivers[m.driver].cycle;
      Persisted(Next(s, m).world.db, c) >= Persisted(s.world.db, c) + (if m.Reserve? then 1 else 0) <==> Covers(s, m)
  {
    SaveSetsSelection(s, m, s.drivers[m.driver].cycle);
  }

  // ---------------------------------------------------------------- the discipline of one owner

  /** An accepted claim by which o, not the recorded owner, begins an epoch. */
  predicate BeginsEpoch(w: World, a: Action, c: CycleId, o: Owner) {
    IsClaim(w, a, c, o) && OwnerOf(w.db, c) != Some(o)
  }

  predicate Siblings(x: Driver, y: Driver) { x.owner == y.owner && x.cycle == y.cycle }

  /** The drivers that are ready to save, as their owners can tell without looking at anybody else: since the driver
      read the selection its owner has begun no new epoch and has saved through no other driver. Nothing that another
      owner does changes this. */
  function ReadyAfter(s: Sys, m: Move, ready: set<DriverId>): set<DriverId> {
    match m
    case Act(_) =>
      set d | d in ready && d in s.drivers
        && !BeginsEpoch(s.world, ActionOf(s, m), s.drivers[d].cycle, s.drivers[d].owner)
    case Open(d, _, _, _, _) => if d in s.drivers then ready else ready + {d}
    case Crash(d) => ready - {d}
    case Send(_) => ready
    case _ =>
      if !Saves(s, m) then ready
      else set d | d in ready && d in s.drivers && (d == m.driver || !Siblings(s.drivers[d], s.drivers[m.driver]))
  }

  function ReadyThen(s: Sys, moves: seq<Move>, ready: set<DriverId>): set<DriverId>
    decreases moves
  {
    if moves == [] then ready else ReadyThen(Next(s, moves[0]), moves[1..], ReadyAfter(s, moves[0], ready))
  }

  /** Only ready drivers try to save. */
  predicate Careful(m: Move, ready: set<DriverId>) { m.Save? || m.Reserve? ==> m.driver in ready }

  ghost predicate AllCareful(s: Sys, moves: seq<Move>, ready: set<DriverId>)
    decreases moves
  {
    moves == [] || (Careful(moves[0], ready)
                    && AllCareful(Next(s, moves[0]), moves[1..], ReadyAfter(s, moves[0], ready)))
  }

  /** A ready driver that is out of date belongs to an owner that does not hold the cycle. */
  ghost predicate Standing(s: Sys, ready: set<DriverId>) {
    forall d | d in ready ::
      && d in s.drivers
      && (s.drivers[d].current || OwnerOf(s.world.db, s.drivers[d].cycle) != Some(s.drivers[d].owner))
  }

  lemma StaysStanding(s: Sys, m: Move, ready: set<DriverId>, d: DriverId)
    requires Standing(s, ready) && d in ready && d in ReadyAfter(s, m, ready) && m != Crash(d)
    ensures d in Next(s, m).drivers
    ensures var x := Next(s, m).drivers[d];
      x.current || OwnerOf(Next(s, m).world.db, x.cycle) != Some(x.owner)
  {
    var x, a := s.drivers[d], ActionOf(s, m);
    if m.Act? {
      if !IsClaim(s.world, a, x.cycle, x.owner) && OwnerOf(s.world.db, x.cycle) != Some(x.owner) {
        OwnershipComesFromClaims(s.world, a, x.cycle, x.owner);
      }
    } else if Saves(s, m) {
      FencedWriteNeedsLiveOwnership(s.world, a, s.drivers[m.driver].cycle, s.drivers[m.driver].owner);
      SaveSetsSelection(s, m, x.cycle);
    }
  }

  lemma StandingStep(s: Sys, m: Move, ready: set<DriverId>)
    requires Standing(s, ready)
    ensures Standing(Next(s, m), ReadyAfter(s, m, ready))
  {
    var t := Next(s, m);
    forall d | d in ReadyAfter(s, m, ready)
      ensures d in t.drivers
      ensures t.drivers[d].current || OwnerOf(t.world.db, t.drivers[d].cycle) != Some(t.drivers[d].owner)
    {
      if d in ready { StaysStanding(s, m, ready, d); }
    }
  }

  /** The fence does the rest: an accepted save of a ready driver comes from one that is current, and a current driver
      is never behind. */
  lemma AcceptedMeansCurrent(s: Sys, m: Move, ready: set<DriverId>)
    requires SysInv(s) && Standing(s, ready) && Careful(m, ready)
    ensures Saves(s, m) ==> s.drivers[m.driver].current
    ensures Covers(s, m)
  {
    if Saves(s, m) {
      var x := s.drivers[m.driver];
      FencedWriteNeedsLiveOwnership(s.world, ActionOf(s, m), x.cycle, x.owner);
      assert DriverOk(x, s.world.db);
    }
  }

  lemma {:induction false} CarefulRunsCover(s: Sys, moves: seq<Move>, ready: set<DriverId>)
    requires SysInv(s) && Standing(s, ready) && AllCareful(s, moves, ready)
    ensures AllCover(s, moves)
    decreases moves
  {
    if moves != [] {
      AcceptedMeansCurrent(s, moves[0], ready);
      NextKeepsInv(s, moves[0]);
      StandingStep(s, moves[0], ready);
      CarefulRunsCover(Next(s, moves[0]), moves[1..], ReadyAfter(s, moves[0], ready));
    }
  }

  // ---------------------------------------------------------------- the counter over whole runs

  lemma StepNeverDecreases(s: Sys, m: Move, c: CycleId)
    requires Covers(s, m)
    ensures Persisted(s.world.db, c) <= Persisted(Next(s, m).world.db, c)
  {
    if Saves(s, m) { SaveSetsSelection(s, m, c); }
    else if m.Act? { ActKeepsSelections(s.world, ActionOf(s, m), c); }
  }

  lemma {:induction false} CounterNeverDecreases(s: Sys, moves: seq<Move>, c: CycleId)
    requires AllCover(s, moves)
    ensures Persisted(s.world.db, c) <= Persisted(Reached(s, moves).world.db, c)
    decreases moves
  {
    if moves != [] {
      StepNeverDecreases(s, moves[0], c);
      CounterNeverDecreases(Next(s, moves[0]), moves[1..], c);
    }
  }

  /** Across any crashes, restarts, takeovers and renewed claims the persisted counter never goes back. */
  lemma PersistedCounterNeverDecreases(s: Sys, moves: seq<Move>, ready: set<DriverId>, c: CycleId)
    requires SysInv(s) && Standing(s, ready) && AllCareful(s, moves, ready)
    ensures Persisted(s.world.db, c) <= Persisted(Reached(s, moves).world.db, c)
  {
    CarefulRunsCover(s, moves, ready);
    CounterNeverDecreases(s, moves, c);
  }

  /** A reservation that counts: its save commits. */
  predicate Grants(s: Sys, m: Move, c: CycleId) {
    m.Reserve? && Saves(s, m) && s.drivers[m.driver].cycle == c
  }

  /** Requests sent, and reservations still to be used. */
  function Spent(s: Sys, c: CycleId): nat { SendsOf(s, c) + |PermitsOf(s, c)| }

  lemma OneElement(p: set<DriverId>, d: DriverId)
    ensures |p - {d}| == |p| - (if d in p then 1 else 0)
    ensures |p + {d}| <= |p| + 1
  {
    if d in p { assert p + {d} == p; } else { assert p - {d} == p; }
  }

  /** How a move changes the permits of one cycle. */
  lemma StepPermits(s: Sys, m: Move, c: CycleId)
    ensures m.Act? || m.Open? ==> PermitsOf(Next(s, m), c) == PermitsOf(s, c) && SendsOf(Next(s, m), c) == SendsOf(s, c)
    ensures m.Save? || m.Reserve? ==>
      && SendsOf(Next(s, m), c) == SendsOf(s, c)
      && PermitsOf(Next(s, m), c) == PermitsOf(s, c) + (if Grants(s, m, c) then {m.driver} else {})
    ensures m.Crash? ==>
      && SendsOf(Next(s, m), c) == SendsOf(s, c)
      && PermitsOf(Next(s, m), c) <= PermitsOf(s, c)
    ensures m.Send? ==>
      || (SendsOf(Next(s, m), c) == SendsOf(s, c) && PermitsOf(Next(s, m), c) == PermitsOf(s, c))
      || (SendsOf(Next(s, m), c) == SendsOf(s, c) + 1 && m.driver in PermitsOf(s, c)
          && PermitsOf(Next(s, m), c) == PermitsOf(s, c) - {m.driver})
  {
  }

  lemma StepSpends(s: Sys, m: Move, c: CycleId)
    ensures Spent(Next(s, m), c) <= Spent(s, c) + (if Grants(s, m, c) then 1 else 0)
  {
    StepPermits(s, m, c);
    if m.Crash? {
      SubsetCardinality(PermitsOf(Next(s, m), c), PermitsOf(s, c));
    } else if !m.Act? && !m.Open? {
      OneElement(PermitsOf(s, c), m.driver);
    }
  }

  lemma {:induction false} SpentIsCounted(s: Sys, moves: seq<Move>, c: CycleId)
    requires AllCover(s, moves) && Spent(s, c) <= Persisted(s.world.db, c)
    ensures Spent(Reached(s, moves), c) <= Persisted(Reached(s, moves).world.db, c)
    decreases moves
  {
    if moves != [] {
      StepSpends(s, moves[0], c);
      StepNeverDecreases(s, moves[0], c);
      if Saves(s, moves[0]) { SavesCountExactly(s, moves[0]); }
      SpentIsCounted(Next(s, moves[0]), moves[1..], c);
    }
  }

  /** Requests sent by the transports, and reservations still waiting to be used, never exceed the persisted counter,
      which never exceeds the persisted limit. */
  lemma SendsAreCountedAndBounded(s: Sys, moves: seq<Move>, c: CycleId)
    requires Initial(s) && AllCareful(s, moves, {})
    ensures var t := Reached(s, moves);
      && SendsOf(t, c) + |PermitsOf(t, c)| <= Persisted(t.world.db, c)
      && (SelectionOf(t.world.db, c).Some? ==> Persisted(t.world.db, c) <= SelectionOf(t.world.db, c).value.maxRequests)
      && (SelectionOf(t.world.db, c).None? ==> SendsOf(t, c) == 0)
  {
    CarefulRunsCover(s, moves, {});
    SpentIsCounted(s, moves, c);
    CounterStaysWithinTheLimit(s, moves, c);
  }

  // ---------------------------------------------------------------- when tenure ends

  /** An accepted claim of another owner, or a selection saved by another driver. */
  predicate Interrupts(s: Sys, m: Move, d: DriverId) {
    && d in s.drivers && Succeeds(s, m) && Foreign(ActionOf(s, m), s.drivers[d])
    && !((m.Save? || m.Reserve?) && m.driver == d)
  }

  ghost function InterruptionsOf(s: Sys, moves: seq<Move>, d: DriverId): nat
    decreases moves
  {
    if moves == [] then 0
    else (if Interrupts(s, moves[0], d) then 1 else 0) + InterruptionsOf(Next(s, moves[0]), moves[1..], d)
  }

  /** A driver stays current exactly as long as no other owner's claim and no other driver's save is accepted: its
      owner's own claims change nothing. */
  lemma {:induction false} TenureEndsExactly(s: Sys, moves: seq<Move>, d: DriverId)
    requires d in s.drivers && Crash(d) !in moves
    ensures d in Reached(s, moves).drivers
    ensures Reached(s, moves).drivers[d].current <==> s.drivers[d].current && InterruptionsOf(s, moves, d) == 0
    decreases moves
  {
    if moves != [] {
      var m := moves[0];
      assert m in moves && forall x | x in moves[1..] :: x in moves;
      TenureEndsExactly(Next(s, m), moves[1..], d);
    }
  }

  // ---------------------------------------------------------------- when a reservation is granted

  ghost function GrantsIn(s: Sys, moves: seq<Move>, c: CycleId): nat
    decreases moves
  {
    if moves == [] then 0 else (if Grants(s, moves[0], c) then 1 else 0) + GrantsIn(Next(s, moves[0]), moves[1..], c)
  }

  /** No reservation is accepted without the live lease of a RUNNING cycle, whoever asks. */
  lemma ReservationNeedsTheLease(s: Sys, m: Move, c: CycleId)
    requires Inv(s.world.db) && Grants(s, m, c)
    ensures c in s.world.db.runs && s.world.db.runs[c].Fenced(s.drivers[m.driver].owner, s.world.clock)
    ensures s.world.db.runs[c].status.Running?
  {
    assert RunOk(s.world.db.runs[c]);
  }

  /** Once cancellation is requested, or the cycle published or ended, no reservation is ever accepted again. */
  lemma {:induction false} NoReservationAfterCancellation(s: Sys, moves: seq<Move>, c: CycleId)
    requires Inv(s.world.db) && c in s.world.db.runs
    requires !s.world.db.runs[c].status.Accepted? && !s.world.db.runs[c].status.Running?
    ensures GrantsIn(s, moves, c) == 0
    decreases moves
  {
    if moves != [] {
      var m := moves[0];
      assert Next(s, m).world == Step(s.world, ActionOf(s, m));
      OneStepLater(s.world, ActionOf(s, m), c);
      if Grants(s, m, c) { ReservationNeedsTheLease(s, m, c); }
      NoReservationAfterCancellation(Next(s, m), moves[1..], c);
    }
  }
}
