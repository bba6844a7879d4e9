/** The driver's passes of one handle while every other worker, operator and transport goes on between its steps. */
module InterleavedPass {
  import opened Common
  import opened CycleTables
  import opened CycleProtocol
  import opened CheckpointSessions
  import opened DriverLoops
  import opened OnboardLoop

  // ---------------------------------------------------------------- what a handle remembers

  /** A row that some handle, current or overtaken, calls restorable is the durable row. */
  ghost predicate Remembers(s: Sys, maxAttempts: int) {
    forall h, k | h in s.sessions && k in s.sessions[h].rows && Restorable(s.sessions[h].rows, k, maxAttempts).Some? ::
      k in s.world.db.progress && s.world.db.progress[k] == s.sessions[h].rows[k]
  }

  ghost predicate Sound(s: Sys, ready: set<HandleId>, maxAttempts: int) {
    SysInv(s) && NoPendingRows(s.world.db) && Standing(s, ready) && Remembers(s, maxAttempts)
  }

  lemma {:induction false} WrittenRowIsRemembered(s: Sys, m: Move, ready: set<HandleId>, maxAttempts: int)
    requires SysInv(s) && Standing(s, ready) && Writes(s, m) && Succeeds(s, m) && m.handle in ready
    ensures var rows := Mirrored(s.sessions[m.handle], m).rows; var db := Next(s, m).world.db;
      m.key in rows && m.key in db.progress
      && (Restorable(rows, m.key, maxAttempts).Some? ==> db.progress[m.key] == rows[m.key])
  {
    AcceptedMeansCurrent(s, m, ready);
    assert SessionOk(s.sessions[m.handle], s.world.db);
  }

  /** Elsewhere a move leaves a handle's row as it was, or as the tables have it. */
  lemma {:induction false} HandleMoves(s: Sys, m: Move, h: HandleId, k: Key)
    requires h in Next(s, m).sessions && k in Next(s, m).sessions[h].rows
    requires !(Writes(s, m) && Succeeds(s, m) && h == m.handle && k == m.key)
    ensures
      || (h in s.sessions && k in s.sessions[h].rows && Next(s, m).sessions[h].rows[k] == s.sessions[h].rows[k])
      || (k in Next(s, m).world.db.progress && Next(s, m).sessions[h].rows[k] == Next(s, m).world.db.progress[k])
  {
  }

  /** One row of one handle. */
  lemma {:induction false} RowIsRemembered(s: Sys, m: Move, ready: set<HandleId>, h: HandleId, k: Key, maxAttempts: int)
    requires Sound(s, ready, maxAttempts) && Careful(s, m, ready, maxAttempts)
    requires h in Next(s, m).sessions && k in Next(s, m).sessions[h].rows
    requires Restorable(Next(s, m).sessions[h].rows, k, maxAttempts).Some?
    ensures k in Next(s, m).world.db.progress && Next(s, m).world.db.progress[k] == Next(s, m).sessions[h].rows[k]
  {
    if Writes(s, m) && Succeeds(s, m) && h == m.handle && k == m.key {
      WrittenRowIsRemembered(s, m, ready, maxAttempts);
    } else {
      HandleMoves(s, m, h, k);
      CarefulStep(s, m, ready, k, maxAttempts);
    }
  }

  lemma {:induction false} NextRemembers(s: Sys, m: Move, ready: set<HandleId>, maxAttempts: int)
    requires Sound(s, ready, maxAttempts) && Careful(s, m, ready, maxAttempts)
    ensures Sound(Next(s, m), ReadyAfter(s, m, ready), maxAttempts)
  {
    var t := Next(s, m);
    NextKeepsInv(s, m);
    StandingStep(s, m, ready, maxAttempts);
    CarefulStep(s, m, ready, Key(0, Baseline, 0), maxAttempts);
    forall h, k | h in t.sessions && k in t.sessions[h].rows && Restorable(t.sessions[h].rows, k, maxAttempts).Some?
      ensures k in t.world.db.progress && t.world.db.progress[k] == t.sessions[h].rows[k]
    {
      RowIsRemembered(s, m, ready, h, k, maxAttempts);
    }
  }

  /** Over any careful run, whatever a handle calls restorable, even one long overtaken, is the durable row. */
  lemma {:induction false} RunRemembers(s: Sys, moves: seq<Move>, ready: set<HandleId>, maxAttempts: int)
    requires Sound(s, ready, maxAttempts) && AllCareful(s, moves, ready, maxAttempts)
    ensures Sound(Reached(s, moves), ReadyThen(s, moves, ready), maxAttempts)
    decreases moves
  {
    if moves != [] {
      NextRemembers(s, moves[0], ready, maxAttempts);
      RunRemembers(Next(s, moves[0]), moves[1..], ReadyAfter(s, moves[0], ready), maxAttempts);
    }
  }

  // ---------------------------------------------------------------- the steps of a pass

  /** A step of the driver on one item, after whatever others do before it: to start the item unless the handle calls
      its row restorable, or to conclude it with what acquisition yields unless the handle does. */
  datatype Step =
    | Take(before: seq<Move>, key: Key)
    | Conclude(before: seq<Move>, key: Key, state: CandidateState, disposition: Opaque, record: Opaque)

  /** Where a pass is: the system, the ready handles, the outcomes reported so far, and whether a write was refused. */
  datatype Course = Course(sys: Sys, ready: set<HandleId>, outcomes: seq<Option<Opaque>>, lost: bool)

  function MoveOf(h: HandleId, st: Step): Move {
    match st
    case Take(_, k) => Begin(h, k)
    case Conclude(_, k, state, d, r) => Finish(h, k, state, Some(d), None, Some(r))
  }

  predicate Reuses(s: Sys, h: HandleId, k: Key, maxAttempts: int) {
    h in s.sessions && Restorable(s.sessions[h].rows, k, maxAttempts).Some?
  }

  /** The moves before the step. */
  function Awaited(c: Course, st: Step): Course {
    c.(sys := Reached(c.sys, st.before), ready := ReadyThen(c.sys, st.before, c.ready))
  }

  /** The step itself. */
  function Stepped(c: Course, h: HandleId, st: Step, maxAttempts: int): Course {
    if Reuses(c.sys, h, st.key, maxAttempts) then
      if st.Take? then c
      else c.(outcomes := c.outcomes + [Restorable(c.sys.sessions[h].rows, st.key, maxAttempts).value.payload])
    else if !Writes(c.sys, MoveOf(h, st)) || !Succeeds(c.sys, MoveOf(h, st)) then c.(lost := true)
    else
      c.(sys := Next(c.sys, MoveOf(h, st)), ready := ReadyAfter(c.sys, MoveOf(h, st), c.ready),
         outcomes := if st.Take? then c.outcomes else c.outcomes + [Some(st.record)])
  }

  function Pass(c: Course, h: HandleId, steps: seq<Step>, maxAttempts: int): Course
    decreases steps
  {
    if steps == [] || c.lost then c
    else Pass(Stepped(Awaited(c, steps[0]), h, steps[0], maxAttempts), h, steps[1..], maxAttempts)
  }

  ghost predicate ByOthers(moves: seq<Move>, h: HandleId) {
    forall m | m in moves :: !Handles(m, h) && !OwnWrite(m, h)
  }

  /** What happens around the pass: others keep to the discipline and leave the handle alone, and the pass writes only
      while the handle is ready. */
  ghost predicate Orderly(c: Course, h: HandleId, steps: seq<Step>, maxAttempts: int)
    decreases steps
  {
    steps == [] || c.lost ||
    var st := steps[0]; var u := Awaited(c, st);
    && AllCareful(c.sys, st.before, c.ready, maxAttempts) && ByOthers(st.before, h)
    && (h in u.ready || Reuses(u.sys, h, st.key, maxAttempts))
    && Orderly(Stepped(u, h, st, maxAttempts), h, steps[1..], maxAttempts)
  }

  /** Every conclusion follows the start of its item; `open` are those started and not yet concluded for good. */
  predicate InOrder(steps: seq<Step>, open: set<Key>)
    decreases steps
  {
    steps == [] ||
    ((steps[0].Conclude? ==> steps[0].key in open && (steps[0].state.Final() || steps[0].state.RetryableFailure?))
     && InOrder(steps[1..], OpenAfter(steps[0], open)))
  }

  function OpenAfter(st: Step, open: set<Key>): set<Key> {
    if st.Take? then open + {st.key} else if st.state.Final() then open else open - {st.key}
  }

  /** What the handle holds of the items that are open: IN_PROGRESS, or a row it calls restorable. */
  ghost predicate HoldsOpen(s: Sys, h: HandleId, open: set<Key>, maxAttempts: int) {
    && h in s.sessions
    && forall k | k in open ::
         k in s.sessions[h].rows
         && (s.sessions[h].rows[k].state.InProgress? || Restorable(s.sessions[h].rows, k, maxAttempts).Some?)
  }

  ghost predicate Underway(c: Course, h: HandleId, open: set<Key>, maxAttempts: int) {
    !c.lost && Sound(c.sys, c.ready, maxAttempts) && HoldsOpen(c.sys, h, open, maxAttempts)
  }

  lemma {:induction false} OthersLeaveTheRows(s: Sys, moves: seq<Move>, h: HandleId)
    requires h in s.sessions && ByOthers(moves, h)
    ensures h in Reached(s, moves).sessions
    ensures Reached(s, moves).sessions[h].rows == s.sessions[h].rows
    ensures Reached(s, moves).sessions[h].cycle == s.sessions[h].cycle
    ensures Reached(s, moves).sessions[h].owner == s.sessions[h].owner
    decreases moves
  {
    if moves != [] {
      var m := moves[0];
      assert m in moves && forall x | x in moves[1..] :: x in moves;
      OthersLeaveTheRows(Next(s, m), moves[1..], h);
    }
  }

  lemma {:induction false} AwaitedIsUnderway(c: Course, h: HandleId, st: Step, open: set<Key>, maxAttempts: int)
    requires Underway(c, h, open, maxAttempts)
    requires AllCareful(c.sys, st.before, c.ready, maxAttempts) && ByOthers(st.before, h)
    ensures Underway(Awaited(c, st), h, open, maxAttempts)
    ensures Awaited(c, st).sys.sessions[h].rows == c.sys.sessions[h].rows
    ensures Awaited(c, st).sys.sessions[h].cycle == c.sys.sessions[h].cycle
    ensures Awaited(c, st).sys.sessions[h].owner == c.sys.sessions[h].owner
  {
    RunRemembers(c.sys, st.before, c.ready, maxAttempts);
    OthersLeaveTheRows(c.sys, st.before, h);
  }

  /** The pass keeps to the discipline of itself: its order sees to it that what it concludes is IN_PROGRESS. */
  lemma {:induction false} OwnMoveIsCareful(c: Course, h: HandleId, st: Step, open: set<Key>, maxAttempts: int)
    requires Underway(c, h, open, maxAttempts) && InOrder([st], open)
    requires h in c.ready && !Reuses(c.sys, h, st.key, maxAttempts) && Writes(c.sys, MoveOf(h, st))
    ensures Careful(c.sys, MoveOf(h, st), c.ready, maxAttempts)
  {
  }

  /** The handle's own rows after its step. */
  lemma {:induction false} OwnRows(c: Course, h: HandleId, st: Step, open: set<Key>, maxAttempts: int)
    requires Underway(c, h, open, maxAttempts) && InOrder([st], open) && !Stepped(c, h, st, maxAttempts).lost
    ensures var t := Stepped(c, h, st, maxAttempts).sys;
      && HoldsOpen(t, h, OpenAfter(st, open), maxAttempts)
      && t.sessions[h].cycle == c.sys.sessions[h].cycle && t.sessions[h].owner == c.sys.sessions[h].owner
      && (st.Conclude? ==> HoldsSettled(t, h, st.key))
      && (forall k | k != st.key && HoldsSettled(c.sys, h, k) :: HoldsSettled(t, h, k))
  {
  }

  lemma {:induction false} StepGoesOn(c: Course, h: HandleId, st: Step, open: set<Key>, maxAttempts: int)
    requires Underway(c, h, open, maxAttempts) && InOrder([st], open) && !Stepped(c, h, st, maxAttempts).lost
    requires h in c.ready || Reuses(c.sys, h, st.key, maxAttempts)
    ensures Underway(Stepped(c, h, st, maxAttempts), h, OpenAfter(st, open), maxAttempts)
  {
    OwnRows(c, h, st, open, maxAttempts);
    if !Reuses(c.sys, h, st.key, maxAttempts) {
      OwnMoveIsCareful(c, h, st, open, maxAttempts);
      NextRemembers(c.sys, MoveOf(h, st), c.ready, maxAttempts);
    }
  }

  /** The handle holds a settled row: its attempt has been brought to an end. */
  predicate HoldsSettled(s: Sys, h: HandleId, k: Key) {
    && h in s.sessions && k in s.sessions[h].rows
    && (s.sessions[h].rows[k].state.Final() || s.sessions[h].rows[k].state.RetryableFailure?)
  }

  // ---------------------------------------------------------------- the BASELINE pass

  /** The durable row is restorable and carries the outcome. */
  predicate Carries(db: Db, k: Key, outcome: Option<Opaque>, maxAttempts: int) {
    k in db.progress && Restorable(db.progress, k, maxAttempts).Some? && db.progress[k].payload == outcome
  }

  ghost predicate Reporting(c: Course, keys: seq<Key>, maxAttempts: int) {
    && |c.outcomes| == |keys|
    && forall i | 0 <= i < |keys| :: Carries(c.sys.world.db, keys[i], c.outcomes[i], maxAttempts)
  }

  /** The items concluded, in order. */
  function Concluded(steps: seq<Step>): seq<Key> {
    if steps == [] then [] else (if steps[0].Conclude? then [steps[0].key] else []) + Concluded(steps[1..])
  }

  lemma {:induction false} CarriedOn(s: Sys, moves: seq<Move>, ready: set<HandleId>, k: Key, outcome: Option<Opaque>,
                                     maxAttempts: int)
    requires Sound(s, ready, maxAttempts) && AllCareful(s, moves, ready, maxAttempts)
    requires Carries(s.world.db, k, outcome, maxAttempts)
    ensures Carries(Reached(s, moves).world.db, k, outcome, maxAttempts)
  {
    RestorableRowsAreNeverRewritten(s, moves, ready, k, maxAttempts);
  }

  /** One step reports what it concludes and keeps what was reported. */
  lemma {:induction false} StepReports(c: Course, h: HandleId, st: Step, open: set<Key>, keys: seq<Key>,
                                       maxAttempts: int)
    requires Underway(c, h, open, maxAttempts) && InOrder([st], open) && !Stepped(c, h, st, maxAttempts).lost
    requires h in c.ready || Reuses(c.sys, h, st.key, maxAttempts)
    requires (st.Conclude? ==> st.state.Final()) && Reporting(c, keys, maxAttempts)
    ensures Reporting(Stepped(c, h, st, maxAttempts), keys + (if st.Conclude? then [st.key] else []), maxAttempts)
  {
    var d := Stepped(c, h, st, maxAttempts);
    StepGoesOn(c, h, st, open, maxAttempts);
    forall i | 0 <= i < |keys| ensures Carries(d.sys.world.db, keys[i], d.outcomes[i], maxAttempts) {
      if !Reuses(c.sys, h, st.key, maxAttempts) {
        OwnMoveIsCareful(c, h, st, open, maxAttempts);
        CarefulStep(c.sys, MoveOf(h, st), c.ready, keys[i], maxAttempts);
      }
    }
    if st.Conclude? { ConclusionIsCarried(c, h, st, open, maxAttempts); }
  }

  lemma {:induction false} ConclusionIsCarried(c: Course, h: HandleId, st: Step, open: set<Key>, maxAttempts: int)
    requires Underway(c, h, open, maxAttempts) && InOrder([st], open) && !Stepped(c, h, st, maxAttempts).lost
    requires h in c.ready || Reuses(c.sys, h, st.key, maxAttempts)
    requires st.Conclude? && st.state.Final()
    ensures var d := Stepped(c, h, st, maxAttempts);
      |d.outcomes| == |c.outcomes| + 1 && Carries(d.sys.world.db, st.key, d.outcomes[|c.outcomes|], maxAttempts)
  {
  }

  ghost predicate AllFinal(steps: seq<Step>) { forall st | st in steps :: st.Conclude? ==> st.state.Final() }

  /** The first step of a pass that is not lost, and the rest of it. */
  lemma {:induction false} FirstStep(c: Course, h: HandleId, steps: seq<Step>, maxAttempts: int)
    requires steps != [] && !c.lost && Orderly(c, h, steps, maxAttempts) && !Pass(c, h, steps, maxAttempts).lost
    ensures var st := steps[0]; var u := Awaited(c, st); var d := Stepped(u, h, st, maxAttempts);
      && !d.lost && Pass(c, h, steps, maxAttempts) == Pass(d, h, steps[1..], maxAttempts)
      && Orderly(d, h, steps[1..], maxAttempts)
      && AllCareful(c.sys, st.before, c.ready, maxAttempts) && ByOthers(st.before, h)
      && (h in u.ready || Reuses(u.sys, h, st.key, maxAttempts))
  {
  }

  lemma {:induction false} FirstAndRest(steps: seq<Step>, open: set<Key>, keys: seq<Key>)
    requires steps != [] && InOrder(steps, open) && AllFinal(steps)
    ensures InOrder([steps[0]], open) && InOrder(steps[1..], OpenAfter(steps[0], open)) && AllFinal(steps[1..])
    ensures steps[0].Conclude? ==> steps[0].state.Final()
    ensures keys + (if steps[0].Conclude? then [steps[0].key] else []) + Concluded(steps[1..]) ==
      keys + Concluded(steps)
  {
    var first := steps[0];
    OneStepInOrder(first, open);
    assert first in steps;
    forall x | x in steps[1..] ensures x.Conclude? ==> x.state.Final() { assert x in steps; }
    InThreeParts(keys, if first.Conclude? then [first.key] else [], Concluded(steps[1..]));
  }

  lemma {:induction false} InThreeParts(a: seq<Key>, b: seq<Key>, c: seq<Key>)
    ensures a + b + c == a + (b + c)
  {
  }

  /** A step of the pass, others' moves before it included. */
  lemma {:induction false} AwaitedStepReports(c: Course, h: HandleId, st: Step, open: set<Key>, keys: seq<Key>,
                                              maxAttempts: int)
    requires Underway(c, h, open, maxAttempts) && InOrder([st], open) && Reporting(c, keys, maxAttempts)
    requires AllCareful(c.sys, st.before, c.ready, maxAttempts) && ByOthers(st.before, h)
    requires var u := Awaited(c, st);
      (h in u.ready || Reuses(u.sys, h, st.key, maxAttempts)) && !Stepped(u, h, st, maxAttempts).lost
    requires st.Conclude? ==> st.state.Final()
    ensures var d := Stepped(Awaited(c, st), h, st, maxAttempts);
      && Underway(d, h, OpenAfter(st, open), maxAttempts)
      && Reporting(d, keys + (if st.Conclude? then [st.key] else []), maxAttempts)
  {
    var u := Awaited(c, st);
    AwaitedIsUnderway(c, h, st, open, maxAttempts);
    forall i | 0 <= i < |keys| ensures Carries(u.sys.world.db, keys[i], c.outcomes[i], maxAttempts) {
      CarriedOn(c.sys, st.before, c.ready, keys[i], c.outcomes[i], maxAttempts);
    }
    StepReports(u, h, st, open, keys, maxAttempts);
    StepGoesOn(u, h, st, open, maxAttempts);
  }

  /** A pass under way that reports. */
  ghost predicate OnCourse(c: Course, h: HandleId, steps: seq<Step>, open: set<Key>, keys: seq<Key>, maxAttempts: int) {
    && Underway(c, h, open, maxAttempts) && InOrder(steps, open) && AllFinal(steps) && Reporting(c, keys, maxAttempts)
    && Orderly(c, h, steps, maxAttempts) && !Pass(c, h, steps, maxAttempts).lost
  }

  /** The pass goes on after its first step. */
  lemma {:induction false} Advance(c: Course, h: HandleId, steps: seq<Step>, open: set<Key>, keys: seq<Key>,
                                   maxAttempts: int)
    returns (d: Course)
    requires steps != [] && InOrder([steps[0]], open) && (steps[0].Conclude? ==> steps[0].state.Final())
    requires Underway(c, h, open, maxAttempts) && Reporting(c, keys, maxAttempts)
    requires Orderly(c, h, steps, maxAttempts) && !Pass(c, h, steps, maxAttempts).lost
    ensures Underway(d, h, OpenAfter(steps[0], open), maxAttempts)
    ensures Reporting(d, keys + (if steps[0].Conclude? then [steps[0].key] else []), maxAttempts)
    ensures Orderly(d, h, steps[1..], maxAttempts)
      && Pass(c, h, steps, maxAttempts) == Pass(d, h, steps[1..], maxAttempts)
  {
    FirstStep(c, h, steps, maxAttempts);
    AwaitedStepReports(c, h, steps[0], open, keys, maxAttempts);
    d := Stepped(Awaited(c, steps[0]), h, steps[0], maxAttempts);
  }

  lemma {:induction false} StaysOnCourse(c: Course, h: HandleId, steps: seq<Step>, open: set<Key>, keys: seq<Key>,
                                         maxAttempts: int) returns (d: Course, next: set<Key>, more: seq<Key>)
    requires steps != [] && OnCourse(c, h, steps, open, keys, maxAttempts)
    ensures OnCourse(d, h, steps[1..], next, more, maxAttempts)
    ensures Pass(c, h, steps, maxAttempts) == Pass(d, h, steps[1..], maxAttempts)
    ensures more + Concluded(steps[1..]) == keys + Concluded(steps)
  {
    FirstAndRest(steps, open, keys);
    d := Advance(c, h, steps, open, keys, maxAttempts);
    next, more := OpenAfter(steps[0], open), keys + (if steps[0].Conclude? then [steps[0].key] else []);
  }

  lemma {:induction false} PassReports(c: Course, h: HandleId, steps: seq<Step>, open: set<Key>, keys: seq<Key>,
                                       maxAttempts: int)
    requires OnCourse(c, h, steps, open, keys, maxAttempts)
    ensures Reporting(Pass(c, h, steps, maxAttempts), keys + Concluded(steps), maxAttempts)
    decreases steps
  {
    if steps == [] {
      assert keys + Concluded(steps) == keys;
    } else {
      var d, next, more := StaysOnCourse(c, h, steps, open, keys, maxAttempts);
      PassReports(d, h, steps[1..], next, more, maxAttempts);
    }
  }

  /** An item of the universe, what others do before it is started and before it is finished, and its record. */
  datatype Plan = Plan(key: Key, first: seq<Move>, second: seq<Move>, disposition: Opaque, record: Opaque)

  function Takes(batch: seq<Plan>): seq<Step> {
    if batch == [] then [] else [Take(batch[0].first, batch[0].key)] + Takes(batch[1..])
  }

  function Conclusions(batch: seq<Plan>): seq<Step> {
    if batch == [] then []
    else [Conclude(batch[0].second, batch[0].key, TerminalOutcome, batch[0].disposition, batch[0].record)]
         + Conclusions(batch[1..])
  }

  /** The BASELINE loop: five items a batch, all started before the first is finished. */
  function BaselineSteps(universe: seq<Plan>): seq<Step> {
    if universe == [] then []
    else
      var n := Min(5, |universe|);
      Takes(universe[..n]) + Conclusions(universe[..n]) + BaselineSteps(universe[n..])
  }

  function KeysOf(batch: seq<Plan>): seq<Key> { seq(|batch|, i requires 0 <= i < |batch| => batch[i].key) }

  lemma {:induction false} InOrderOfTwo(a: seq<Step>, b: seq<Step>, open: set<Key>, after: set<Key>)
    requires OpenThen(a, open) == after && InOrder(a, open) && InOrder(b, after)
    ensures InOrder(a + b, open) && Concluded(a + b) == Concluded(a) + Concluded(b)
    decreases a
  {
    if a == [] {
      assert a + b == b;
    } else {
      assert (a + b)[1..] == a[1..] + b;
      InOrderOfTwo(a[1..], b, OpenAfter(a[0], open), after);
      var first := if a[0].Conclude? then [a[0].key] else [];
      assert first + (Concluded(a[1..]) + Concluded(b)) == (first + Concluded(a[1..])) + Concluded(b);
    }
  }

  function OpenThen(steps: seq<Step>, open: set<Key>): set<Key>
    decreases steps
  {
    if steps == [] then open else OpenThen(steps[1..], OpenAfter(steps[0], open))
  }

  lemma {:induction false} TakesOpen(batch: seq<Plan>, open: set<Key>)
    ensures InOrder(Takes(batch), open) && Concluded(Takes(batch)) == [] && AllFinal(Takes(batch))
    ensures OpenThen(Takes(batch), open) == open + set k | k in KeysOf(batch)
    decreases batch
  {
    if batch != [] {
      var rest := batch[1..];
      assert Takes(batch)[1..] == Takes(rest);
      TakesOpen(rest, open + {batch[0].key});
      assert KeysOf(batch) == [batch[0].key] + KeysOf(rest);
    }
  }

  lemma {:induction false} ConclusionsClose(batch: seq<Plan>, open: set<Key>)
    requires forall k | k in KeysOf(batch) :: k in open
    ensures InOrder(Conclusions(batch), open) && Concluded(Conclusions(batch)) == KeysOf(batch)
    ensures AllFinal(Conclusions(batch)) && OpenThen(Conclusions(batch), open) == open
    decreases batch
  {
    if batch != [] {
      var rest := batch[1..];
      assert Conclusions(batch)[1..] == Conclusions(rest);
      assert KeysOf(batch) == [batch[0].key] + KeysOf(rest);
      ConclusionsClose(rest, open);
    }
  }

  lemma {:induction false} BatchInOrder(batch: seq<Plan>, rest: seq<Step>, open: set<Key>, all: set<Key>)
    requires all == open + (set k | k in KeysOf(batch)) && InOrder(rest, all) && AllFinal(rest)
    ensures InOrder(Takes(batch) + Conclusions(batch) + rest, open)
    ensures Concluded(Takes(batch) + Conclusions(batch) + rest) == KeysOf(batch) + Concluded(rest)
    ensures AllFinal(Takes(batch) + Conclusions(batch) + rest)
  {
    TakesOpen(batch, open);
    ConclusionsClose(batch, all);
    InOrderOfTwo(Conclusions(batch), rest, all, all);
    InOrderOfTwo(Takes(batch), Conclusions(batch) + rest, open, all);
    assert Takes(batch) + Conclusions(batch) + rest == Takes(batch) + (Conclusions(batch) + rest);
    assert [] + (KeysOf(batch) + Concluded(rest)) == KeysOf(batch) + Concluded(rest);
  }

  lemma {:induction false} BatchesAreInOrder(universe: seq<Plan>, open: set<Key>)
    ensures InOrder(BaselineSteps(universe), open) && AllFinal(BaselineSteps(universe))
    ensures Concluded(BaselineSteps(universe)) == KeysOf(universe)
    decreases |universe|
  {
    if universe != [] {
      var n := Min(5, |universe|);
      var batch, rest := universe[..n], universe[n..];
      var all := open + set k | k in KeysOf(batch);
      BatchesAreInOrder(rest, all);
      BatchInOrder(batch, BaselineSteps(rest), open, all);
      assert KeysOf(universe) == KeysOf(batch) + KeysOf(rest);
    }
  }

  /** Whatever everybody else does between its steps, takeovers included: a BASELINE pass of a ready handle that
      completes reports for every item of the universe, in order, the outcome its durable row carries when the pass
      ends. */
  lemma {:induction false} InterleavedPassReports(s: Sys, moves: seq<Move>, h: HandleId, universe: seq<Plan>,
                                                  maxAttempts: int)
    requires Initial(s) && AllCareful(s, moves, {}, maxAttempts) && h in Reached(s, moves).sessions
    requires var c := Course(Reached(s, moves), ReadyThen(s, moves, {}), [], false);
      && Orderly(c, h, BaselineSteps(universe), maxAttempts)
      && !Pass(c, h, BaselineSteps(universe), maxAttempts).lost
    ensures var c := Course(Reached(s, moves), ReadyThen(s, moves, {}), [], false);
      Reporting(Pass(c, h, BaselineSteps(universe), maxAttempts), KeysOf(universe), maxAttempts)
  {
    RunRemembers(s, moves, {}, maxAttempts);
    BatchesAreInOrder(universe, {});
    var c := Course(Reached(s, moves), ReadyThen(s, moves, {}), [], false);
    PassReports(c, h, BaselineSteps(universe), {}, [], maxAttempts);
    assert [] + KeysOf(universe) == KeysOf(universe);
  }

  // ---------------------------------------------------------------- the ETF_ONBOARD pass

  /** One item: what others do before it is started and while its history is acquired, and what acquisition yields. */
  datatype Visit = Visit(before: seq<Move>, during: seq<Move>, key: Key, status: HistoryStatus, payload: Opaque)

  /** The ETF_ONBOARD loop: each item is concluded before the next is started. */
  function OnboardSteps(visits: seq<Visit>): seq<Step> {
    if visits == [] then []
    else
      var v := visits[0];
      [Take(v.before, v.key), Conclude(v.during, v.key, HistoryState(v.status), Disposition(v.status), v.payload)]
      + OnboardSteps(visits[1..])
  }

  lemma {:induction false} OneStepInOrder(st: Step, open: set<Key>)
    requires st.Conclude? ==> st.key in open && (st.state.Final() || st.state.RetryableFailure?)
    ensures InOrder([st], open)
  {
    assert [st][1..] == [];
  }

  /** An onboarding under way, with these items settled in the handle. */
  ghost predicate Visiting(c: Course, h: HandleId, steps: seq<Step>, open: set<Key>, settled: set<Key>,
                           maxAttempts: int) {
    && Underway(c, h, open, maxAttempts) && (forall k | k in settled :: HoldsSettled(c.sys, h, k))
    && Orderly(c, h, steps, maxAttempts) && !Pass(c, h, steps, maxAttempts).lost
  }

  predicate SameHolder(s: Sys, t: Sys, h: HandleId) {
    && h in s.sessions && h in t.sessions
    && t.sessions[h].cycle == s.sessions[h].cycle && t.sessions[h].owner == s.sessions[h].owner
  }

  lemma {:induction false} StepSettles(c: Course, h: HandleId, steps: seq<Step>, open: set<Key>, settled: set<Key>,
                                       after: set<Key>, maxAttempts: int) returns (d: Course)
    requires steps != [] && InOrder([steps[0]], open) && Visiting(c, h, steps, open, settled, maxAttempts)
    requires forall k | k in after :: if k == steps[0].key then steps[0].Conclude? else k in settled
    ensures Visiting(d, h, steps[1..], OpenAfter(steps[0], open), after, maxAttempts)
    ensures Pass(c, h, steps, maxAttempts) == Pass(d, h, steps[1..], maxAttempts) && SameHolder(c.sys, d.sys, h)
  {
    var st := steps[0];
    FirstStep(c, h, steps, maxAttempts);
    var u := Awaited(c, st);
    AwaitedIsUnderway(c, h, st, open, maxAttempts);
    forall k | k in settled ensures HoldsSettled(u.sys, h, k) { assert HoldsSettled(c.sys, h, k); }
    d := Stepped(u, h, st, maxAttempts);
    OwnRows(u, h, st, open, maxAttempts);
    StepGoesOn(u, h, st, open, maxAttempts);
  }

  /** Both steps of one visit. */
  lemma {:induction false} VisitSettles(c: Course, h: HandleId, visits: seq<Visit>, open: set<Key>, settled: set<Key>,
                                        maxAttempts: int)
    returns (e: Course, next: set<Key>)
    requires visits != [] && Visiting(c, h, OnboardSteps(visits), open, settled, maxAttempts)
    ensures Visiting(e, h, OnboardSteps(visits[1..]), next, settled + {visits[0].key}, maxAttempts)
    ensures Pass(c, h, OnboardSteps(visits), maxAttempts) == Pass(e, h, OnboardSteps(visits[1..]), maxAttempts)
    ensures SameHolder(c.sys, e.sys, h)
  {
    var v, steps := visits[0], OnboardSteps(visits);
    var take, conclude := steps[0], steps[1];
    assert steps[1..][0] == conclude && steps[1..][1..] == OnboardSteps(visits[1..]);
    OneStepInOrder(take, open);
    var d := StepSettles(c, h, steps, open, settled, settled - {v.key}, maxAttempts);
    OneStepInOrder(conclude, OpenAfter(take, open));
    e := StepSettles(d, h, steps[1..], OpenAfter(take, open), settled - {v.key}, settled + {v.key}, maxAttempts);
    next := OpenAfter(conclude, OpenAfter(take, open));
  }

  lemma {:induction false} OnboardingSettles(c: Course, h: HandleId, visits: seq<Visit>, open: set<Key>,
                                             settled: set<Key>, maxAttempts: int)
    requires Visiting(c, h, OnboardSteps(visits), open, settled, maxAttempts)
    ensures var d := Pass(c, h, OnboardSteps(visits), maxAttempts);
      && Sound(d.sys, d.ready, maxAttempts) && SameHolder(c.sys, d.sys, h)
      && (forall k | k in settled :: HoldsSettled(d.sys, h, k))
      && (forall i | 0 <= i < |visits| :: HoldsSettled(d.sys, h, visits[i].key))
    decreases visits
  {
    if visits != [] {
      var e, next := VisitSettles(c, h, visits, open, settled, maxAttempts);
      OnboardingSettles(e, h, visits[1..], next, settled + {visits[0].key}, maxAttempts);
    }
  }

  /** Whatever everybody else does between its transactions: an ETF_ONBOARD pass of a ready handle that completes
      leaves every visited item settled in the tables, if its owner holds the cycle when it ends and the handle is
      ready still. */
  lemma {:induction false} InterleavedOnboardingSettles(s: Sys, moves: seq<Move>, h: HandleId, visits: seq<Visit>,
                                                        maxAttempts: int)
    requires Initial(s) && AllCareful(s, moves, {}, maxAttempts) && h in Reached(s, moves).sessions
    requires forall v | v in visits :: v.key.cycle == Reached(s, moves).sessions[h].cycle
    requires var c := Course(Reached(s, moves), ReadyThen(s, moves, {}), [], false);
      && Orderly(c, h, OnboardSteps(visits), maxAttempts)
      && !Pass(c, h, OnboardSteps(visits), maxAttempts).lost
    ensures var x := Reached(s, moves).sessions[h];
      var d := Pass(Course(Reached(s, moves), ReadyThen(s, moves, {}), [], false), h, OnboardSteps(visits),
                    maxAttempts);
      h in d.ready && OwnerOf(d.sys.world.db, x.cycle) == Some(x.owner) ==>
        forall i | 0 <= i < |visits| :: Settled(d.sys.world.db, visits[i].key)
  {
    RunRemembers(s, moves, {}, maxAttempts);
    var c := Course(Reached(s, moves), ReadyThen(s, moves, {}), [], false);
    OnboardingSettles(c, h, visits, {}, {}, maxAttempts);
    var d := Pass(c, h, OnboardSteps(visits), maxAttempts);
    var x := Reached(s, moves).sessions[h];
    if h in d.ready && OwnerOf(d.sys.world.db, x.cycle) == Some(x.owner) {
      assert d.sys.sessions[h].current && SessionOk(d.sys.sessions[h], d.sys.world.db);
      forall i | 0 <= i < |visits| ensures Settled(d.sys.world.db, visits[i].key) {
        assert visits[i] in visits && HoldsSettled(d.sys, h, visits[i].key);
      }
    }
  }
}
