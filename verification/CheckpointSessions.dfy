/** The worker's in-memory checkpoints beside the durable progress rows.

    A handle is any checkpoint object ever made, by whatever worker, before or after whatever claim; it lives on
    through claims of its own owner and of others until it is dropped. Handles interleave freely with one another and
    with every other transaction. */
module CheckpointSessions {
  import opened Common
  import opened CycleTables
  import opened CycleProtocol

  type Rows = map<Key, Row>

  type HandleId = int

  /** `current`: since the handle was loaded, or made when the cycle had no rows, by an owner that then held the cycle
      or could have, no other owner's claim has been accepted, nor a progress write by anything but this handle. */
  datatype Session = Session(owner: Owner, cycle: CycleId, current: bool, rows: Rows)

  datatype Sys = Sys(world: World, sessions: map<HandleId, Session>)

  datatype Move =
    | Act(act: Action)  // any transaction, claims included, that no handle performs
    | Open(handle: HandleId, owner: Owner, cycle: CycleId)
    | Load(handle: HandleId)
    | Begin(handle: HandleId, key: Key)
    | Finish(handle: HandleId, key: Key, state: CandidateState, disposition: Option<Opaque>,
             failureReason: Option<Opaque>, payload: Option<Opaque>)
    | Crash(handle: HandleId)

  /** cycle_progress: the durable rows of one cycle. */
  function RowsOf(db: Db, c: CycleId): Rows {
    map k | k in db.progress && k.cycle == c :: db.progress[k]
  }

  /** A final outcome, or a retryable failure whose repair budget is spent. */
  function Restorable(rows: Rows, k: Key, maxAttempts: int): Option<Row> {
    if k !in rows then None
    else if rows[k].state.Final() then Some(rows[k])
    else if rows[k].state.RetryableFailure? && rows[k].attempts >= maxAttempts then Some(rows[k])
    else None
  }

  /** A row is answered as it stands exactly if its state is final, or it is a failure that used its attempts up. */
  lemma RestorableMeans(rows: Rows, k: Key, maxAttempts: int)
    ensures Restorable(rows, k, maxAttempts).Some? <==>
      k in rows
      && (rows[k].state in {AnalysisCompleted, EvidenceUnavailable, TerminalOutcome}
          || (rows[k].state == RetryableFailure && maxAttempts <= rows[k].attempts))
    ensures Restorable(rows, k, maxAttempts).Some? ==> Restorable(rows, k, maxAttempts).value == rows[k]
  {
  }

  /** The handle's row after an accepted start: outcome fields of an earlier attempt stay behind. */
  function Begun(rows: Rows, k: Key): Rows {
    if k in rows then rows[k := rows[k].(state := InProgress, attempts := rows[k].attempts + 1)]
    else rows[k := Row(InProgress, None, None, 1, None)]
  }

  function AttemptsIn(rows: Rows, k: Key): nat { if k in rows then rows[k].attempts else 0 }

  function Finished(rows: Rows, k: Key, s: CandidateState, d: Option<Opaque>, f: Option<Opaque>,
                    p: Option<Opaque>): Rows {
    rows[k := Row(s, d, f, AttemptsIn(rows, k), p)]
  }

  function BeginAction(o: Owner, k: Key): Action { Perform(Record(o, k, InProgress, None, None, None, true)) }

  /** A write through an existing handle, on a row of its own cycle. */
  predicate Writes(s: Sys, m: Move) {
    (m.Begin? || m.Finish?) && m.handle in s.sessions && s.sessions[m.handle].cycle == m.key.cycle
  }

  /** The transaction a move performs; moves that touch no table let no time pass. */
  function ActionOf(s: Sys, m: Move): Action {
    match m
    case Act(act) => act
    case Begin(h, k) => if Writes(s, m) then BeginAction(s.sessions[h].owner, k) else Tick(0)
    case Finish(h, k, st, d, f, p) =>
      if Writes(s, m) then Perform(Record(s.sessions[h].owner, k, st, d, f, p, false)) else Tick(0)
    case _ => Tick(0)
  }

  predicate Succeeds(s: Sys, m: Move) { Commits(s.world, ActionOf(s, m)) }

  /** What ends a handle's tenure when somebody else does it. */
  predicate Foreign(a: Action, x: Session) {
    a.Perform? &&
    match a.op
    case OnRun(c, Claim(o, _, _)) => c == x.cycle && o != x.owner
    case Record(_, k, _, _, _, _, _) => k.cycle == x.cycle
    case _ => false
  }

  function Interrupted(a: Action, x: Session): Session { if Foreign(a, x) then x.(current := false) else x }

  function AllInterrupted(sessions: map<HandleId, Session>, a: Action): map<HandleId, Session> {
    map h | h in sessions :: Interrupted(a, sessions[h])
  }

  /** The writer's own handle after its accepted write. */
  function Mirrored(x: Session, m: Move): Session requires m.Begin? || m.Finish? {
    match m
    case Begin(_, k) => x.(rows := Begun(x.rows, k))
    case Finish(_, k, st, d, f, p) => x.(rows := Finished(x.rows, k, st, d, f, p))
  }

  predicate MayHold(db: Db, c: CycleId, o: Owner) { OwnerOf(db, c).None? || OwnerOf(db, c) == Some(o) }

  /** A new handle is empty; it speaks for the tables only if the cycle has no rows. */
  function Opened(db: Db, o: Owner, c: CycleId): Session {
    Session(o, c, MayHold(db, c, o) && RowsOf(db, c) == map[], map[])
  }

  function Loaded(x: Session, db: Db): Session {
    x.(current := MayHold(db, x.cycle, x.owner), rows := RowsOf(db, x.cycle))
  }

  function Next(s: Sys, m: Move): Sys {
    var a := ActionOf(s, m);
    var w := Step(s.world, a);
    match m
    case Open(h, o, c) => s.(sessions := s.sessions[h := Opened(s.world.db, o, c)])
    case Load(h) => if h in s.sessions then s.(sessions := s.sessions[h := Loaded(s.sessions[h], s.world.db)]) else s
    case Crash(h) => s.(sessions := map x | x in s.sessions && x != h :: s.sessions[x])
    case Act(_) => Sys(w, if Succeeds(s, m) then AllInterrupted(s.sessions, a) else s.sessions)
    case _ =>
      Sys(w, if Writes(s, m) && Succeeds(s, m)
             then AllInterrupted(s.sessions, a)[m.handle := Mirrored(s.sessions[m.handle], m)] else s.sessions)
  }

  function Reached(s: Sys, moves: seq<Move>): Sys
    decreases moves
  {
    if moves == [] then s else Reached(Next(s, moves[0]), moves[1..])
  }

  ghost predicate Initial(s: Sys) { Start(s.world) && s.sessions == map[] }

  // ---------------------------------------------------------------- agreement

  predicate RowAgrees(mine: Row, durable: Row) {
    && mine.state == durable.state
    && mine.attempts == durable.attempts
    && (mine.state.InProgress? || mine == durable)
  }

  ghost predicate Agrees(rows: Rows, db: Db, c: CycleId) {
    forall k: Key :: k.cycle == c ==>
      && (k in rows <==> k in db.progress)
      && (k in rows ==> RowAgrees(rows[k], db.progress[k]))
  }

  ghost predicate SessionOk(x: Session, db: Db) {
    x.current ==> MayHold(db, x.cycle, x.owner) && Agrees(x.rows, db, x.cycle)
  }

  lemma OpenedIsOk(db: Db, o: Owner, c: CycleId)
    ensures SessionOk(Opened(db, o, c), db)
  {
    if RowsOf(db, c) == map[] {
      forall k: Key | k.cycle == c ensures k !in db.progress { assert k !in RowsOf(db, c); }
    }
  }

  ghost predicate SysInv(s: Sys) {
    && Inv(s.world.db)
    && (forall h | h in s.sessions :: SessionOk(s.sessions[h], s.world.db))
  }

  /** A transaction that is not foreign to a handle leaves its rows and its owner's standing alone; a claim of its own
      owner is no interruption. */
  lemma ActKeepsSession(w: World, a: Action, x: Session)
    requires Inv(w.db) && SessionOk(x, w.db)
    ensures SessionOk(if Commits(w, a) then Interrupted(a, x) else x, Step(w, a).db)
  {
  }

  /** The writer's own handle follows its accepted write. */
  lemma WriteKeepsSession(s: Sys, m: Move)
    requires SysInv(s) && Writes(s, m) && Succeeds(s, m)
    ensures SessionOk(Mirrored(s.sessions[m.handle], m), Step(s.world, ActionOf(s, m)).db)
  {
    var x := s.sessions[m.handle];
    assert SessionOk(x, s.world.db);
    assert OwnerOf(Step(s.world, ActionOf(s, m)).db, x.cycle) == OwnerOf(s.world.db, x.cycle);
  }

  lemma NextKeepsInv(s: Sys, m: Move)
    requires SysInv(s)
    ensures SysInv(Next(s, m))
  {
    var t := Next(s, m);
    StepKeepsInv(s.world, ActionOf(s, m));
    forall h | h in t.sessions ensures SessionOk(t.sessions[h], t.world.db) {
      if m.Open? { OpenedIsOk(s.world.db, m.owner, m.cycle); }
      if h in s.sessions { ActKeepsSession(s.world, ActionOf(s, m), s.sessions[h]); }
      if (m.Begin? || m.Finish?) && m.handle == h && Writes(s, m) && Succeeds(s, m) { WriteKeepsSession(s, m); }
    }
  }

  lemma {:induction false} RunKeepsInv(s: Sys, moves: seq<Move>)
    requires SysInv(s)
    ensures SysInv(Reached(s, moves))
    decreases moves
  {
    if moves != [] {
      NextKeepsInv(s, moves[0]);
      RunKeepsInv(Next(s, moves[0]), moves[1..]);
    }
  }

  /** In every reachable state a current handle agrees with the durable rows, and answers `restorable` as a fresh load
      would, whatever claims its owner has made since. */
  lemma HandleAnswersAsAFreshLoad(s: Sys, moves: seq<Move>, h: HandleId, k: Key, maxAttempts: int)
    requires Initial(s)
    requires h in Reached(s, moves).sessions && Reached(s, moves).sessions[h].current
      && k.cycle == Reached(s, moves).sessions[h].cycle
    ensures var t := Reached(s, moves); var x := t.sessions[h];
      && Agrees(x.rows, t.world.db, x.cycle)
      && Restorable(x.rows, k, maxAttempts) == Restorable(RowsOf(t.world.db, x.cycle), k, maxAttempts)
  {
    RunKeepsInv(s, moves);
    assert SessionOk(Reached(s, moves).sessions[h], Reached(s, moves).world.db);
  }

  // ---------------------------------------------------------------- when tenure ends

  /** Moves that replace, reload or drop the handle. */
  predicate Handles(m: Move, h: HandleId) { (m.Open? || m.Load? || m.Crash?) && m.handle == h }

  ghost predicate LeavesAlone(moves: seq<Move>, h: HandleId) { forall m | m in moves :: !Handles(m, h) }

  predicate OwnWrite(m: Move, h: HandleId) { (m.Begin? || m.Finish?) && m.handle == h }

  /** An accepted claim of another owner, or an accepted progress write by anything but the handle. */
  predicate Interrupts(s: Sys, m: Move, h: HandleId) {
    h in s.sessions && !OwnWrite(m, h) && Succeeds(s, m) && Foreign(ActionOf(s, m), s.sessions[h])
  }

  ghost function InterruptionsOf(s: Sys, moves: seq<Move>, h: HandleId): nat
    decreases moves
  {
    if moves == [] then 0
    else (if Interrupts(s, moves[0], h) then 1 else 0) + InterruptionsOf(Next(s, moves[0]), moves[1..], h)
  }

  /** A handle stays current exactly as long as no other owner's claim, and nobody else's progress write, is
      accepted. */
  lemma {:induction false} TenureEndsExactly(s: Sys, moves: seq<Move>, h: HandleId)
    requires h in s.sessions && LeavesAlone(moves, h)
    ensures h in Reached(s, moves).sessions
    ensures Reached(s, moves).sessions[h].owner == s.sessions[h].owner
      && Reached(s, moves).sessions[h].cycle == s.sessions[h].cycle
    ensures Reached(s, moves).sessions[h].current <==> s.sessions[h].current && InterruptionsOf(s, moves, h) == 0
    decreases moves
  {
    if moves != [] {
      var m := moves[0];
      assert m in moves && forall x | x in moves[1..] :: x in moves;
      TenureEndsExactly(Next(s, m), moves[1..], h);
    }
  }

  /** An accepted start of the row by anything but the handle. */
  predicate StartsElsewhere(s: Sys, m: Move, h: HandleId, k: Key) {
    !OwnWrite(m, h) && IsStart(s.world, ActionOf(s, m), k)
  }

  ghost function StartsElsewhereIn(s: Sys, moves: seq<Move>, h: HandleId, k: Key): nat
    decreases moves
  {
    if moves == [] then 0
    else (if StartsElsewhere(s, moves[0], h, k) then 1 else 0) + StartsElsewhereIn(Next(s, moves[0]), moves[1..], h, k)
  }

  lemma OneStepGap(s: Sys, m: Move, h: HandleId, k: Key)
    requires h in s.sessions && k.cycle == s.sessions[h].cycle && !Handles(m, h)
    ensures h in Next(s, m).sessions && Next(s, m).sessions[h].cycle == s.sessions[h].cycle
    ensures Attempts(Next(s, m).world.db, k) - AttemptsIn(Next(s, m).sessions[h].rows, k) ==
            Attempts(s.world.db, k) - AttemptsIn(s.sessions[h].rows, k) + (if StartsElsewhere(s, m, h, k) then 1 else 0)
  {
    assert Attempts(Step(s.world, ActionOf(s, m)).db, k) ==
           Attempts(s.world.db, k) + (if IsStart(s.world, ActionOf(s, m), k) then 1 else 0);
  }

  /** However stale a handle gets, it lags behind the durable row by exactly the starts accepted elsewhere. */
  lemma {:induction false} AttemptsGap(s: Sys, moves: seq<Move>, h: HandleId, k: Key)
    requires h in s.sessions && k.cycle == s.sessions[h].cycle && LeavesAlone(moves, h)
    ensures h in Reached(s, moves).sessions
    ensures Attempts(Reached(s, moves).world.db, k) - AttemptsIn(Reached(s, moves).sessions[h].rows, k) ==
            Attempts(s.world.db, k) - AttemptsIn(s.sessions[h].rows, k) + StartsElsewhereIn(s, moves, h, k)
    decreases moves
  {
    if moves != [] {
      var m := moves[0];
      assert m in moves && forall x | x in moves[1..] :: x in moves;
      OneStepGap(s, m, h, k);
      AttemptsGap(Next(s, m), moves[1..], h, k);
    }
  }

  /** From the moment it was current: a handle still counts a row's attempts right if and only if no start of the row
      was accepted elsewhere; and as long as it is current none was. */
  lemma AgreementIsExact(s: Sys, moves: seq<Move>, h: HandleId, k: Key)
    requires SysInv(s) && h in s.sessions && s.sessions[h].current && k.cycle == s.sessions[h].cycle
      && LeavesAlone(moves, h)
    ensures h in Reached(s, moves).sessions
    ensures AttemptsIn(Reached(s, moves).sessions[h].rows, k) == Attempts(Reached(s, moves).world.db, k)
            <==> StartsElsewhereIn(s, moves, h, k) == 0
    ensures InterruptionsOf(s, moves, h) == 0 ==>
      StartsElsewhereIn(s, moves, h, k) == 0
        && Agrees(Reached(s, moves).sessions[h].rows, Reached(s, moves).world.db, k.cycle)
  {
    assert SessionOk(s.sessions[h], s.world.db);
    AttemptsGap(s, moves, h, k);
    TenureEndsExactly(s, moves, h);
    RunKeepsInv(s, moves);
    if InterruptionsOf(s, moves, h) == 0 {
      assert SessionOk(Reached(s, moves).sessions[h], Reached(s, moves).world.db);
    }
  }

  /** While its owner does not hold the cycle, nothing a handle does is accepted. */
  lemma OvertakenHandleWritesNothing(s: Sys, m: Move)
    requires Writes(s, m) && OwnerOf(s.world.db, m.key.cycle) != Some(s.sessions[m.handle].owner)
    ensures !Succeeds(s, m) && Next(s, m).world.db == s.world.db && Next(s, m).sessions == s.sessions
  {
  }

  // ---------------------------------------------------------------- the resumable driver

  /** What the driver loops do: start only what is not restorable, finish only what they started, and only with a
      final or a retryable outcome; progress rows are written through handles only. */
  predicate Disciplined(s: Sys, m: Move, maxAttempts: int) {
    match m
    case Begin(h, k) => Writes(s, m) && Restorable(s.sessions[h].rows, k, maxAttempts).None?
    case Finish(h, k, st, _, _, _) =>
      && Writes(s, m) && k in s.sessions[h].rows && s.sessions[h].rows[k].state.InProgress?
      && (st.Final() || st.RetryableFailure?)
    case Act(a) => !(a.Perform? && a.op.Record?)
    case _ => true
  }

  /** An accepted claim by which o, not the recorded owner, begins an epoch. */
  predicate BeginsEpoch(w: World, a: Action, c: CycleId, o: Owner) {
    IsClaim(w, a, c, o) && OwnerOf(w.db, c) != Some(o)
  }

  predicate Siblings(x: Session, y: Session) { x.owner == y.owner && x.cycle == y.cycle }

  /** The handles that are ready to be written with, as their owners can tell without looking at anybody else: loaded,
      or made when the cycle had no rows; and since then the owner has begun no new epoch and has written through no
      other handle. Nothing that another owner does changes this. */
  function ReadyAfter(s: Sys, m: Move, ready: set<HandleId>): set<HandleId> {
    match m
    case Open(h, _, c) => if RowsOf(s.world.db, c) == map[] then ready + {h} else ready - {h}
    case Load(h) => if h in s.sessions then ready + {h} else ready
    case Crash(h) => ready - {h}
    case Act(a) =>
      set h | h in ready && h in s.sessions && !BeginsEpoch(s.world, a, s.sessions[h].cycle, s.sessions[h].owner)
    case _ =>
      if !(Writes(s, m) && Succeeds(s, m)) then ready
      else set h | h in ready && h in s.sessions && (h == m.handle || !Siblings(s.sessions[h], s.sessions[m.handle]))
  }

  function ReadyThen(s: Sys, moves: seq<Move>, ready: set<HandleId>): set<HandleId>
    decreases moves
  {
    if moves == [] then ready else ReadyThen(Next(s, moves[0]), moves[1..], ReadyAfter(s, moves[0], ready))
  }

  /** The driver loops with ready handles only. */
  predicate Careful(s: Sys, m: Move, ready: set<HandleId>, maxAttempts: int) {
    Disciplined(s, m, maxAttempts) && (m.Begin? || m.Finish? ==> m.handle in ready)
  }

  ghost predicate AllCareful(s: Sys, moves: seq<Move>, ready: set<HandleId>, maxAttempts: int)
    decreases moves
  {
    moves == [] ||
    (Careful(s, moves[0], ready, maxAttempts)
     && AllCareful(Next(s, moves[0]), moves[1..], ReadyAfter(s, moves[0], ready), maxAttempts))
  }

  /** A ready handle that is out of date belongs to an owner that does not hold the cycle. */
  ghost predicate Standing(s: Sys, ready: set<HandleId>) {
    forall h | h in ready ::
      && h in s.sessions
      && (s.sessions[h].current || OwnerOf(s.world.db, s.sessions[h].cycle) != Some(s.sessions[h].owner))
  }

  /** One handle that stays ready. */
  lemma StaysStanding(s: Sys, m: Move, ready: set<HandleId>, maxAttempts: int, h: HandleId)
    requires SysInv(s) && Standing(s, ready) && Disciplined(s, m, maxAttempts)
    requires h in ready && h in ReadyAfter(s, m, ready) && !Handles(m, h)
    ensures h in Next(s, m).sessions
    ensures var x := Next(s, m).sessions[h];
      x.current || OwnerOf(Next(s, m).world.db, x.cycle) != Some(x.owner)
  {
    var x, a := s.sessions[h], ActionOf(s, m);
    assert SessionOk(x, s.world.db);
    if m.Act? {
      if !IsClaim(s.world, a, x.cycle, x.owner) && OwnerOf(s.world.db, x.cycle) != Some(x.owner) {
        OwnershipComesFromClaims(s.world, a, x.cycle, x.owner);
      }
    } else if Writes(s, m) && Succeeds(s, m) {
      FencedWriteNeedsLiveOwnership(s.world, a, m.key.cycle, s.sessions[m.handle].owner);
    }
  }

  lemma StandingStep(s: Sys, m: Move, ready: set<HandleId>, maxAttempts: int)
    requires SysInv(s) && Standing(s, ready) && Disciplined(s, m, maxAttempts)
    ensures Standing(Next(s, m), ReadyAfter(s, m, ready))
  {
    var t := Next(s, m);
    forall h | h in ReadyAfter(s, m, ready)
      ensures h in t.sessions
      ensures t.sessions[h].current || OwnerOf(t.world.db, t.sessions[h].cycle) != Some(t.sessions[h].owner)
    {
      if !Handles(m, h) { StaysStanding(s, m, ready, maxAttempts, h); }
    }
  }

  /** The fence does the rest: an accepted write of a ready handle comes from one that is current. */
  lemma AcceptedMeansCurrent(s: Sys, m: Move, ready: set<HandleId>)
    requires Standing(s, ready) && Writes(s, m) && Succeeds(s, m) && m.handle in ready
    ensures s.sessions[m.handle].current
  {
    FencedWriteNeedsLiveOwnership(s.world, ActionOf(s, m), m.key.cycle, s.sessions[m.handle].owner);
  }

  lemma {:induction false} StandingThroughout(s: Sys, moves: seq<Move>, ready: set<HandleId>, maxAttempts: int)
    requires SysInv(s) && Standing(s, ready) && AllCareful(s, moves, ready, maxAttempts)
    ensures SysInv(Reached(s, moves)) && Standing(Reached(s, moves), ReadyThen(s, moves, ready))
    decreases moves
  {
    if moves != [] {
      NextKeepsInv(s, moves[0]);
      StandingStep(s, moves[0], ready, maxAttempts);
      StandingThroughout(Next(s, moves[0]), moves[1..], ReadyAfter(s, moves[0], ready), maxAttempts);
    }
  }

  ghost predicate NoPendingRows(db: Db) { forall k | k in db.progress :: !db.progress[k].state.Pending? }

  /** An accepted start that finds the row of an earlier start still IN_PROGRESS. */
  predicate RestartsInterrupted(s: Sys, m: Move, k: Key) {
    && m.Begin? && m.key == k && Writes(s, m) && Succeeds(s, m)
    && k in s.world.db.progress && s.world.db.progress[k].state.InProgress?
  }

  ghost function Restarts(s: Sys, moves: seq<Move>, k: Key): nat
    decreases moves
  {
    if moves == [] then 0
    else (if RestartsInterrupted(s, moves[0], k) then 1 else 0) + Restarts(Next(s, moves[0]), moves[1..], k)
  }

  /** The row an accepted write of the driver touches is one the durable rows leave open. */
  lemma CarefulWriteFindsOpenRow(s: Sys, m: Move, ready: set<HandleId>, maxAttempts: int)
    requires SysInv(s) && Standing(s, ready) && Careful(s, m, ready, maxAttempts) && Writes(s, m) && Succeeds(s, m)
    ensures Restorable(s.world.db.progress, m.key, maxAttempts).None?
    ensures m.Finish? ==> m.key in s.world.db.progress && s.world.db.progress[m.key].state.InProgress?
  {
    AcceptedMeansCurrent(s, m, ready);
    assert SessionOk(s.sessions[m.handle], s.world.db);
  }

  /** An accepted write on an open row: the other rows stay, and a start spends one attempt of the budget unless it
      takes up an interrupted one. */
  lemma OpenRowWrite(db: Db, op: Op, clock: int, k: Key, maxAttempts: int)
    requires op.Record? && Apply(db, op, clock).1 && Restorable(db.progress, op.key, maxAttempts).None?
    requires NoPendingRows(db) && !op.state.Pending?
    ensures var after := Apply(db, op, clock).0;
      && NoPendingRows(after)
      && (k in db.progress && Restorable(db.progress, k, maxAttempts).Some? ==>
            k in after.progress && after.progress[k] == db.progress[k])
      && Attempts(after, k) <= Max(Max(1, maxAttempts), Attempts(db, k) +
           (if op.start && k == op.key && k in db.progress && db.progress[k].state.InProgress? then 1 else 0))
  {
  }

  lemma CarefulStep(s: Sys, m: Move, ready: set<HandleId>, k: Key, maxAttempts: int)
    requires SysInv(s) && NoPendingRows(s.world.db) && Standing(s, ready) && Careful(s, m, ready, maxAttempts)
    ensures NoPendingRows(Next(s, m).world.db)
    ensures k in s.world.db.progress && Restorable(s.world.db.progress, k, maxAttempts).Some? ==>
      k in Next(s, m).world.db.progress && Next(s, m).world.db.progress[k] == s.world.db.progress[k]
    ensures Attempts(Next(s, m).world.db, k) <=
      Max(Max(1, maxAttempts), Attempts(s.world.db, k) + (if RestartsInterrupted(s, m, k) then 1 else 0))
  {
    if Writes(s, m) && Succeeds(s, m) {
      CarefulWriteFindsOpenRow(s, m, ready, maxAttempts);
      OpenRowWrite(s.world.db, ActionOf(s, m).op, s.world.clock, k, maxAttempts);
    } else {
      assert Next(s, m).world.db.progress == s.world.db.progress;
    }
  }

  /** Across crashes, takeovers, renewed claims and cancellations no restorable row, and so no final row, is ever
      rewritten. */
  lemma {:induction false} RestorableRowsAreNeverRewritten(s: Sys, moves: seq<Move>, ready: set<HandleId>, k: Key,
                                                           maxAttempts: int)
    requires SysInv(s) && NoPendingRows(s.world.db) && Standing(s, ready) && AllCareful(s, moves, ready, maxAttempts)
    requires k in s.world.db.progress && Restorable(s.world.db.progress, k, maxAttempts).Some?
    ensures k in Reached(s, moves).world.db.progress
    ensures Reached(s, moves).world.db.progress[k] == s.world.db.progress[k]
    decreases moves
  {
    if moves != [] {
      var t, r := Next(s, moves[0]), ReadyAfter(s, moves[0], ready);
      NextKeepsInv(s, moves[0]);
      StandingStep(s, moves[0], ready, maxAttempts);
      CarefulStep(s, moves[0], ready, k, maxAttempts);
      RestorableRowsAreNeverRewritten(t, moves[1..], r, k, maxAttempts);
    }
  }

  lemma {:induction false} AttemptsFrom(s: Sys, moves: seq<Move>, ready: set<HandleId>, k: Key, maxAttempts: int,
                                        spent: nat)
    requires SysInv(s) && NoPendingRows(s.world.db) && Standing(s, ready) && AllCareful(s, moves, ready, maxAttempts)
    requires Attempts(s.world.db, k) <= Max(1, maxAttempts) + spent
    ensures Attempts(Reached(s, moves).world.db, k) <= Max(1, maxAttempts) + spent + Restarts(s, moves, k)
    decreases moves
  {
    if moves != [] {
      var t, r := Next(s, moves[0]), ReadyAfter(s, moves[0], ready);
      NextKeepsInv(s, moves[0]);
      StandingStep(s, moves[0], ready, maxAttempts);
      CarefulStep(s, moves[0], ready, k, maxAttempts);
      AttemptsFrom(t, moves[1..], r, k, maxAttempts, spent + (if RestartsInterrupted(s, moves[0], k) then 1 else 0));
    }
  }

  /** Attempts are bounded by the repair budget (at least one) plus the starts that took up an interrupted one. */
  lemma AttemptsAreBounded(s: Sys, moves: seq<Move>, k: Key, maxAttempts: int)
    requires Initial(s) && AllCareful(s, moves, {}, maxAttempts)
    ensures Attempts(Reached(s, moves).world.db, k) <= Max(1, maxAttempts) + Restarts(s, moves, k)
  {
    AttemptsFrom(s, moves, {}, k, maxAttempts, 0);
  }
}
