/** Runs of the cycle protocol: any interleaving of transactions by any number of workers and operators.

    A run is a sequence of actions from the empty tables. Refused transactions are part of a run and change
    nothing. The database clock never goes back; a claim or a renewal uses a clock reading taken earlier. */
module CycleProtocol {
  import opened Common
  import opened CycleTables

  datatype World = World(db: Db, clock: int)

  datatype Action = Tick(elapsed: nat) | Perform(op: Op)

  ghost predicate Start(w: World) { w.db == EMPTY_DB }

  /** Sampled clock readings precede the statement; a transaction does not end before it begins. */
  predicate Timely(op: Op, clock: int) {
    match op
    case OnRun(_, Claim(_, sampled, _)) => sampled <= clock
    case OnRun(_, Renew(_, sampled, _)) => sampled <= clock
    case SaveRadar(_, _, _, endClock) => clock <= endClock
    case SaveAcquisition(_, _, _, endClock) => clock <= endClock
    case _ => true
  }

  function EndClock(op: Op, clock: int): int {
    match op
    case SaveRadar(_, _, _, endClock) => endClock
    case SaveAcquisition(_, _, _, endClock) => endClock
    case _ => clock
  }

  function Step(w: World, a: Action): World {
    match a
    case Tick(elapsed) => w.(clock := w.clock + elapsed)
    case Perform(op) =>
      if Timely(op, w.clock) then World(Apply(w.db, op, w.clock).0, EndClock(op, w.clock)) else w
  }

  predicate Commits(w: World, a: Action) {
    a.Perform? && Timely(a.op, w.clock) && Apply(w.db, a.op, w.clock).1
  }

  function Exec(w: World, acts: seq<Action>): World
    decreases acts
  {
    if acts == [] then w else Exec(Step(w, acts[0]), acts[1..])
  }

  /** How many actions of the run satisfy p in the state in which they are taken. */
  ghost function Count(w: World, acts: seq<Action>, p: (World, Action) -> bool): nat
    decreases acts
  {
    if acts == [] then 0
    else (if p(w, acts[0]) then 1 else 0) + Count(Step(w, acts[0]), acts[1..], p)
  }

  // ---------------------------------------------------------------- the invariant of every reachable state

  predicate RunOk(r: Run) {
    && (r.owner.None? <==> r.lease.None?)
    && (!r.status.Active() || r.status.Accepted? ==> r.owner.None?)
  }

  ghost predicate Inv(db: Db) {
    && (forall c | c in db.runs :: RunOk(db.runs[c]))
    && (forall c | c in db.runs && db.runs[c].status.Active() ::
          db.runs[c].market in db.slots && db.slots[db.runs[c].market] == c)
    && (forall m | m in db.slots ::
          db.slots[m] in db.runs && db.runs[db.slots[m]].market == m && db.runs[db.slots[m]].status.Active())
    && (forall k | k in db.progress :: k.cycle in db.runs)
  }

  lemma TransitionOk(r: Run, op: RunOp, clock: int)
    requires RunOk(r) && Transition(r, op, clock).Some?
    ensures var s := Transition(r, op, clock).value;
            RunOk(s) && s.market == r.market && s.parameters == r.parameters && r.status.Active()
              && Later(r.status, s.status)
  {
  }

  lemma InstallKeepsInv(db: Db, c: CycleId, r: Run)
    requires Inv(db) && c in db.runs && db.runs[c].status.Active() && RunOk(r) && r.market == db.runs[c].market
    ensures Inv(Install(db, c, r))
  {
  }

  lemma ApplyKeepsInv(db: Db, op: Op, clock: int)
    requires Inv(db)
    ensures Inv(Apply(db, op, clock).0)
  {
    match op
    case OnRun(c, step) =>
      if c in db.runs && Transition(db.runs[c], step, clock).Some? {
        TransitionOk(db.runs[c], step, clock);
        InstallKeepsInv(db, c, Transition(db.runs[c], step, clock).value);
      }
    case _ =>
  }

  lemma StepKeepsInv(w: World, a: Action)
    requires Inv(w.db)
    ensures Inv(Step(w, a).db)
  {
    if a.Perform? { ApplyKeepsInv(w.db, a.op, w.clock); }
  }

  lemma {:induction false} ExecKeepsInv(w: World, acts: seq<Action>)
    requires Inv(w.db)
    ensures Inv(Exec(w, acts).db)
    decreases acts
  {
    if acts != [] {
      StepKeepsInv(w, acts[0]);
      ExecKeepsInv(Step(w, acts[0]), acts[1..]);
    }
  }

  /** In every state of every run a market's slot names exactly its one non-terminal run, ownership and lease
      come and go together, and a terminal run holds neither. */
  lemma SlotNamesTheActiveRun(w: World, acts: seq<Action>, c: CycleId)
    requires Start(w)
    ensures var db := Exec(w, acts).db;
      c in db.runs ==>
        && (db.runs[c].status.Active() <==>
              db.runs[c].market in db.slots && db.slots[db.runs[c].market] == c)
        && (forall d | d in db.runs && d != c && db.runs[d].market == db.runs[c].market ::
              !(db.runs[c].status.Active() && db.runs[d].status.Active()))
        && (db.runs[c].owner.None? <==> db.runs[c].lease.None?)
        && (!db.runs[c].status.Active() ==> db.runs[c].owner.None?)
  {
    ExecKeepsInv(w, acts);
  }

  /** What a read of the active run finds in a reachable state: the market's one non-terminal run, and nothing exactly
      when the market has none. */
  lemma ActiveRunIsTheOnlyOne(db: Db, m: Market)
    requires Inv(db)
    ensures ActiveRun(db, m).None? <==> forall c | c in db.runs && db.runs[c].market == m :: !db.runs[c].status.Active()
    ensures ActiveRun(db, m).Some? ==>
      var (c, r) := ActiveRun(db, m).value;
      && c in db.runs && r == db.runs[c] && r.market == m && r.status.Active()
      && forall d | d in db.runs && db.runs[d].market == m && db.runs[d].status.Active() :: d == c
  {
  }

  // ---------------------------------------------------------------- statuses over a run

  /** The statuses a run can still have once it has had s. */
  predicate Later(s: Status, t: Status) {
    s == t ||
    match s
    case Accepted => true
    case Running => !t.Accepted?
    case Published => t.Completed?
    case CancelRequested => t.Cancelled?
    case _ => false
  }

  lemma OneStepLater(w: World, a: Action, c: CycleId)
    requires Inv(w.db) && c in w.db.runs
    ensures Inv(Step(w, a).db) && c in Step(w, a).db.runs
    ensures Later(w.db.runs[c].status, Step(w, a).db.runs[c].status)
    ensures Step(w, a).db.runs[c].market == w.db.runs[c].market
    ensures Step(w, a).db.runs[c].parameters == w.db.runs[c].parameters
  {
    if a.Perform? {
      ApplyKeepsInv(w.db, a.op, w.clock);
      if a.op.OnRun? && a.op.cycle == c && Transition(w.db.runs[c], a.op.step, w.clock).Some? {
        TransitionOk(w.db.runs[c], a.op.step, w.clock);
      }
    }
  }

  lemma {:induction false} StatusesOnlyAdvance(w: World, acts: seq<Action>, c: CycleId)
    requires Inv(w.db) && c in w.db.runs
    ensures c in Exec(w, acts).db.runs
    ensures Later(w.db.runs[c].status, Exec(w, acts).db.runs[c].status)
    ensures Exec(w, acts).db.runs[c].market == w.db.runs[c].market
    ensures Exec(w, acts).db.runs[c].parameters == w.db.runs[c].parameters
    decreases acts
  {
    if acts != [] {
      OneStepLater(w, acts[0], c);
      StatusesOnlyAdvance(Step(w, acts[0]), acts[1..], c);
    }
  }

  /** No run takes a cycle through both PUBLISHED and a cancelled status, in either order; PUBLISHED can only
      become COMPLETED; a terminal status is never left. */
  lemma PublishedExcludesCancelled(w: World, acts: seq<Action>, more: seq<Action>, c: CycleId)
    requires Start(w) && c in Exec(w, acts).db.runs
    ensures c in Exec(Exec(w, acts), more).db.runs
    ensures var s := Exec(w, acts).db.runs[c].status; var t := Exec(Exec(w, acts), more).db.runs[c].status;
      && (s.Published? ==> t.Published? || t.Completed?)
      && (s.CancelRequested? ==> t.CancelRequested? || t.Cancelled?)
      && (!s.Active() ==> t == s)
      && (t.Published? ==> !s.CancelRequested? && !s.Cancelled?)
  {
    ExecKeepsInv(w, acts);
    StatusesOnlyAdvance(Exec(w, acts), more, c);
  }

  // ---------------------------------------------------------------- creation

  /** How create_cycle_run ends: with a run that was there, with its own run as it reads it back, or raising. */
  datatype Creation = Existing(cycle: CycleId, active: Run) | Created(own: Option<Run>) | Raised

  /** The tables when the insert is tried, and when the last read is made. */
  function AtInsert(w: World, between: seq<Action>): World { Exec(w, between) }

  function AtLastRead(w: World, between: seq<Action>, after: seq<Action>, c: CycleId, m: Market, p: Opaque): World {
    Exec(Step(AtInsert(w, between), Perform(Insert(c, m, p))), after)
  }

  /** `create_cycle_run`: a read, an insert and a second read are three transactions; `between` and `after` are
      whatever other workers and operators do in between. */
  function Create(w: World, between: seq<Action>, after: seq<Action>, c: CycleId, m: Market, p: Opaque): Creation {
    var first := ActiveRun(w.db, m);
    if first.Some? then Existing(first.value.0, first.value.1)
    else
      var last := AtLastRead(w, between, after, c, m, p).db;
      if Commits(AtInsert(w, between), Perform(Insert(c, m, p)))
      then Created(if c in last.runs then Some(last.runs[c]) else None)
      else
        var second := ActiveRun(last, m);
        if second.Some? then Existing(second.value.0, second.value.1) else Raised
  }

  /** In every interleaving: the run of the first read if there is one; the creator's own run exactly when its insert
      commits; otherwise the one active run that the second read finds, or an error exactly when there is none. */
  lemma CreationOutcome(start: World, acts: seq<Action>, between: seq<Action>, after: seq<Action>,
                        c: CycleId, m: Market, p: Opaque)
    requires Start(start)
    ensures var w := Exec(start, acts);
      var inserted := Commits(AtInsert(w, between), Perform(Insert(c, m, p)));
      var last := AtLastRead(w, between, after, c, m, p);
      var outcome := Create(w, between, after, c, m, p);
      && (outcome.Created? <==> ActiveRun(w.db, m).None? && inserted)
      && (outcome.Raised? <==> ActiveRun(w.db, m).None? && !inserted && m !in last.db.slots)
      && (outcome.Created? ==>
            && outcome.own.Some? && outcome.own.value.market == m && outcome.own.value.parameters == p
            && Later(Accepted, outcome.own.value.status))
      && (outcome.Existing? ==>
            var seen := if ActiveRun(w.db, m).Some? then w.db else last.db;
            && outcome.cycle in seen.runs && seen.runs[outcome.cycle] == outcome.active
            && outcome.active.market == m && outcome.active.status.Active()
            && forall d | d in seen.runs && seen.runs[d].market == m && seen.runs[d].status.Active() ::
              d == outcome.cycle)
  {
    var w := Exec(start, acts);
    var w1 := AtInsert(w, between);
    var insert := Perform(Insert(c, m, p));
    ExecKeepsInv(start, acts);
    ExecKeepsInv(w, between);
    StepKeepsInv(w1, insert);
    ExecKeepsInv(Step(w1, insert), after);
    ActiveRunIsTheOnlyOne(w.db, m);
    ActiveRunIsTheOnlyOne(AtLastRead(w, between, after, c, m, p).db, m);
    if Commits(w1, insert) { StatusesOnlyAdvance(Step(w1, insert), after, c); }
  }

  /** A creator with an unused id that ends with an error lost to a run that has ended since: the error never hides
      a market that is still taken, nor a run of its own. */
  lemma RaisingMeansTheWinnerEnded(start: World, acts: seq<Action>, between: seq<Action>, after: seq<Action>,
                                   c: CycleId, m: Market, p: Opaque)
    requires Start(start) && Create(Exec(start, acts), between, after, c, m, p).Raised?
    requires c !in AtInsert(Exec(start, acts), between).db.runs
    ensures var w1 := AtInsert(Exec(start, acts), between).db;
      var last := AtLastRead(Exec(start, acts), between, after, c, m, p).db;
      && m in w1.slots && w1.slots[m] in w1.runs && w1.runs[w1.slots[m]].status.Active()
      && w1.slots[m] in last.runs && !last.runs[w1.slots[m]].status.Active()
  {
    var w := Exec(start, acts);
    var w1 := AtInsert(w, between);
    ExecKeepsInv(start, acts);
    ExecKeepsInv(w, between);
    ExecKeepsInv(w1, after);
    assert Step(w1, Perform(Insert(c, m, p))).db == w1.db;
    assert Step(w1, Perform(Insert(c, m, p))) == w1;
    StatusesOnlyAdvance(w1, after, w1.db.slots[m]);
    CreationOutcome(start, acts, between, after, c, m, p);
    ActiveRunIsTheOnlyOne(AtLastRead(w, between, after, c, m, p).db, m);
  }

  /** Such a run: between the refused insert and the second read the winner is failed, for nobody holds it yet. */
  lemma CreationCanRaise(m: Market, p: Opaque, e: Opaque)
    ensures Create(World(EMPTY_DB, 0), [Perform(Insert(1, m, p))], [Perform(OnRun(1, FailUnowned(e)))], 2, m, p) ==
      Raised
  {
    var w := World(EMPTY_DB, 0);
    var win, fail := Perform(Insert(1, m, p)), Perform(OnRun(1, FailUnowned(e)));
    var w1 := Step(w, win);
    assert Exec(w, [win]) == w1 by { assert [win][1..] == []; }
    assert Step(w1, Perform(Insert(2, m, p))) == w1;
    assert Exec(w1, [fail]) == Step(w1, fail) by { assert [fail][1..] == []; }
    assert m !in Step(w1, fail).db.slots;
  }

  // ---------------------------------------------------------------- ownership

  function OwnerOf(db: Db, c: CycleId): Option<Owner> {
    if c in db.runs then db.runs[c].owner else None
  }

  predicate IsClaim(w: World, a: Action, c: CycleId, o: Owner) {
    Commits(w, a) && a.op.OnRun? && a.op.cycle == c && a.op.step.Claim? && a.op.step.owner == o
  }

  /** A committed write fenced on owner o of cycle c. */
  predicate IsFencedWrite(w: World, a: Action, c: CycleId, o: Owner) {
    Commits(w, a) &&
    match a.op
    case OnRun(d, Renew(p, _, _)) => d == c && p == o
    case OnRun(d, Update(p, _)) => d == c && p == o
    case OnRun(d, Cancel(p, _)) => d == c && p == o
    case Record(p, k, _, _, _, _, _) => k.cycle == c && p == o
    case SaveRadar(_, _, f, _) => f == Some(Fence(c, o))
    case SaveAcquisition(_, _, f, _) => f == Some(Fence(c, o))
    case OnRun(d, Release(p)) => d == c && p == o
    case _ => false
  }

  ghost function ClaimBy(c: CycleId, o: Owner): (World, Action) -> bool { (w, a) => IsClaim(w, a, c, o) }

  ghost function FencedBy(c: CycleId, o: Owner): (World, Action) -> bool { (w, a) => IsFencedWrite(w, a, c, o) }

  /** A committed write of an owner finds that owner recorded with a live lease. */
  lemma FencedWriteNeedsLiveOwnership(w: World, a: Action, c: CycleId, o: Owner)
    requires IsFencedWrite(w, a, c, o)
    ensures c in w.db.runs && w.db.runs[c].Fenced(o, w.clock) && w.db.runs[c].Fenced(o, EndClock(a.op, w.clock))
  {
  }

  /** One action makes o the owner only by being o's claim. */
  lemma OwnershipComesFromClaims(w: World, a: Action, c: CycleId, o: Owner)
    requires OwnerOf(w.db, c) != Some(o) && !IsClaim(w, a, c, o)
    ensures OwnerOf(Step(w, a).db, c) != Some(o)
  {
  }

  /** After a takeover, or a release, every write of the old owner is refused until it claims again: accepted
      writes of one owner between two of another's therefore need a claim, and epochs are contiguous. */
  lemma {:induction false} RefusedUntilReclaimed(w: World, acts: seq<Action>, c: CycleId, o: Owner)
    requires OwnerOf(w.db, c) != Some(o)
    requires Count(w, acts, ClaimBy(c, o)) == 0
    ensures OwnerOf(Exec(w, acts).db, c) != Some(o)
    ensures Count(w, acts, FencedBy(c, o)) == 0
    decreases acts
  {
    if acts != [] {
      if IsFencedWrite(w, acts[0], c, o) { FencedWriteNeedsLiveOwnership(w, acts[0], c, o); }
      OwnershipComesFromClaims(w, acts[0], c, o);
      RefusedUntilReclaimed(Step(w, acts[0]), acts[1..], c, o);
    }
  }

  /** Over a whole run: once another owner's claim has committed, the old owner writes nothing until it claims
      again, whatever happens in between. */
  lemma TakeoverEndsTheEpoch(w: World, before: seq<Action>, takeover: Action, after: seq<Action>,
                             c: CycleId, o: Owner, taker: Owner)
    requires Start(w) && taker != o
    requires IsClaim(Exec(w, before), takeover, c, taker)
    requires Count(Step(Exec(w, before), takeover), after, ClaimBy(c, o)) == 0
    ensures Count(Step(Exec(w, before), takeover), after, FencedBy(c, o)) == 0
    ensures OwnerOf(Exec(Step(Exec(w, before), takeover), after).db, c) != Some(o)
  {
    RefusedUntilReclaimed(Step(Exec(w, before), takeover), after, c, o);
  }

  predicate ByOwner(w: World, a: Action, c: CycleId, o: Owner) {
    IsClaim(w, a, c, o) || IsFencedWrite(w, a, c, o)
  }

  ghost function ActsOf(c: CycleId, o: Owner): (World, Action) -> bool { (w, a) => ByOwner(w, a, c, o) }

  /** Under a live lease of o only o's own statements and the operator's request are accepted on the row. */
  lemma LiveTransition(r: Run, step: RunOp, clock: int, o: Owner)
    requires r.Fenced(o, clock) && Transition(r, step, clock).Some?
    requires step.Claim? || step.Renew? ==> step.sampled <= clock
    ensures match step
      case Claim(x, _, _) => x == o
      case Renew(x, _, _) => x == o
      case Release(x) => x == o
      case Update(x, _) => x == o
      case Cancel(x, _) => x == o
      case RequestCancel(_) => true
      case _ => false
  {
  }

  /** While o's lease is live every action but o's own leaves the run untouched, save that the operator may
      request cancellation: no other claim, fail-unowned or cancel-unowned commits. */
  lemma LiveLeaseStep(w: World, a: Action, c: CycleId, o: Owner)
    requires c in w.db.runs && w.db.runs[c].Fenced(o, w.clock)
    requires !ByOwner(w, a, c, o)
    ensures c in Step(w, a).db.runs
    ensures var r := w.db.runs[c]; var s := Step(w, a).db.runs[c];
      s == r || ((r.status.Accepted? || r.status.Running?) && s == r.(status := CancelRequested, error := s.error))
    ensures Commits(w, a) && a.op.OnRun? && a.op.cycle == c ==> a.op.step.RequestCancel?
  {
    if Commits(w, a) && a.op.OnRun? && a.op.cycle == c { LiveTransition(w.db.runs[c], a.op.step, w.clock, o); }
  }

  lemma {:induction false} ClockNeverGoesBack(w: World, acts: seq<Action>)
    ensures w.clock <= Exec(w, acts).clock
    decreases acts
  {
    if acts != [] { ClockNeverGoesBack(Step(w, acts[0]), acts[1..]); }
  }

  /** Over a whole run: until the lease of an owner that does nothing expires, that owner keeps the cycle, the
      lease and every field but a cancellation request. */
  lemma {:induction false} LeaseProtectsItsOwner(w: World, acts: seq<Action>, c: CycleId, o: Owner)
    requires c in w.db.runs && w.db.runs[c].Fenced(o, Exec(w, acts).clock)
    requires Count(w, acts, ActsOf(c, o)) == 0
    ensures c in Exec(w, acts).db.runs
    ensures var r := w.db.runs[c]; var s := Exec(w, acts).db.runs[c];
      s == r || ((r.status.Accepted? || r.status.Running?) && s == r.(status := CancelRequested, error := s.error))
    decreases acts
  {
    ClockNeverGoesBack(w, acts);
    if acts != [] {
      LiveLeaseStep(w, acts[0], c, o);
      LeaseProtectsItsOwner(Step(w, acts[0]), acts[1..], c, o);
    }
  }

  /** The protection rests on the claim's clock reading being no later than the clock: a claim given a later
      reading takes a live lease, exactly when the reading is past the lease. */
  lemma ClaimAgainstALiveLease(r: Run, o: Owner, sampled: int, seconds: int, clock: int)
    requires RunOk(r) && r.status.Active() && r.owner.Some? && r.owner != Some(o) && r.Live(clock)
    ensures Transition(r, Claim(o, sampled, seconds), clock).Some? <==> sampled > r.lease.value
    ensures sampled <= clock ==> Transition(r, Claim(o, sampled, seconds), clock).None?
  {
  }

  /** Such a reading: ten seconds before its end a lease is taken by a claim that names a time eleven seconds on. */
  lemma ALiveLeaseCanBeTaken(m: Market, p: Opaque)
    ensures var r := Run(m, Running, p, None, None, Some(1), Some(100), 0, None);
      && RunOk(r) && r.Fenced(1, 90)
      && Transition(r, Claim(2, 101, 300), 90) == Some(r.(owner := Some(2), lease := Some(401), resumeCount := 1))
  {
  }

  /** An ownership epoch begins with a committed claim by anyone but the recorded owner. */
  predicate BeginsLateEpoch(w: World, a: Action, c: CycleId) {
    && Commits(w, a) && a.op.OnRun? && a.op.cycle == c && a.op.step.Claim?
    && OwnerOf(w.db, c) != Some(a.op.step.owner)
    && w.db.runs[c].status != Accepted
  }

  ghost function LateEpochs(c: CycleId): (World, Action) -> bool { (w, a) => BeginsLateEpoch(w, a, c) }

  function ResumeCount(db: Db, c: CycleId): nat { if c in db.runs then db.runs[c].resumeCount else 0 }

  lemma {:induction false} ResumesSince(w: World, acts: seq<Action>, c: CycleId)
    ensures ResumeCount(Exec(w, acts).db, c) == ResumeCount(w.db, c) + Count(w, acts, LateEpochs(c))
    decreases acts
  {
    if acts != [] {
      var a := acts[0];
      assert ResumeCount(Step(w, a).db, c) == ResumeCount(w.db, c) + (if BeginsLateEpoch(w, a, c) then 1 else 0);
      ResumesSince(Step(w, a), acts[1..], c);
    }
  }

  /** resume_count is the number of ownership epochs begun once the run was past ACCEPTED. */
  lemma ResumeCountIsEpochsBegun(w: World, acts: seq<Action>, c: CycleId)
    requires Start(w)
    ensures ResumeCount(Exec(w, acts).db, c) == Count(w, acts, LateEpochs(c))
  {
    ResumesSince(w, acts, c);
  }

  // ---------------------------------------------------------------- publication

  predicate IsPublication(w: World, a: Action, c: CycleId) {
    Commits(w, a) && a.op.SaveRadar? && a.op.fence.Some? && a.op.fence.value.cycle == c
  }

  ghost function PublicationsOf(c: CycleId): (World, Action) -> bool { (w, a) => IsPublication(w, a, c) }

  predicate Publishes(db: Db, c: CycleId) {
    c in db.runs && (db.runs[c].status.Published? || db.runs[c].status.Completed?)
  }

  predicate MayPublish(db: Db, c: CycleId) {
    c in db.runs ==> db.runs[c].status.Accepted? || db.runs[c].status.Running?
  }

  lemma {:induction false} PublicationsFrom(w: World, acts: seq<Action>, c: CycleId)
    requires Inv(w.db)
    ensures Count(w, acts, PublicationsOf(c)) <= (if MayPublish(w.db, c) then 1 else 0)
    ensures Count(w, acts, PublicationsOf(c)) == 1 ==> Publishes(Exec(w, acts).db, c)
    decreases acts
  {
    if acts != [] {
      var w1 := Step(w, acts[0]);
      if c in w.db.runs {
        OneStepLater(w, acts[0], c);
      } else if acts[0].Perform? {
        ApplyKeepsInv(w.db, acts[0].op, w.clock);
      }
      PublicationsFrom(w1, acts[1..], c);
      if c in w1.db.runs { StatusesOnlyAdvance(w1, acts[1..], c); }
    }
  }

  /** At most one fenced publication commits per cycle, and once it has, the cycle is PUBLISHED or COMPLETED. */
  lemma AtMostOnePublication(w: World, acts: seq<Action>, c: CycleId)
    requires Start(w)
    ensures Count(w, acts, PublicationsOf(c)) <= 1
    ensures Count(w, acts, PublicationsOf(c)) == 1 ==> Publishes(Exec(w, acts).db, c)
  {
    PublicationsFrom(w, acts, c);
  }

  /** A save fenced on d that creates the payload row of c. */
  predicate StoresFenced(w: World, a: Action, c: CycleId, d: CycleId) {
    Commits(w, a) && a.op.SaveRadar? && a.op.cycle == c && a.op.fence.Some? && a.op.fence.value.cycle == d
      && c !in w.db.radar
  }

  ghost function FencedStoresOf(c: CycleId, d: CycleId): (World, Action) -> bool { (w, a) => StoresFenced(w, a, c, d) }

  lemma {:induction false} StoresArePublications(w: World, acts: seq<Action>, c: CycleId, d: CycleId)
    ensures Count(w, acts, FencedStoresOf(c, d)) <= Count(w, acts, PublicationsOf(d))
    decreases acts
  {
    if acts != [] { StoresArePublications(Step(w, acts[0]), acts[1..], c, d); }
  }

  /** A payload stored by a save fenced on d exists only when d is PUBLISHED or COMPLETED; so a payload stored by a save
      that names the cycle it is fenced on, as the driver's do, exists only for a published cycle. */
  lemma FencedPayloadMeansPublished(w: World, acts: seq<Action>, c: CycleId, d: CycleId)
    requires Start(w) && Count(w, acts, FencedStoresOf(c, d)) > 0
    ensures Publishes(Exec(w, acts).db, d)
  {
    StoresArePublications(w, acts, c, d);
    PublicationsFrom(w, acts, d);
  }

  /** The two ids are separate arguments: one save fenced on another cycle stores a payload for a cycle that
      does not exist. For a single save the guarantee holds exactly when the ids agree or the named cycle had
      already been published. */
  lemma FencedSaveGuarantee(w: World, c: CycleId, p: Opaque, f: Fence, endClock: int)
    requires Inv(w.db) && Commits(w, Perform(SaveRadar(c, p, Some(f), endClock)))
    ensures Publishes(Step(w, Perform(SaveRadar(c, p, Some(f), endClock))).db, c)
            <==> c == f.cycle || Publishes(w.db, c)
  {
  }

  /** Such a run: cycle 1 is created and claimed, and a save fenced on it stores a payload for cycle 2, which is
      none. */
  lemma APayloadOfNoCycle(m: Market, p: Opaque)
    ensures var acts := [Perform(Insert(1, m, p)), Perform(OnRun(1, Claim(7, 0, 300))),
                         Perform(SaveRadar(2, p, Some(Fence(1, 7)), 0))];
      var db := Exec(World(EMPTY_DB, 0), acts).db;
      2 in db.radar && 2 !in db.runs
  {
    var w := World(EMPTY_DB, 0);
    var a, b, d := Perform(Insert(1, m, p)), Perform(OnRun(1, Claim(7, 0, 300))),
      Perform(SaveRadar(2, p, Some(Fence(1, 7)), 0));
    ThreeSteps(w, a, b, d);
    var w2 := Step(Step(w, a), b);
    assert w2.db.runs[1].Fenced(7, 0) && w2.db.runs[1].status.Running?;
  }

  lemma ThreeSteps(w: World, a: Action, b: Action, c: Action)
    ensures Exec(w, [a, b, c]) == Step(Step(Step(w, a), b), c)
  {
    assert [a, b, c][1..] == [b, c] && [b, c][1..] == [c] && [c][1..] == [];
    var w2 := Step(Step(w, a), b);
    assert Exec(w2, [c]) == Exec(Step(w2, c), []);
    assert Exec(Step(w, a), [b, c]) == Exec(w2, [c]);
  }

  lemma {:induction false} PayloadsNeverChange(w: World, acts: seq<Action>, c: CycleId)
    requires c in w.db.radar
    ensures c in Exec(w, acts).db.radar && Exec(w, acts).db.radar[c] == w.db.radar[c]
    decreases acts
  {
    if acts != [] { PayloadsNeverChange(Step(w, acts[0]), acts[1..], c); }
  }

  /** Fenced evidence commits only while its owner runs the cycle, at both ends of the transaction, and only as
      a whole. */
  lemma EvidenceCommitsUnderOwnership(db: Db, a: Opaque, ev: set<Opaque>, f: Fence, clock: int, endClock: int)
    requires Apply(db, SaveAcquisition(a, ev, Some(f), endClock), clock).0 != db
    ensures f.cycle in db.runs && db.runs[f.cycle].status.Running?
    ensures db.runs[f.cycle].Fenced(f.owner, clock) && db.runs[f.cycle].Fenced(f.owner, endClock)
    ensures var d := Apply(db, SaveAcquisition(a, ev, Some(f), endClock), clock).0;
            ev <= d.evidence && a in d.acquisitions && d.runs == db.runs && d.progress == db.progress
  {
  }

  // ---------------------------------------------------------------- progress rows

  predicate IsStart(w: World, a: Action, k: Key) { Commits(w, a) && a.op.Record? && a.op.key == k && a.op.start }

  ghost function StartsOf(k: Key): (World, Action) -> bool { (w, a) => IsStart(w, a, k) }

  lemma {:induction false} AttemptsSince(w: World, acts: seq<Action>, k: Key)
    ensures Attempts(Exec(w, acts).db, k) == Attempts(w.db, k) + Count(w, acts, StartsOf(k))
    decreases acts
  {
    if acts != [] {
      assert Attempts(Step(w, acts[0]).db, k) == Attempts(w.db, k) + (if IsStart(w, acts[0], k) then 1 else 0);
      AttemptsSince(Step(w, acts[0]), acts[1..], k);
    }
  }

  /** A row's attempts are exactly the accepted start writes of its key. */
  lemma AttemptsCountAcceptedStarts(w: World, acts: seq<Action>, k: Key)
    requires Start(w)
    ensures Attempts(Exec(w, acts).db, k) == Count(w, acts, StartsOf(k))
  {
    AttemptsSince(w, acts, k);
  }

  /** The single step behind the two freezing results. */
  lemma RowStep(w: World, a: Action, k: Key)
    requires Inv(w.db) && k.cycle in w.db.runs
    ensures var s := w.db.runs[k.cycle].status; var before := w.db.progress; var after := Step(w, a).db.progress;
      && (!s.Running? ==> (k in after <==> k in before) && Attempts(Step(w, a).db, k) == Attempts(w.db, k))
      && (!s.Running? && !s.CancelRequested? && k in before ==> k in after && after[k] == before[k])
  {
  }

  /** Once cancellation is requested no progress row of the cycle appears, disappears or gains an attempt. */
  lemma {:induction false} CancellationFreezesAttempts(w: World, acts: seq<Action>, k: Key)
    requires Inv(w.db) && k.cycle in w.db.runs
    requires w.db.runs[k.cycle].status.CancelRequested? || w.db.runs[k.cycle].status.Cancelled?
    ensures k in Exec(w, acts).db.progress <==> k in w.db.progress
    ensures Attempts(Exec(w, acts).db, k) == Attempts(w.db, k)
    decreases acts
  {
    if acts != [] {
      RowStep(w, acts[0], k);
      OneStepLater(w, acts[0], k.cycle);
      CancellationFreezesAttempts(Step(w, acts[0]), acts[1..], k);
    }
  }

  /** The draining owner of a CANCEL_REQUESTED cycle may still record an outcome on an existing row. */
  lemma DrainingOwnerMayFinish(db: Db, o: Owner, k: Key, s: CandidateState, d: Option<Opaque>, f: Option<Opaque>,
                               p: Option<Opaque>, start: bool, clock: int)
    requires k.cycle in db.runs && db.runs[k.cycle].status.CancelRequested? && db.runs[k.cycle].Fenced(o, clock)
    ensures Apply(db, Record(o, k, s, d, f, p, start), clock).1 <==> !start && k in db.progress
  {
  }

  /** After PUBLISHED or any terminal status no row of the cycle changes at all. */
  lemma {:induction false} PublishedOrTerminalFreezesRows(w: World, acts: seq<Action>, k: Key)
    requires Inv(w.db) && k.cycle in w.db.runs
    requires w.db.runs[k.cycle].status.Published? || !w.db.runs[k.cycle].status.Active()
    ensures k in Exec(w, acts).db.progress <==> k in w.db.progress
    ensures k in w.db.progress ==> Exec(w, acts).db.progress[k] == w.db.progress[k]
    decreases acts
  {
    if acts != [] {
      RowStep(w, acts[0], k);
      OneStepLater(w, acts[0], k.cycle);
      PublishedOrTerminalFreezesRows(Step(w, acts[0]), acts[1..], k);
    }
  }
}
