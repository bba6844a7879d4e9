/** What every accepted transaction on a run leaves behind, told by what the run admits afterwards: who holds its fence
    and until when, what its status is, whether its market is free. Together with the exact condition under which each
    transaction is accepted, this is what workers and operators may rely on. */
module CycleEffects {
  import opened Common
  import opened CycleTables
  import opened CycleProtocol

  /** Transactions of an owner x on the run are let through at exactly the clocks before `end`, and of nobody else. */
  ghost predicate HeldUntil(r: Run, o: Owner, end: int) {
    forall x, u: int :: r.Fenced(x, u) <==> x == o && u < end
  }

  /** No owner's transaction is let through at this clock. */
  ghost predicate NobodyHolds(r: Run, clock: int) { forall x :: !r.Fenced(x, clock) }

  ghost predicate NobodyElseHolds(r: Run, o: Owner, clock: int) { forall x :: r.Fenced(x, clock) ==> x == o }

  /** Nobody holds the run at any clock, and nobody is recorded on it. */
  ghost predicate LetGo(r: Run) { r.owner.None? && r.lease.None? && forall u :: NobodyHolds(r, u) }

  predicate NotEnded(r: Run) { r.status in {Accepted, Running, Published, CancelRequested} }

  /** All tables but this run's row and the slots are as they were, and no slot but the run's own has changed. */
  ghost predicate OnlyRunChanged(before: Db, after: Db, c: CycleId) {
    && before.runs.Keys == after.runs.Keys && c in before.runs
    && (forall d | d in before.runs && d != c :: after.runs[d] == before.runs[d])
    && after.progress == before.progress && after.radar == before.radar
    && after.evidence == before.evidence && after.acquisitions == before.acquisitions
    && (forall m | m in before.slots && before.slots[m] != c :: m in after.slots)
    && (forall m | m in after.slots :: m in before.slots && after.slots[m] == before.slots[m])
  }

  /** The run has ended with this status and error: nobody holds it and no slot names it. */
  ghost predicate EndedAs(before: Db, after: Db, c: CycleId, status: Status, error: Option<Opaque>) {
    && OnlyRunChanged(before, after, c)
    && LetGo(after.runs[c]) && after.runs[c].status == status && after.runs[c].error == error
    && (forall m | m in after.slots :: after.slots[m] != c)
    && after.runs[c] == before.runs[c].(status := status, error := error, owner := None, lease := None)
  }

  function RunStep(c: CycleId, step: RunOp): Action { Perform(OnRun(c, step)) }

  // ---------------------------------------------------------------- holding a run

  /** A renewal is accepted exactly for the holder of a run that has not ended, and lets it hold the run before
      `sampled + seconds`, neither longer nor shorter. Nothing else changes. */
  lemma RenewalHoldsUntil(w: World, c: CycleId, o: Owner, sampled: int, seconds: int)
    requires sampled <= w.clock
    ensures var a := RunStep(c, Renew(o, sampled, seconds)); var after := Step(w, a).db;
      && (Commits(w, a) <==> c in w.db.runs && w.db.runs[c].Fenced(o, w.clock) && NotEnded(w.db.runs[c]))
      && (Commits(w, a) ==>
            && OnlyRunChanged(w.db, after, c) && after.slots == w.db.slots
            && HeldUntil(after.runs[c], o, sampled + seconds)
            && after.runs[c] == w.db.runs[c].(lease := after.runs[c].lease))
      && (!Commits(w, a) ==> after == w.db)
  {
  }

  /** A claim is accepted exactly when the run has not ended and nobody else holds it just before the reading. It lets
      the claimer hold the run before `sampled + seconds`; an ACCEPTED run starts, any other counts a resumption unless
      the claimer was its recorded owner already. */
  lemma ClaimHoldsUntil(w: World, c: CycleId, o: Owner, sampled: int, seconds: int)
    requires sampled <= w.clock
    ensures var a := RunStep(c, Claim(o, sampled, seconds)); var after := Step(w, a).db;
      && (Commits(w, a) <==>
            c in w.db.runs && NotEnded(w.db.runs[c])
            && NobodyElseHolds(w.db.runs[c], o, sampled - 1))
      && (Commits(w, a) ==>
            var r := w.db.runs[c]; var s := after.runs[c];
            && OnlyRunChanged(w.db, after, c) && after.slots == w.db.slots
            && HeldUntil(s, o, sampled + seconds)
            && (r.status == Accepted ==> s.status == Running && s.resumeCount == r.resumeCount)
            && (r.status != Accepted ==>
                  && s.status == r.status
                  && (r.owner == Some(o) ==> s.resumeCount == r.resumeCount)
                  && (r.owner != Some(o) ==> s.resumeCount == r.resumeCount + 1))
            && s == r.(owner := Some(o), lease := s.lease, status := s.status, resumeCount := s.resumeCount))
      && (!Commits(w, a) ==> after == w.db)
  {
    var a := RunStep(c, Claim(o, sampled, seconds));
    if c in w.db.runs && w.db.runs[c].owner.Some? && w.db.runs[c].owner != Some(o) {
      assert w.db.runs[c].Fenced(w.db.runs[c].owner.value, sampled - 1) <==>
        w.db.runs[c].lease.Some? && w.db.runs[c].lease.value >= sampled;
    }
  }

  /** A release is accepted exactly for the holder of a run that has not ended, and leaves everything but the hold. */
  lemma ReleaseLetsGo(w: World, c: CycleId, o: Owner)
    ensures var a := RunStep(c, Release(o)); var after := Step(w, a).db;
      && (Commits(w, a) <==> c in w.db.runs && w.db.runs[c].Fenced(o, w.clock) && NotEnded(w.db.runs[c]))
      && (Commits(w, a) ==>
            && OnlyRunChanged(w.db, after, c) && after.slots == w.db.slots && LetGo(after.runs[c])
            && after.runs[c] == w.db.runs[c].(owner := None, lease := None))
      && (!Commits(w, a) ==> after == w.db)
  {
  }

  /** Released, a run is anybody's: every claim of a run that has not ended is accepted, however it is timed. */
  lemma ReleasedRunCanBeClaimed(w: World, c: CycleId, o: Owner, next: Owner, sampled: int, seconds: int)
    requires Commits(w, RunStep(c, Release(o))) && sampled <= w.clock
    ensures Commits(Step(w, RunStep(c, Release(o))), RunStep(c, Claim(next, sampled, seconds)))
  {
    ReleaseLetsGo(w, c, o);
    ClaimHoldsUntil(Step(w, RunStep(c, Release(o))), c, next, sampled, seconds);
  }

  // ---------------------------------------------------------------- progress of a run and its end

  /** The statuses an update with this status argument is let through in. */
  predicate UpdateAllowed(s: Status, f: Option<Final>) {
    && (f == Some(ToCompleted) ==> s in {Running, Published})
    && (f == Some(ToCancelled) ==> s in {Accepted, Running, CancelRequested})
    && (f == Some(ToFailed) || f.None? ==> s in {Accepted, Running})
  }

  /** An update is accepted exactly for the holder in those statuses. A value that is given replaces the stored one and
      any other stays; a final status ends the run under that name. */
  lemma UpdateEffect(w: World, c: CycleId, o: Owner, f: Fields)
    ensures var a := RunStep(c, Update(o, f)); var after := Step(w, a).db;
      && (Commits(w, a) <==>
            c in w.db.runs && w.db.runs[c].Fenced(o, w.clock) && UpdateAllowed(w.db.runs[c].status, f.status))
      && (Commits(w, a) ==>
            var r := w.db.runs[c]; var s := after.runs[c];
            && OnlyRunChanged(w.db, after, c)
            && s == r.(status := s.status, asOf := s.asOf, selection := s.selection, error := s.error,
                       owner := s.owner, lease := s.lease)
            && s.asOf == (if f.asOf.Some? then f.asOf else r.asOf)
            && s.selection == (if f.selection.Some? then f.selection else r.selection)
            && s.error == (if f.error.Some? then f.error else r.error)
            && (f.status.None? ==>
                  s.status == r.status && s.owner == r.owner && s.lease == r.lease && after.slots == w.db.slots)
            && (f.status.Some? ==> LetGo(s) && forall m | m in after.slots :: after.slots[m] != c)
            && (f.status == Some(ToCompleted) ==> s.status == Completed)
            && (f.status == Some(ToFailed) ==> s.status == Failed)
            && (f.status == Some(ToCancelled) ==> s.status == Cancelled))
      && (!Commits(w, a) ==> after == w.db)
  {
  }

  /** A run is failed from outside exactly when it is ACCEPTED or RUNNING and nobody holds it. */
  lemma FailUnownedEffect(w: World, c: CycleId, e: Opaque)
    requires Inv(w.db)
    ensures var a := RunStep(c, FailUnowned(e)); var after := Step(w, a).db;
      && (Commits(w, a) <==>
            c in w.db.runs && w.db.runs[c].status in {Accepted, Running} && NobodyHolds(w.db.runs[c], w.clock))
      && (Commits(w, a) ==> EndedAs(w.db, after, c, Failed, Some(e)))
      && (!Commits(w, a) ==> after == w.db)
  {
    if c in w.db.runs { UnheldMeansUnowned(w.db.runs[c], w.clock); }
  }

  /** The unowned test of the statements is exactly that nobody holds the run. */
  lemma UnheldMeansUnowned(r: Run, clock: int)
    ensures r.Unowned(clock) <==> NobodyHolds(r, clock)
  {
    if !r.Unowned(clock) { assert r.Fenced(r.owner.value, clock); }
  }

  /** A cancellation is requested of an ACCEPTED or RUNNING run, whoever holds it and without taking its hold. */
  lemma RequestCancelEffect(w: World, c: CycleId, e: Opaque)
    ensures var a := RunStep(c, RequestCancel(e)); var after := Step(w, a).db;
      && (Commits(w, a) <==> c in w.db.runs && w.db.runs[c].status in {Accepted, Running})
      && (Commits(w, a) ==>
            && OnlyRunChanged(w.db, after, c) && after.slots == w.db.slots
            && after.runs[c].status == CancelRequested && after.runs[c].error == Some(e)
            && (forall x, u :: after.runs[c].Fenced(x, u) <==> w.db.runs[c].Fenced(x, u))
            && after.runs[c] == w.db.runs[c].(status := CancelRequested, error := Some(e)))
      && (!Commits(w, a) ==> after == w.db)
  {
  }

  /** The holder cancels a run that is neither published nor ended. */
  lemma CancelEffect(w: World, c: CycleId, o: Owner, e: Opaque)
    ensures var a := RunStep(c, Cancel(o, e)); var after := Step(w, a).db;
      && (Commits(w, a) <==>
            c in w.db.runs && w.db.runs[c].Fenced(o, w.clock)
            && w.db.runs[c].status in {Accepted, Running, CancelRequested})
      && (Commits(w, a) ==> EndedAs(w.db, after, c, Cancelled, Some(e)))
      && (!Commits(w, a) ==> after == w.db)
  {
  }

  /** A requested cancellation is finalized from outside exactly when nobody holds the run. */
  lemma CancelUnownedEffect(w: World, c: CycleId, e: Opaque)
    ensures var a := RunStep(c, CancelUnowned(e)); var after := Step(w, a).db;
      && (Commits(w, a) <==>
            c in w.db.runs && w.db.runs[c].status == CancelRequested && NobodyHolds(w.db.runs[c], w.clock))
      && (Commits(w, a) ==> EndedAs(w.db, after, c, Cancelled, Some(e)))
      && (!Commits(w, a) ==> after == w.db)
  {
    if c in w.db.runs { UnheldMeansUnowned(w.db.runs[c], w.clock); }
  }

  // ---------------------------------------------------------------- creation and publication

  /** A run is created exactly under an unused id in a free market. It is ACCEPTED, nobody holds it, it selects nothing,
      and it is the market's active run; every other table and run is as it was. */
  lemma InsertEffect(w: World, c: CycleId, m: Market, p: Opaque)
    ensures var a := Perform(Insert(c, m, p)); var after := Step(w, a).db;
      && (Commits(w, a) <==> c !in w.db.runs && m !in w.db.slots)
      && (Commits(w, a) ==>
            && after.runs.Keys == w.db.runs.Keys + {c} && (forall d | d in w.db.runs :: after.runs[d] == w.db.runs[d])
            && after.slots.Keys == w.db.slots.Keys + {m}
              && (forall n | n in w.db.slots :: after.slots[n] == w.db.slots[n])
            && after.progress == w.db.progress && after.radar == w.db.radar
            && after.evidence == w.db.evidence && after.acquisitions == w.db.acquisitions
            && ActiveRun(after, m) == Some((c, after.runs[c]))
            && LetGo(after.runs[c]) && after.runs[c].status == Accepted && after.runs[c].resumeCount == 0
            && after.runs[c].market == m && after.runs[c].parameters == p
            && after.runs[c].asOf.None? && after.runs[c].selection.None? && after.runs[c].error.None?)
      && (!Commits(w, a) ==> after == w.db)
  {
  }

  /** Once a run has ended in a reachable state its market is free: the next creation under an unused id succeeds. */
  lemma EndedRunFreesItsMarket(w: World, a: Action, c: CycleId, next: CycleId, p: Opaque)
    requires Inv(w.db) && c in w.db.runs && NotEnded(w.db.runs[c]) && next !in w.db.runs
    requires a.Perform? && a.op.OnRun? && c in Step(w, a).db.runs && !NotEnded(Step(w, a).db.runs[c])
    ensures a.op.cycle == c && LetGo(Step(w, a).db.runs[c])
    ensures Commits(Step(w, a), Perform(Insert(next, w.db.runs[c].market, p)))
  {
    var w1 := Step(w, a);
    StepKeepsInv(w, a);
    assert a.op.cycle == c;
    TransitionOk(w.db.runs[c], a.op.step, w.clock);
    InsertEffect(w1, next, w.db.runs[c].market, p);
  }

  /** A save without a fence is always accepted; a fenced one exactly when its owner holds the RUNNING fence cycle when
      the transaction begins and when it ends. The first payload stored for a cycle stays; an accepted fenced save marks
      the fence cycle PUBLISHED and nothing else. */
  lemma SaveRadarEffect(w: World, c: CycleId, p: Opaque, fence: Option<Fence>, endClock: int)
    requires w.clock <= endClock
    ensures var a := Perform(SaveRadar(c, p, fence, endClock)); var after := Step(w, a).db;
      && (Commits(w, a) <==> fence.None? || HoldsRunning(w.db, fence.value, w.clock, endClock))
      && (Commits(w, a) ==>
            && after.radar.Keys == w.db.radar.Keys + {c}
            && (c !in w.db.radar ==> after.radar[c] == p)
            && (forall d | d in w.db.radar :: after.radar[d] == w.db.radar[d])
            && after.slots == w.db.slots && after.progress == w.db.progress
            && after.evidence == w.db.evidence && after.acquisitions == w.db.acquisitions
            && (fence.None? ==> after.runs == w.db.runs)
            && (fence.Some? ==>
                  && OnlyRunChanged(w.db.(radar := after.radar), after, fence.value.cycle)
                  && after.runs[fence.value.cycle] == w.db.runs[fence.value.cycle].(status := Published)))
      && (!Commits(w, a) ==> after == w.db)
  {
  }

  predicate HoldsRunning(db: Db, f: Fence, clock: int, endClock: int) {
    && f.cycle in db.runs && db.runs[f.cycle].status == Running
    && db.runs[f.cycle].Fenced(f.owner, clock) && db.runs[f.cycle].Fenced(f.owner, endClock)
  }

  /** Evidence and attempt are added together or not at all, under the same condition. */
  lemma SaveAcquisitionEffect(w: World, attempt: Opaque, ev: set<Opaque>, fence: Option<Fence>, endClock: int)
    requires w.clock <= endClock
    ensures var a := Perform(SaveAcquisition(attempt, ev, fence, endClock)); var after := Step(w, a).db;
      && (Commits(w, a) <==> fence.None? || HoldsRunning(w.db, fence.value, w.clock, endClock))
      && after == w.db.(evidence := after.evidence, acquisitions := after.acquisitions)
      && (Commits(w, a) ==>
            && (forall e :: e in after.evidence <==> e in w.db.evidence || e in ev)
            && (forall b :: b in after.acquisitions <==> b in w.db.acquisitions || b == attempt))
      && (!Commits(w, a) ==> after == w.db)
  {
  }

  /** A progress write is accepted exactly for the holder of the key's cycle while it runs, or, for an outcome of a row
      that exists, while it drains a requested cancellation. It sets that row and no other, and only a start counts. */
  lemma RecordEffect(w: World, o: Owner, k: Key, s: CandidateState, d: Option<Opaque>, f: Option<Opaque>,
                     p: Option<Opaque>, start: bool)
    ensures var a := Perform(Record(o, k, s, d, f, p, start)); var after := Step(w, a).db;
      && (Commits(w, a) <==>
            && k.cycle in w.db.runs && w.db.runs[k.cycle].Fenced(o, w.clock)
            && (w.db.runs[k.cycle].status == Running
                || (w.db.runs[k.cycle].status == CancelRequested && k in w.db.progress && !start)))
      && (Commits(w, a) ==>
            && after == w.db.(progress := after.progress)
            && after.progress.Keys == w.db.progress.Keys + {k}
            && (forall j | j in w.db.progress && j != k :: after.progress[j] == w.db.progress[j])
            && var row := after.progress[k]; var had := if k in w.db.progress then w.db.progress[k].attempts else 0;
            && row.state == s && row.disposition == d && row.failureReason == f && row.payload == p
            && row.attempts == (if start then had + 1 else had))
      && (!Commits(w, a) ==> after == w.db)
  {
  }
}
