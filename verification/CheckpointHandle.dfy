/** The orchestrator-facing handle of one owned cycle. */
module CheckpointHandle {
  import opened Common
  import opened CycleTables
  import opened CycleProtocol
  import opened CheckpointSessions

  ghost predicate OthersStay(before: Rows, after: Rows, k: Key) {
    forall other | other in before && other != k :: other in after && after[other] == before[other]
  }

  class CycleCheckpoint {
    const store: CycleRunStore
    const cycle: CycleId
    const owner: Owner
    const maxAttempts: int
    var progress: Rows
    var executed: map<Phase, nat>
    var restored: map<Phase, nat>

    constructor (store: CycleRunStore, cycle: CycleId, owner: Owner, maxAttempts: int)
      ensures this.store == store && this.cycle == cycle && this.owner == owner && this.maxAttempts == maxAttempts
      ensures progress == map[] && forall p, i :: RestorableRow(p, i).None?
      ensures InStep() <==> RowsOf(store.State(), cycle) == map[]
      ensures executed == restored == map[Baseline := 0, Deep := 0, EtfOnboard := 0]
    {
      this.store, this.cycle, this.owner, this.maxAttempts := store, cycle, owner, maxAttempts;
      progress := map[];
      executed := map[Baseline := 0, Deep := 0, EtfOnboard := 0];
      restored := map[Baseline := 0, Deep := 0, EtfOnboard := 0];
    }

    function KeyOf(p: Phase, i: Opaque): Key { Key(cycle, p, i) }

    /** The handle speaks for the tables: nobody has written this cycle's rows behind its back. */
    ghost predicate InStep()
      reads this, store
    {
      Agrees(progress, store.State(), cycle)
    }

    method Load()
      modifies this`progress
      ensures progress == RowsOf(store.State(), cycle) && InStep()
      ensures forall k :: k in progress <==> k in store.progress && k.cycle == cycle
      ensures forall k | k in progress :: progress[k] == store.progress[k]
    {
      progress := RowsOf(store.State(), cycle);
    }

    function RestorableRow(p: Phase, i: Opaque): Option<Row>
      reads this
    {
      Restorable(progress, KeyOf(p, i), maxAttempts)
    }

    method NoteRestored(p: Phase)
      requires p in restored
      modifies this`restored
      ensures restored == old(restored)[p := old(restored)[p] + 1]
    {
      restored := restored[p := restored[p] + 1];
    }

    /** False stands for CycleOwnershipLost; the execution counter moves even then. */
    method Start(p: Phase, i: Opaque, clock: int) returns (ok: bool)
      requires p in executed
      modifies this`progress, this`executed, store
      ensures (store.State(), ok) == Apply(old(store.State()), BeginAction(owner, KeyOf(p, i)).op, clock)
      ensures progress == if ok then Begun(old(progress), KeyOf(p, i)) else old(progress)
      ensures executed == old(executed)[p := old(executed)[p] + 1]
      ensures old(InStep()) ==> InStep()
      ensures ok ==>
        && progress.Keys == old(progress).Keys + {KeyOf(p, i)} && OthersStay(old(progress), progress, KeyOf(p, i))
        && progress[KeyOf(p, i)].state == InProgress
        && progress[KeyOf(p, i)].attempts ==
             1 + (if KeyOf(p, i) in old(progress) then old(progress)[KeyOf(p, i)].attempts else 0)
    {
      executed := executed[p := executed[p] + 1];
      ok := store.RecordCycleProgress(owner, KeyOf(p, i), InProgress, None, None, None, true, clock);
      if ok {
        var k := KeyOf(p, i);
        var row := if k in progress then progress[k] else Row(InProgress, None, None, 0, None);
        progress := progress[k := row.(state := InProgress, attempts := row.attempts + 1)];
      }
    }

    method Finish(p: Phase, i: Opaque, s: CandidateState, d: Option<Opaque>, f: Option<Opaque>, payload: Option<Opaque>,
                  clock: int) returns (ok: bool)
      modifies this`progress, store
      ensures (store.State(), ok) ==
        Apply(old(store.State()), Record(owner, KeyOf(p, i), s, d, f, payload, false), clock)
      ensures progress == if ok then Finished(old(progress), KeyOf(p, i), s, d, f, payload) else old(progress)
      ensures old(InStep()) ==> InStep()
      ensures ok ==>
        && progress.Keys == old(progress).Keys + {KeyOf(p, i)} && OthersStay(old(progress), progress, KeyOf(p, i))
        && progress[KeyOf(p, i)] ==
             Row(s, d, f, if KeyOf(p, i) in old(progress) then old(progress)[KeyOf(p, i)].attempts else 0, payload)
    {
      ok := store.RecordCycleProgress(owner, KeyOf(p, i), s, d, f, payload, false, clock);
      if ok {
        var k := KeyOf(p, i);
        var attempts := if k in progress then progress[k].attempts else 0;
        progress := progress[k := Row(s, d, f, attempts, payload)];
      }
    }
  }

  /** How a worker takes a cycle up, anew or after a crash: the claim, then a new handle, which is empty. It exists
      exactly when the claim is accepted, knows of no restorable row, and speaks for the tables exactly when they have
      no rows. */
  method ClaimAndOpen(store: CycleRunStore, c: CycleId, o: Owner, sampled: int, seconds: int, maxAttempts: int,
                      clock: int)
    returns (cp: CycleCheckpoint?)
    modifies store
    ensures (store.State(), cp != null) == Apply(old(store.State()), OnRun(c, Claim(o, sampled, seconds)), clock)
    ensures cp != null ==>
      && fresh(cp) && cp.store == store && cp.cycle == c && cp.owner == o && cp.maxAttempts == maxAttempts
      && OwnerOf(store.State(), c) == Some(o) && store.progress == old(store.progress)
      && cp.progress == map[] && cp.executed == map[Baseline := 0, Deep := 0, EtfOnboard := 0]
      && (forall p, i :: cp.RestorableRow(p, i).None?)
      && (cp.InStep() <==> RowsOf(store.State(), c) == map[])
  {
    var ok := store.ClaimCycleRun(c, o, sampled, seconds, clock);
    if !ok { return null; }
    cp := new CycleCheckpoint(store, c, o, maxAttempts);
  }

  /** The handle of an equity cycle, which its runner loads before anything else: it answers as the tables do. */
  method ClaimAndLoad(store: CycleRunStore, c: CycleId, o: Owner, sampled: int, seconds: int, maxAttempts: int,
                      clock: int)
    returns (cp: CycleCheckpoint?)
    modifies store
    ensures (store.State(), cp != null) == Apply(old(store.State()), OnRun(c, Claim(o, sampled, seconds)), clock)
    ensures cp != null ==>
      && fresh(cp) && cp.store == store && cp.cycle == c && cp.owner == o && cp.maxAttempts == maxAttempts
      && cp.InStep()
      && OwnerOf(store.State(), c) == Some(o) && store.progress == old(store.progress)
      && forall p, i :: cp.RestorableRow(p, i) == Restorable(store.progress, Key(c, p, i), maxAttempts)
  {
    cp := ClaimAndOpen(store, c, o, sampled, seconds, maxAttempts, clock);
    if cp != null { cp.Load(); }
  }
}
