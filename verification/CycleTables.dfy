/** The durable tables of the opportunity cycle and the guarded statements that change them.

    One `Op` is one database transaction. `Apply` gives its meaning on table values: the new tables and
    whether the guarded statement matched a row. `CycleRunStore` is the object that performs them in place.
    Every guard that compares a lease with the database clock takes that clock as a parameter. */
module CycleTables {
  import opened Common

  // Identifiers and payloads are opaque: only equality matters.
  type CycleId = int
  type Owner = int
  type Market = int
  type Opaque = int

  datatype Status = Accepted | Running | Published | CancelRequested | Completed | Failed | Cancelled {
    /** ACTIVE_RUN_STATUSES */
    predicate Active() { Accepted? || Running? || Published? || CancelRequested? }
  }

  datatype CandidateState =
    Pending | InProgress | AnalysisCompleted | RetryableFailure | EvidenceUnavailable | TerminalOutcome
  {
    /** FINAL_STATES */
    predicate Final() { AnalysisCompleted? || EvidenceUnavailable? || TerminalOutcome? }
  }

  datatype Phase = Baseline | Deep | EtfOnboard

  /** The stored selection: the request accounting of the ETF driver and everything else it holds. */
  datatype Selection = Selection(reservations: nat, maxRequests: nat, body: Opaque)

  datatype Run = Run(market: Market, status: Status, parameters: Opaque, asOf: Option<Opaque>,
                     selection: Option<Selection>, owner: Option<Owner>, lease: Option<int>,
                     resumeCount: nat, error: Option<Opaque>)
  {
    /** `lease_expires_at > clock`; a NULL lease never satisfies it. */
    predicate Live(clock: int) { lease.Some? && lease.value > clock }

    /** `owner_id = o AND lease_expires_at > clock`: the fence of every owned write. */
    predicate Fenced(o: Owner, clock: int) { owner == Some(o) && Live(clock) }

    /** `owner_id IS NULL OR lease_expires_at IS NULL OR lease_expires_at <= clock` */
    predicate Unowned(clock: int) { owner.None? || lease.None? || lease.value <= clock }
  }

  datatype Key = Key(cycle: CycleId, phase: Phase, instrument: Opaque)

  datatype Row = Row(state: CandidateState, disposition: Option<Opaque>, failureReason: Option<Opaque>,
                     attempts: nat, payload: Option<Opaque>)

  datatype Db = Db(runs: map<CycleId, Run>, slots: map<Market, CycleId>, progress: map<Key, Row>,
                   radar: map<CycleId, Opaque>, evidence: set<Opaque>, acquisitions: set<Opaque>)

  const EMPTY_DB := Db(map[], map[], map[], map[], {}, {})

  /** The keyword arguments of update_cycle_run; `status` ranges over the values its guard handles. */
  datatype Final = ToCompleted | ToFailed | ToCancelled
  datatype Fields = Fields(status: Option<Final>, asOf: Option<Opaque>, selection: Option<Selection>,
                           error: Option<Opaque>)

  datatype Fence = Fence(cycle: CycleId, owner: Owner)

  datatype RunOp =
    | Claim(owner: Owner, sampled: int, seconds: int)
    | Renew(owner: Owner, sampled: int, seconds: int)
    | Release(owner: Owner)
    | Update(owner: Owner, fields: Fields)
    | FailUnowned(error: Opaque)
    | RequestCancel(error: Opaque)
    | Cancel(owner: Owner, error: Opaque)
    | CancelUnowned(error: Opaque)

  datatype Op =
    | Insert(cycle: CycleId, market: Market, parameters: Opaque)
    | OnRun(cycle: CycleId, step: RunOp)
    | Record(owner: Owner, key: Key, state: CandidateState, disposition: Option<Opaque>,
             failureReason: Option<Opaque>, payload: Option<Opaque>, start: bool)
    | SaveRadar(cycle: CycleId, document: Opaque, fence: Option<Fence>, endClock: int)
    | SaveAcquisition(attempt: Opaque, evidence: set<Opaque>, fence: Option<Fence>, endClock: int)

  function StatusOf(f: Final): Status {
    match f case ToCompleted => Completed case ToFailed => Failed case ToCancelled => Cancelled
  }

  function Or<T>(change: Option<T>, current: Option<T>): Option<T> {
    if change.Some? then change else current
  }

  /** The statuses from which update_cycle_run accepts the given status argument. */
  predicate UpdatableFrom(s: Status, f: Option<Final>) {
    match f
    case Some(ToCompleted) => s.Running? || s.Published?
    case Some(ToCancelled) => s.Accepted? || s.Running? || s.CancelRequested?
    case _ => s.Accepted? || s.Running?
  }

  /** The guarded UPDATE of one run row: the row it leaves, or None when the WHERE clause matches nothing. */
  function Transition(r: Run, op: RunOp, clock: int): Option<Run> {
    match op
    case Claim(o, sampled, seconds) =>
      if r.status.Active() && (r.owner.None? || r.owner == Some(o) || r.lease.None? || r.lease.value < sampled)
      then Some(r.(resumeCount := r.resumeCount + (if !r.status.Accepted? && r.owner != Some(o) then 1 else 0),
                   status := if r.status.Accepted? then Running else r.status,
                   owner := Some(o), lease := Some(sampled + seconds)))
      else None
    case Renew(o, sampled, seconds) =>
      if r.Fenced(o, clock) && r.status.Active() then Some(r.(lease := Some(sampled + seconds))) else None
    case Release(o) =>
      if r.Fenced(o, clock) && r.status.Active() then Some(r.(owner := None, lease := None)) else None
    case Update(o, f) =>
      if !r.Fenced(o, clock) || !UpdatableFrom(r.status, f.status) then None else
      var r1 := r.(asOf := Or(f.asOf, r.asOf), selection := Or(f.selection, r.selection),
                   error := Or(f.error, r.error));
      Some(if f.status.None? then r1
           else r1.(status := StatusOf(f.status.value), owner := None, lease := None))
    case FailUnowned(e) =>
      if (r.status.Accepted? || r.status.Running?) && r.Unowned(clock)
      then Some(r.(status := Failed, error := Some(e), owner := None, lease := None)) else None
    case RequestCancel(e) =>
      if r.status.Accepted? || r.status.Running?
      then Some(r.(status := CancelRequested, error := Some(e))) else None
    case Cancel(o, e) =>
      if r.Fenced(o, clock) && (r.status.CancelRequested? || r.status.Running? || r.status.Accepted?)
      then Some(r.(status := Cancelled, error := Some(e), owner := None, lease := None)) else None
    case CancelUnowned(e) =>
      if r.status.CancelRequested? && r.Unowned(clock)
      then Some(r.(status := Cancelled, error := Some(e), owner := None, lease := None)) else None
  }

  /** `DELETE FROM global_opportunity_cycle_active WHERE cycle_id = c` */
  function WithoutSlot(slots: map<Market, CycleId>, c: CycleId): map<Market, CycleId> {
    map m | m in slots && slots[m] != c :: slots[m]
  }

  /** A run row and, once it is terminal, its slot. */
  function Install(db: Db, c: CycleId, r: Run): Db {
    db.(runs := db.runs[c := r], slots := if r.status.Active() then db.slots else WithoutSlot(db.slots, c))
  }

  /** Both fences of a save: RUNNING and fenced when the transaction begins, fenced when it ends. */
  predicate Publishable(db: Db, f: Fence, clock: int, endClock: int) {
    && f.cycle in db.runs
    && db.runs[f.cycle].status.Running?
    && db.runs[f.cycle].Fenced(f.owner, clock)
    && db.runs[f.cycle].Fenced(f.owner, endClock)
  }

  /** The SELECT feeding the progress upsert. */
  predicate Recordable(db: Db, o: Owner, k: Key, start: bool, clock: int) {
    && k.cycle in db.runs
    && db.runs[k.cycle].Fenced(o, clock)
    && (db.runs[k.cycle].status.Running?
        || (db.runs[k.cycle].status.CancelRequested? && !start && k in db.progress))
  }

  function Attempts(db: Db, k: Key): nat { if k in db.progress then db.progress[k].attempts else 0 }

  /** `INSERT ... ON CONFLICT DO NOTHING` */
  function InsertIgnore(m: map<CycleId, Opaque>, c: CycleId, p: Opaque): map<CycleId, Opaque> {
    if c in m then m else m[c := p]
  }

  /** The run named by a market's slot. */
  function ActiveRun(db: Db, m: Market): Option<(CycleId, Run)> {
    if m in db.slots && db.slots[m] in db.runs then Some((db.slots[m], db.runs[db.slots[m]])) else None
  }

  /** One transaction: the tables it leaves and whether it was accepted. A refused transaction rolls back. */
  function Apply(db: Db, op: Op, clock: int): (Db, bool) {
    match op
    case Insert(c, m, p) =>
      if c in db.runs || m in db.slots then (db, false)
      else (db.(runs := db.runs[c := Run(m, Accepted, p, None, None, None, None, 0, None)],
                slots := db.slots[m := c]), true)
    case OnRun(c, step) =>
      if c !in db.runs then (db, false) else
      (match Transition(db.runs[c], step, clock)
       case None => (db, false)
       case Some(r) => (Install(db, c, r), true))
    case Record(o, k, s, d, f, p, start) =>
      if !Recordable(db, o, k, start, clock) then (db, false)
      else (db.(progress := db.progress[k := Row(s, d, f, Attempts(db, k) + (if start then 1 else 0), p)]), true)
    case SaveRadar(c, p, None, _) => (db.(radar := InsertIgnore(db.radar, c, p)), true)
    case SaveRadar(c, p, Some(f), endClock) =>
      if !Publishable(db, f, clock, endClock) then (db, false)
      else (db.(runs := db.runs[f.cycle := db.runs[f.cycle].(status := Published)],
                radar := InsertIgnore(db.radar, c, p)), true)
    case SaveAcquisition(a, ev, fence, endClock) =>
      if fence.Some? && !Publishable(db, fence.value, clock, endClock) then (db, false)
      else (db.(evidence := db.evidence + ev, acquisitions := db.acquisitions + {a}), true)
  }

  /** The object form: the tables are fields, each method is one transaction of the persistence mixin. */
  class CycleRunStore {
    var runs: map<CycleId, Run>
    var slots: map<Market, CycleId>
    var progress: map<Key, Row>
    var radar: map<CycleId, Opaque>
    var evidence: set<Opaque>
    var acquisitions: set<Opaque>

    function State(): Db reads this { Db(runs, slots, progress, radar, evidence, acquisitions) }

    constructor ()
      ensures State() == EMPTY_DB
    {
      runs, slots, progress, radar, evidence, acquisitions := map[], map[], map[], map[], {}, {};
    }

    method ActiveCycleRun(m: Market) returns (r: Option<(CycleId, Run)>)
      ensures r == ActiveRun(State(), m)
    {
      if m in slots && slots[m] in runs { return Some((slots[m], runs[slots[m]])); }
      return None;
    }

    /** The insert transaction of create_cycle_run: run row first, slot second; a slot conflict rolls both back. */
    method InsertCycleRun(c: CycleId, m: Market, parameters: Opaque, clock: int) returns (ok: bool)
      modifies this
      ensures (State(), ok) == Apply(old(State()), Insert(c, m, parameters), clock)
    {
      if c in runs { return false; }
      var before := runs;
      runs := runs[c := Run(m, Accepted, parameters, None, None, None, None, 0, None)];
      if m in slots {
        runs := before;
        return false;
      }
      slots := slots[m := c];
      return true;
    }

    /** create_cycle_run when nobody else acts between its three transactions: the market's active run if there is
        one, else the new run, or an error when the id is taken or the slot is held for no run. */
    method CreateCycleRun(c: CycleId, m: Market, parameters: Opaque, clock: int)
      returns (run: Option<(CycleId, Run)>, created: bool)
      modifies this
      ensures ActiveRun(old(State()), m).Some? ==>
        !created && run == ActiveRun(old(State()), m) && State() == old(State())
      ensures ActiveRun(old(State()), m).None? ==>
        (State(), created) == Apply(old(State()), Insert(c, m, parameters), clock)
      ensures created ==> run == ActiveRun(State(), m) && run.Some? && run.value.0 == c
      ensures run.None? <==> ActiveRun(old(State()), m).None? && !created
    {
      run := ActiveCycleRun(m);
      if run.Some? { return run, false; }
      created := InsertCycleRun(c, m, parameters, clock);
      run := if created then Some((c, runs[c])) else None;
      if !created { run := ActiveCycleRun(m); }
    }

    method ClaimCycleRun(c: CycleId, o: Owner, sampled: int, seconds: int, clock: int) returns (ok: bool)
      modifies this
      ensures (State(), ok) == Apply(old(State()), OnRun(c, Claim(o, sampled, seconds)), clock)
    {
      if c !in runs || !runs[c].status.Active() { return false; }
      var r := runs[c];
      if r.owner.Some? && r.owner != Some(o) && r.lease.Some? && r.lease.value >= sampled { return false; }
      if !r.status.Accepted? && r.owner != Some(o) { r := r.(resumeCount := r.resumeCount + 1); }
      if r.status.Accepted? { r := r.(status := Running); }
      runs := runs[c := r.(owner := Some(o), lease := Some(sampled + seconds))];
      return true;
    }

    method RenewCycleLease(c: CycleId, o: Owner, sampled: int, seconds: int, clock: int) returns (ok: bool)
      modifies this
      ensures (State(), ok) == Apply(old(State()), OnRun(c, Renew(o, sampled, seconds)), clock)
    {
      if c !in runs || !runs[c].Fenced(o, clock) || !runs[c].status.Active() { return false; }
      runs := runs[c := runs[c].(lease := Some(sampled + seconds))];
      return true;
    }

    method ReleaseCycleRun(c: CycleId, o: Owner, clock: int)
      modifies this
      ensures State() == Apply(old(State()), OnRun(c, Release(o)), clock).0
    {
      if c in runs && runs[c].Fenced(o, clock) && runs[c].status.Active() {
        runs := runs[c := runs[c].(owner := None, lease := None)];
      }
    }

    /** False stands for CycleOwnershipLost. */
    method UpdateCycleRun(c: CycleId, o: Owner, f: Fields, clock: int) returns (ok: bool)
      modifies this
      ensures (State(), ok) == Apply(old(State()), OnRun(c, Update(o, f)), clock)
    {
      if c !in runs || !runs[c].Fenced(o, clock) || !UpdatableFrom(runs[c].status, f.status) { return false; }
      var r := runs[c];
      if f.status.Some? { r := r.(status := StatusOf(f.status.value)); }
      if f.asOf.Some? { r := r.(asOf := f.asOf); }
      if f.selection.Some? { r := r.(selection := f.selection); }
      if f.error.Some? { r := r.(error := f.error); }
      runs := runs[c := r];
      if f.status.Some? {
        runs := runs[c := r.(owner := None, lease := None)];
        DeleteSlot(c);
      }
      assert Some(runs[c]) == Transition(old(runs)[c], Update(o, f), clock);
      assert runs == old(runs)[c := runs[c]];
      return true;
    }

    method DeleteSlot(c: CycleId)
      modifies this`slots
      ensures slots == WithoutSlot(old(slots), c)
    {
      slots := map m | m in slots && slots[m] != c :: slots[m];
    }

    method FailUnownedCycleRun(c: CycleId, e: Opaque, clock: int)
      modifies this
      ensures State() == Apply(old(State()), OnRun(c, FailUnowned(e)), clock).0
    {
      if c in runs && (runs[c].status.Accepted? || runs[c].status.Running?) && runs[c].Unowned(clock) {
        runs := runs[c := runs[c].(status := Failed, error := Some(e), owner := None, lease := None)];
        DeleteSlot(c);
      }
    }

    method RequestCycleCancel(c: CycleId, e: Opaque, clock: int) returns (ok: bool)
      modifies this
      ensures (State(), ok) == Apply(old(State()), OnRun(c, RequestCancel(e)), clock)
    {
      if c !in runs || !(runs[c].status.Accepted? || runs[c].status.Running?) { return false; }
      runs := runs[c := runs[c].(status := CancelRequested, error := Some(e))];
      return true;
    }

    method CancelCycleRun(c: CycleId, o: Owner, e: Opaque, clock: int) returns (ok: bool)
      modifies this
      ensures (State(), ok) == Apply(old(State()), OnRun(c, Cancel(o, e)), clock)
    {
      if c !in runs || !runs[c].Fenced(o, clock)
        || !(runs[c].status.CancelRequested? || runs[c].status.Running? || runs[c].status.Accepted?) {
        return false;
      }
      runs := runs[c := runs[c].(status := Cancelled, error := Some(e), owner := None, lease := None)];
      DeleteSlot(c);
      return true;
    }

    method CancelCycleRunUnowned(c: CycleId, e: Opaque, clock: int) returns (ok: bool)
      modifies this
      ensures (State(), ok) == Apply(old(State()), OnRun(c, CancelUnowned(e)), clock)
    {
      if c !in runs || !runs[c].status.CancelRequested? || !runs[c].Unowned(clock) { return false; }
      runs := runs[c := runs[c].(status := Cancelled, error := Some(e), owner := None, lease := None)];
      DeleteSlot(c);
      return true;
    }

    method RecordCycleProgress(o: Owner, k: Key, s: CandidateState, d: Option<Opaque>, f: Option<Opaque>,
                               p: Option<Opaque>, start: bool, clock: int) returns (ok: bool)
      modifies this
      ensures (State(), ok) == Apply(old(State()), Record(o, k, s, d, f, p, start), clock)
    {
      if k.cycle !in runs || !runs[k.cycle].Fenced(o, clock) { return false; }
      var status := runs[k.cycle].status;
      if !status.Running? && !(status.CancelRequested? && !start && k in progress) { return false; }
      var increment: nat := if start then 1 else 0;
      if k in progress {
        progress := progress[k := Row(s, d, f, progress[k].attempts + increment, p)];
      } else {
        progress := progress[k := Row(s, d, f, increment, p)];
      }
      return true;
    }

    /** RUNNING -> PUBLISHED inside the caller's transaction. */
    method FenceCyclePublication(f: Fence, clock: int) returns (ok: bool)
      modifies this`runs
      ensures ok <==>
        f.cycle in old(runs) && old(runs)[f.cycle].status.Running? && old(runs)[f.cycle].Fenced(f.owner, clock)
      ensures runs == if ok then old(runs)[f.cycle := old(runs)[f.cycle].(status := Published)] else old(runs)
    {
      if f.cycle in runs && (runs[f.cycle].status.CancelRequested? || runs[f.cycle].status.Cancelled?) { return false; }
      if f.cycle !in runs || !runs[f.cycle].Fenced(f.owner, clock) || !runs[f.cycle].status.Running? { return false; }
      runs := runs[f.cycle := runs[f.cycle].(status := Published)];
      return true;
    }

    /** Publication, payload and the closing ownership check commit or roll back together. */
    method SaveEtfRadarCycle(c: CycleId, p: Opaque, fence: Option<Fence>, clock: int, endClock: int) returns (ok: bool)
      modifies this
      ensures (State(), ok) == Apply(old(State()), SaveRadar(c, p, fence, endClock), clock)
    {
      var runsBefore, radarBefore := runs, radar;
      if fence.Some? {
        ok := FenceCyclePublication(fence.value, clock);
        if !ok { return; }
      }
      if c !in radar { radar := radar[c := p]; }
      if fence.Some? {
        var f := fence.value;
        if !runs[f.cycle].status.Published? || !runs[f.cycle].Fenced(f.owner, endClock) {
          runs, radar := runsBefore, radarBefore;
          return false;
        }
      }
      return true;
    }

    /** Evidence and attempt commit or roll back together; ownership is checked at both ends. */
    method SaveEtfAcquisition(a: Opaque, ev: seq<Opaque>, fence: Option<Fence>, clock: int, endClock: int)
      returns (ok: bool)
      modifies this
      ensures (State(), ok) == Apply(old(State()), SaveAcquisition(a, (set e | e in ev), fence, endClock), clock)
    {
      var evidenceBefore, acquisitionsBefore := evidence, acquisitions;
      if fence.Some? && !Owns(fence.value, clock) { return false; }
      for i := 0 to |ev|
        invariant evidence == evidenceBefore + (set e | e in ev[..i])
        invariant State() == old(State()).(evidence := evidence)
      {
        assert ev[..i + 1] == ev[..i] + [ev[i]];
        evidence := evidence + {ev[i]};
      }
      assert ev[..|ev|] == ev;
      acquisitions := acquisitions + {a};
      if fence.Some? && !Owns(fence.value, endClock) {
        evidence, acquisitions := evidenceBefore, acquisitionsBefore;
        return false;
      }
      return true;
    }

    predicate Owns(f: Fence, clock: int)
      reads this
    {
      f.cycle in runs && runs[f.cycle].status.Running? && runs[f.cycle].Fenced(f.owner, clock)
    }
  }
}
