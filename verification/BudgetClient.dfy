/** The transport object of the ETF driver: reservation before every request, at most three tries, a cache. */
module BudgetClient {
  import opened Common
  import opened CycleTables
  import opened CycleProtocol
  import opened RequestBudget

  datatype Response = Response(status: int, size: nat, content: Opaque) {
    predicate Success() { 200 <= status < 300 }
  }

  datatype Abort = BudgetExhausted | AccessRestricted | ResponseTooLarge

  datatype Request = Request(approved: bool, target: Opaque)

  const MAX_RESPONSE_BYTES := 3_000_000

  predicate SaveAllowed(runs: map<CycleId, Run>, c: CycleId, o: Owner, clock: int) {
    c in runs && runs[c].status in {Accepted, Running} && runs[c].Fenced(o, clock)
  }

  predicate OnlySelectionMoved(before: map<CycleId, Run>, after: map<CycleId, Run>, c: CycleId) {
    (c in before <==> c in after) && (c in before ==> after[c] == before[c].(selection := after[c].selection))
  }

  lemma SameHold(before: map<CycleId, Run>, after: map<CycleId, Run>, c: CycleId, o: Owner, clock: int)
    requires OnlySelectionMoved(before, after, c)
    ensures SaveAllowed(before, c, o, clock) == SaveAllowed(after, c, o, clock)
  {
  }

  class Transport {
    const store: CycleRunStore
    const cycle: CycleId
    const owner: Owner
    var selection: Selection
    var cache: map<Opaque, Response>
    var abort: Option<Abort>

    constructor (store: CycleRunStore, cycle: CycleId, owner: Owner, selection: Selection)
      ensures this.store == store && this.cycle == cycle && this.owner == owner
      ensures this.selection == selection && cache == map[] && abort == None
    {
      this.store, this.cycle, this.owner, this.selection := store, cycle, owner, selection;
      cache, abort := map[], None;
    }

    function Counted(): nat reads this, store { Persisted(store.State(), cycle) }

    /** The in-memory counter covers the persisted one and respects the limit. */
    ghost predicate Valid()
      reads this, store
    {
      Counted() <= selection.reservations <= selection.maxRequests
    }

    /** save_selection: false stands for CycleOwnershipLost. */
    method SaveSelection(clock: int) returns (ok: bool)
      modifies store
      ensures (store.State(), ok) ==
        Apply(old(store.State()), SaveAction(owner, cycle, selection).op, clock)
      ensures ok <==> old(MaySave(clock))
      ensures ok ==> store.runs[cycle] == old(store.runs)[cycle].(selection := Some(selection))
      ensures ok ==> Counted() == selection.reservations
      ensures !ok ==> store.State() == old(store.State())
      ensures OwnerOf(store.State(), cycle) == old(OwnerOf(store.State(), cycle))
      ensures ok ==> OwnerOf(store.State(), cycle) == Some(owner)
    {
      ok := store.UpdateCycleRun(cycle, owner, Fields(None, None, Some(selection), None), clock);
    }

    /** Its owner holds the cycle, as far as the tables tell. */
    predicate Owns()
      reads this, store
    {
      OwnerOf(store.State(), cycle) == Some(owner)
    }

    /** The owner's selection is let through at this clock: it holds the cycle, which is ACCEPTED or RUNNING. */
    predicate MaySave(clock: int)
      reads this, store
    {
      SaveAllowed(store.runs, cycle, owner, clock)
    }

    /** The barrier before any request: once aborted nothing is reserved; at the limit the run aborts; otherwise
        the counter moves and is saved, and only a committed save lets the caller go on. */
    method ReserveRequest(clock: int) returns (ok: bool)
      modifies this`selection, this`abort, store
      ensures old(Valid()) ==> Valid() && (ok ==> Counted() >= old(Counted()) + 1)
      ensures old(Owns()) == Owns() && (ok ==> Owns())
      ensures ok <==>
        old(abort).None? && old(selection.reservations) < old(selection.maxRequests) && old(MaySave(clock))
      ensures ok ==> Counted() == selection.reservations
      ensures OnlySelectionMoved(old(store.runs), store.runs, cycle)
      ensures !ok ==> store.State() == old(store.State())
      ensures selection == old(selection).(reservations :=
        old(selection.reservations) +
        (if old(abort).None? && old(selection.reservations) < old(selection.maxRequests) then 1 else 0))
      ensures abort == (if old(abort).None? && old(selection.reservations) >= old(selection.maxRequests)
                        then Some(BudgetExhausted) else old(abort))
    {
      if abort.Some? { return false; }
      if selection.reservations >= selection.maxRequests {
        abort := Some(BudgetExhausted);
        return false;
      }
      selection := selection.(reservations := selection.reservations + 1);
      ok := SaveSelection(clock);
    }

    /** Try i of a request is let through: the budget has room for it and the owner holds the cycle at its clock. */
    predicate Granted(i: nat, clocks: nat -> int)
      reads this, store
    {
      selection.reservations + i < selection.maxRequests && MaySave(clocks(2 * i))
    }

    /** The three tries of a call; each is granted when three reservations are left and the cycle is held. */
    function Grants(clocks: nat -> int): (granted: seq<bool>)
      reads this, store
      ensures |granted| == 3 && forall i: nat | i < 3 :: granted[i] <==> Granted(i, clocks)
      ensures selection.reservations + 3 <= selection.maxRequests && (forall i :: MaySave(clocks(i))) ==>
        granted == [true, true, true]
    {
      [Granted(0, clocks), Granted(1, clocks), Granted(2, clocks)]
    }

    /** The transport goes out for this request: it is approved, not cached, and the transport has not aborted. */
    predicate GoesOut(r: Request)
      reads this
    {
      r.approved && r.target !in cache && abort.None?
    }

    /** `replies(i)` is what the i-th request of this call receives, `restricted` the body recording a refusal of
        access. None stands for a raised error. A cached answer costs nothing. Otherwise try i of three is made
        exactly when every try up to it is granted and the replies before it are server errors; each is counted by a
        committed save first, and the last reply decides how the call ends. */
    method Get(r: Request, replies: nat -> Response, restricted: Opaque, clocks: nat -> int)
      returns (answer: Option<Response>, sent: nat)
      modifies this`selection, this`abort, this`cache, store
      ensures !old(Owns()) ==> sent == 0 && store.State() == old(store.State())
      ensures !old(GoesOut(r)) ==>
        && sent == 0 && store.State() == old(store.State()) && selection == old(selection) && cache == old(cache)
        && answer == (if r.approved && r.target in cache then Some(cache[r.target]) else None)
        && abort == old(abort)
      ensures old(GoesOut(r)) ==>
        && Tries(old(Grants(clocks)), replies, sent)
        && Ends(old(selection), old(cache), r, replies, restricted, sent, answer, selection, cache, abort)
      ensures sent == 0 ==> Counted() == old(Counted())
      ensures sent > 0 ==> Counted() == old(selection.reservations) + sent
      ensures old(Valid()) ==> Valid() && Counted() >= old(Counted()) + sent
    {
      answer, sent := None, 0;
      if !r.approved { return; }
      if r.target in cache { return Some(cache[r.target]), 0; }
      ghost var before, aborted, granted := selection, abort, Grants(clocks);
      ghost var runs := store.runs;
      for attempt := 0 to 3
        invariant sent == attempt && answer.None? && attempt < 3
        invariant attempt > 0 ==> old(Owns()) && aborted.None? && Counted() == selection.reservations
        invariant cache == old(cache) && abort == aborted
        invariant selection == before.(reservations := before.reservations + attempt)
        invariant attempt > 0 ==> selection.reservations <= selection.maxRequests
        invariant attempt == 0 ==> store.State() == old(store.State())
        invariant OnlySelectionMoved(runs, store.runs, cycle)
        invariant ServerErrors(replies, attempt) && forall h | 0 <= h < attempt :: granted[h]
      {
        SameHold(runs, store.runs, cycle, owner, clocks(2 * attempt));
        TriesEnd(granted, replies, attempt);
        var went, again;
        went, again, answer :=
          Try(r, replies(attempt), restricted, clocks(2 * attempt), clocks(2 * attempt + 1), attempt < 2);
        if went { sent := sent + 1; }
        if !again {
          if aborted.None? {
            CallEnds(before, old(cache), r, replies, restricted, attempt, went, answer, selection, cache, abort);
          }
          return;
        }
      }
    }

    /** One try: reservation, request, reply. */
    method Try(r: Request, response: Response, restricted: Opaque, clock: int, later: int, left: bool)
      returns (went: bool, again: bool, answer: Option<Response>)
      modifies this`selection, this`abort, this`cache, store
      ensures went <==>
        old(abort).None? && old(selection.reservations) < old(selection.maxRequests) && old(MaySave(clock))
      ensures again <==> went && left && response.status >= 500
      ensures went ==> old(Owns()) && Counted() == selection.reservations
      ensures !went ==> store.State() == old(store.State())
      ensures again ==> OnlySelectionMoved(old(store.runs), store.runs, cycle)
      ensures old(abort).Some? ==> selection == old(selection) && abort == old(abort)
      ensures old(abort).None? ==> abort == AbortAfter(old(selection), went, response)
      ensures old(abort).None? ==> selection == SelectionAfter(old(selection), went, response, restricted)
      ensures answer == (if went && Usable(response) then Some(response) else None)
      ensures cache == (if went && Usable(response) then old(cache)[r.target := response] else old(cache))
    {
      answer := None;
      went := ReserveRequest(clock);
      if !went { return false, false, None; }
      again, answer := Receive(r, response, restricted, later, left);
    }

    /** One reply: whether to try again, which only a server error with tries left asks for, and otherwise the answer
        or the reason for which the transport raises, and which it may keep for all requests to come. */
    method Receive(r: Request, response: Response, restricted: Opaque, clock: int, left: bool)
      returns (again: bool, answer: Option<Response>)
      modifies this`selection, this`abort, this`cache, store
      ensures again <==> left && response.status >= 500
      ensures answer == (if 200 <= response.status < 300 && response.size <= 3_000_000 then Some(response) else None)
      ensures cache == (if answer.Some? then old(cache)[r.target := response] else old(cache))
      ensures abort == (if response.status in {403, 429} then Some(AccessRestricted)
                        else if 200 <= response.status < 300 && response.size > 3_000_000 then Some(ResponseTooLarge)
                        else old(abort))
      ensures selection == old(selection).(body :=
        if response.status in {403, 429} then restricted else old(selection.body))
      ensures Counted() == old(Counted()) || Counted() == selection.reservations
      ensures !(response.status in {403, 429}) ==> store.State() == old(store.State())
    {
      again, answer := false, None;
      if response.status == 403 || response.status == 429 {
        abort := Some(AccessRestricted);
        selection := selection.(body := restricted);
        var saved := SaveSelection(clock);
        return;
      }
      if response.status >= 500 && left { return true, None; }
      if !response.Success() { return; }
      if response.size > MAX_RESPONSE_BYTES {
        abort := Some(ResponseTooLarge);
        return;
      }
      cache := cache[r.target := response];
      answer := Some(response);
    }
  }

  /** The first n replies are server errors. */
  predicate ServerErrors(replies: nat -> Response, n: nat) { forall h: nat | h < n :: replies(h).status >= 500 }

  /** Of three tries as many are made: try i exactly when every try up to it is granted and every reply before it is a
      server error. */
  predicate Tries(granted: seq<bool>, replies: nat -> Response, sent: nat)
    requires |granted| == 3
  {
    && sent <= 3
    && forall i: nat | i < 3 :: i < sent <==> (forall h | 0 <= h <= i :: granted[h]) && ServerErrors(replies, i)
  }

  lemma TriesEnd(granted: seq<bool>, replies: nat -> Response, i: nat)
    requires |granted| == 3 && i < 3 && ServerErrors(replies, i) && forall h | 0 <= h < i :: granted[h]
    ensures !granted[i] ==> Tries(granted, replies, i)
    ensures granted[i] && (i == 2 || replies(i).status < 500) ==> Tries(granted, replies, i + 1)
  {
  }

  /** With every try granted the first reply that is no server error is the last one received, and the third is in any
      case. */
  lemma FirstReplyDecides(replies: nat -> Response, sent: nat, i: nat)
    requires Tries([true, true, true], replies, sent) && i < 3 && ServerErrors(replies, i)
    requires replies(i).status < 500 || i == 2
    ensures sent == i + 1
  {
    assert i < sent && (i < 2 ==> !ServerErrors(replies, i + 1));
  }

  /** How a call ends that has sent so many requests: the last reply is the answer, or the reason to abort, or neither;
      with none left to send for, the budget may be the reason. */
  predicate Ends(before: Selection, cached: map<Opaque, Response>, r: Request, replies: nat -> Response,
                 restricted: Opaque, sent: nat, answer: Option<Response>, selection: Selection,
                 cache: map<Opaque, Response>, abort: Option<Abort>)
  {
    && (answer.Some? <==>
          sent > 0 && 200 <= replies(sent - 1).status < 300 && replies(sent - 1).size <= 3_000_000)
    && (answer.Some? ==> answer.value == replies(sent - 1) && cache == cached[r.target := answer.value])
    && (answer.None? ==> cache == cached)
    && (abort == Some(AccessRestricted) <==> sent > 0 && replies(sent - 1).status in {403, 429})
    && (abort == Some(ResponseTooLarge) <==>
          sent > 0 && 200 <= replies(sent - 1).status < 300 && replies(sent - 1).size > 3_000_000)
    && (abort == Some(BudgetExhausted) <==>
          sent < 3 && ServerErrors(replies, sent) && before.reservations + sent >= before.maxRequests)
    && selection.body == (if abort == Some(AccessRestricted) then restricted else before.body)
    && before.reservations + sent <= selection.reservations <= before.reservations + sent + 1
    && selection.reservations <= Max(before.reservations, before.maxRequests)
    && selection.maxRequests == before.maxRequests
  }

  predicate Usable(response: Response) { 200 <= response.status < 300 && response.size <= 3_000_000 }

  function AbortAfter(before: Selection, went: bool, response: Response): Option<Abort> {
    if !went then (if before.reservations >= before.maxRequests then Some(BudgetExhausted) else None)
    else if response.status in {403, 429} then Some(AccessRestricted)
    else if 200 <= response.status < 300 && response.size > 3_000_000 then Some(ResponseTooLarge)
    else None
  }

  function SelectionAfter(before: Selection, went: bool, response: Response, restricted: Opaque): Selection {
    before.(reservations := before.reservations + (if before.reservations < before.maxRequests then 1 else 0),
            body := if went && response.status in {403, 429} then restricted else before.body)
  }

  /** A call ends after so many tries before it because the next is not granted or because its reply decides. */
  lemma CallEnds(before: Selection, cached: map<Opaque, Response>, r: Request, replies: nat -> Response,
                 restricted: Opaque, tried: nat, went: bool, answer: Option<Response>, selection: Selection,
                 cache: map<Opaque, Response>, abort: Option<Abort>)
    requires tried < 3 && ServerErrors(replies, tried) && (went && tried < 2 ==> replies(tried).status < 500)
    requires tried > 0 ==> before.reservations + tried <= before.maxRequests
    requires var mid, last := before.(reservations := before.reservations + tried), replies(tried);
      && (went ==> mid.reservations < mid.maxRequests)
      && abort == AbortAfter(mid, went, last) && selection == SelectionAfter(mid, went, last, restricted)
      && answer == (if went && Usable(last) then Some(last) else None)
      && cache == (if went && Usable(last) then cached[r.target := last] else cached)
    ensures Ends(before, cached, r, replies, restricted, if went then tried + 1 else tried, answer, selection, cache,
                 abort)
  {
    if went { assert tried < 2 ==> !ServerErrors(replies, tried + 1); }
    if !went && tried > 0 { assert replies(tried - 1).status >= 500; }
  }
}
