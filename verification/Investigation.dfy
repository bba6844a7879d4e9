/** Requirement-scoped acquisition: the shared budget, and the loop that decides each requirement and batches the
    members of a capability group into one acquisition. */
module Investigation {
  import opened Common

  // ---------------------------------------------------------------- the budget

  const SINGLETON_MAX_DOCUMENTS := 4
  const SINGLETON_MAX_QUERIES := 2

  datatype Ledger = Ledger(documents: nat, queries: nat, stopped: bool, exhausted: bool)

  datatype Limits = Limits(maxDocuments: nat, maxQueries: nat)

  /** One call on the budget: a document slot, given whether the evidence is sufficient by now, or queries. */
  datatype Ask = Document(sufficient: bool) | Queries(requested: nat)

  /** What the call grants: 1 or 0 for a document, the number of queries otherwise. */
  function Granted(b: Ledger, limits: Limits, a: Ask): int {
    match a
    case Document(sufficient) => if b.stopped || sufficient || b.documents >= limits.maxDocuments then 0 else 1
    case Queries(requested) => Min(requested, limits.maxQueries - b.queries)
  }

  function After(b: Ledger, limits: Limits, a: Ask): Ledger requires b.queries <= limits.maxQueries {
    var g := Granted(b, limits, a);
    match a
    case Document(sufficient) =>
      if b.stopped || sufficient then b.(stopped := true)
      else if g == 0 then b.(exhausted := true) else b.(documents := b.documents + 1)
    case Queries(_) => b.(queries := b.queries + g, exhausted := b.exhausted || g == 0)
  }

  class RequirementAcquisitionBudget {
    const limits: Limits
    var documentsAttempted: nat
    var queriesReserved: nat
    var stopped: bool
    var exhausted: bool

    ghost predicate Valid() reads this { queriesReserved <= limits.maxQueries }

    function Now(): Ledger reads this { Ledger(documentsAttempted, queriesReserved, stopped, exhausted) }

    /** The budget of an acquisition that serves this many requirements. */
    constructor (members: nat)
      ensures Valid() && Now() == Ledger(0, 0, false, false)
      ensures limits == Limits(SINGLETON_MAX_DOCUMENTS * members, SINGLETON_MAX_QUERIES * members)
    {
      limits := Limits(SINGLETON_MAX_DOCUMENTS * members, SINGLETON_MAX_QUERIES * members);
      documentsAttempted, queriesReserved, stopped, exhausted := 0, 0, false, false;
    }

    method AllowDocument(sufficient: bool) returns (allowed: bool)
      requires Valid()
      modifies this
      ensures Valid() && Now() == After(old(Now()), limits, Document(sufficient))
      ensures allowed <==> Granted(old(Now()), limits, Document(sufficient)) == 1
    {
      if stopped || sufficient {
        stopped := true;
        return false;
      }
      if documentsAttempted >= limits.maxDocuments {
        exhausted := true;
        return false;
      }
      documentsAttempted := documentsAttempted + 1;
      return true;
    }

    method ReserveQueries(requested: nat) returns (allowed: nat)
      requires Valid()
      modifies this
      ensures Valid() && Now() == After(old(Now()), limits, Queries(requested))
      ensures allowed == Granted(old(Now()), limits, Queries(requested))
    {
      allowed := Min(requested, limits.maxQueries - queriesReserved);
      queriesReserved := queriesReserved + allowed;
      if allowed == 0 { exhausted := true; }
    }
  }

  function Spend(b: Ledger, limits: Limits, asks: seq<Ask>): Ledger
    requires b.queries <= limits.maxQueries
    decreases asks
  {
    if asks == [] then b else Spend(After(b, limits, asks[0]), limits, asks[1..])
  }

  ghost function DocumentsGranted(b: Ledger, limits: Limits, asks: seq<Ask>): int
    requires b.queries <= limits.maxQueries
    decreases asks
  {
    if asks == [] then 0
    else (if asks[0].Document? then Granted(b, limits, asks[0]) else 0)
         + DocumentsGranted(After(b, limits, asks[0]), limits, asks[1..])
  }

  ghost function QueriesGranted(b: Ledger, limits: Limits, asks: seq<Ask>): int
    requires b.queries <= limits.maxQueries
    decreases asks
  {
    if asks == [] then 0
    else (if asks[0].Queries? then Granted(b, limits, asks[0]) else 0)
         + QueriesGranted(After(b, limits, asks[0]), limits, asks[1..])
  }

  ghost function Requested(asks: seq<Ask>): nat {
    if asks == [] then 0 else (if asks[0].Queries? then asks[0].requested else 0) + Requested(asks[1..])
  }

  /** Over any sequence of calls the queries granted are exactly the smaller of what was left and what was asked. */
  lemma {:induction false} QueriesAreMetUpToTheLimit(b: Ledger, limits: Limits, asks: seq<Ask>)
    requires b.queries <= limits.maxQueries
    ensures QueriesGranted(b, limits, asks) == Min(limits.maxQueries - b.queries, Requested(asks))
    decreases asks
  {
    if asks != [] { QueriesAreMetUpToTheLimit(After(b, limits, asks[0]), limits, asks[1..]); }
  }

  /** Documents granted stay within the limit, and none is granted once the budget has stopped. */
  lemma {:induction false} DocumentsStayWithinTheLimit(b: Ledger, limits: Limits, asks: seq<Ask>)
    requires b.queries <= limits.maxQueries && b.documents <= limits.maxDocuments
    ensures 0 <= DocumentsGranted(b, limits, asks)
    ensures b.documents + DocumentsGranted(b, limits, asks) == Spend(b, limits, asks).documents <= limits.maxDocuments
    ensures b.stopped ==> DocumentsGranted(b, limits, asks) == 0 && Spend(b, limits, asks).stopped
    decreases asks
  {
    if asks != [] { DocumentsStayWithinTheLimit(After(b, limits, asks[0]), limits, asks[1..]); }
  }

  /** A call marks the budget exhausted exactly when it grants nothing for want of allowance, or asks for nothing. */
  lemma ExhaustionMeansNothingGranted(b: Ledger, limits: Limits, a: Ask)
    requires b.queries <= limits.maxQueries && b.documents <= limits.maxDocuments && !b.exhausted
    ensures After(b, limits, a).exhausted <==>
      (match a
       case Document(sufficient) => !b.stopped && !sufficient && b.documents == limits.maxDocuments
       case Queries(requested) => requested == 0 || b.queries == limits.maxQueries)
  {
  }

  // ---------------------------------------------------------------- calls that overlap

  /** A document call asks whether the evidence is sufficient and waits for the answer; other calls go on meanwhile. */
  datatype Event = Enquire(call: int) | Answer(call: int, sufficient: bool) | Reserve(requested: nat)

  /** The ledger and the calls that wait for their answer. */
  datatype Desk = Desk(ledger: Ledger, waiting: set<int>)

  /** What remains of allow_document once the answer is there: the stop mark is not looked at again. */
  function Answered(b: Ledger, limits: Limits, sufficient: bool): Ledger {
    if sufficient then b.(stopped := true)
    else if b.documents >= limits.maxDocuments then b.(exhausted := true)
    else b.(documents := b.documents + 1)
  }

  function React(d: Desk, limits: Limits, e: Event): Desk requires d.ledger.queries <= limits.maxQueries {
    match e
    case Enquire(call) => if d.ledger.stopped then d else d.(waiting := d.waiting + {call})
    case Answer(call, sufficient) =>
      if call !in d.waiting then d else Desk(Answered(d.ledger, limits, sufficient), d.waiting - {call})
    case Reserve(requested) => d.(ledger := After(d.ledger, limits, Queries(requested)))
  }

  function Overlapping(d: Desk, limits: Limits, events: seq<Event>): Desk
    requires d.ledger.queries <= limits.maxQueries
    decreases events
  {
    if events == [] then d else Overlapping(React(d, limits, events[0]), limits, events[1..])
  }

  /** However calls overlap, documents stay within the limit; and once the budget has stopped it stays so, and grants at
      most one document to each call that was waiting then. */
  lemma {:induction false} OverlappingCallsStayWithinTheLimit(d: Desk, limits: Limits, events: seq<Event>)
    requires d.ledger.queries <= limits.maxQueries && d.ledger.documents <= limits.maxDocuments
    ensures var t := Overlapping(d, limits, events);
      && d.ledger.documents <= t.ledger.documents <= limits.maxDocuments
      && (d.ledger.stopped ==>
            t.ledger.stopped && t.ledger.documents + |t.waiting| <= d.ledger.documents + |d.waiting|)
    decreases events
  {
    if events != [] {
      var e := React(d, limits, events[0]);
      if events[0].Answer? && events[0].call in d.waiting { assert |e.waiting| == |d.waiting| - 1; }
      OverlappingCallsStayWithinTheLimit(e, limits, events[1..]);
    }
  }

  /** A call that is answered before any other begins is the atomic one. */
  lemma ACallOnItsOwn(d: Desk, limits: Limits, call: int, sufficient: bool)
    requires d.ledger.queries <= limits.maxQueries && call !in d.waiting
    ensures React(React(d, limits, Enquire(call)), limits, Answer(call, sufficient)) ==
      d.(ledger := After(d.ledger, limits, Document(sufficient)))
  {
  }

  /** Two calls wait; the first answer stops the budget, the second still gets its document. */
  lemma ADocumentAfterTheStop(limits: Limits)
    requires limits.maxDocuments >= 1
    ensures var waiting := React(React(Desk(Ledger(0, 0, false, false), {}), limits, Enquire(1)), limits, Enquire(2));
      var stopped := React(waiting, limits, Answer(1, true));
      stopped.ledger.stopped
        && React(stopped, limits, Answer(2, false)).ledger.documents == stopped.ledger.documents + 1
  {
  }

  // ---------------------------------------------------------------- requirements and their groups

  datatype Requirement =
    | ValuationInputs | LatestPrice | SectorMacro
    | BusinessQualityFacts | GrowthFacts | BalanceSheetFacts | QuarterlyFinancials
    | OrderBookCapexGuidance | Shareholding | GovernanceHistory
    | CurrentNews | Ungrouped(id: int)

  const GROUPS: seq<seq<Requirement>> := [
    [ValuationInputs, LatestPrice, SectorMacro],
    [BusinessQualityFacts, GrowthFacts, BalanceSheetFacts, QuarterlyFinancials],
    [OrderBookCapexGuidance, Shareholding, GovernanceHistory]
  ]

  function GroupOf(r: Requirement): (g: Option<nat>)
    ensures g.Some? ==> g.value < |GROUPS|
  {
    match r
    case ValuationInputs | LatestPrice | SectorMacro => Some(0)
    case BusinessQualityFacts | GrowthFacts | BalanceSheetFacts | QuarterlyFinancials => Some(1)
    case OrderBookCapexGuidance | Shareholding | GovernanceHistory => Some(2)
    case _ => None
  }

  lemma GroupsPartition(r: Requirement, g: nat)
    requires g < |GROUPS|
    ensures r in GROUPS[g] <==> GroupOf(r) == Some(g)
  {
    if g == 0 {
    } else if g == 1 {
    } else {
      assert g == 2;
    }
  }

  // ---------------------------------------------------------------- the dispatch loop

  /** One evaluation of `_requires_acquisition`, against a fresh readiness read. */
  datatype Decision = Decision(req: Requirement, needs: bool)

  datatype Kind = Alone | Background | Batch(group: nat)

  /** One acquisition: its members are what the single `ensure` call is asked for. */
  datatype Dispatch = Dispatch(kind: Kind, members: seq<Requirement>)

  ghost predicate Decided(log: seq<Decision>, r: Requirement) { exists i :: 0 <= i < |log| && log[i].req == r }

  ghost predicate Needed(log: seq<Decision>, r: Requirement) {
    exists i :: 0 <= i < |log| && log[i] == Decision(r, true)
  }

  ghost predicate EachDecidedOnce(log: seq<Decision>) { forall i, j | 0 <= i < j < |log| :: log[i].req != log[j].req }

  /** The acquisition asks for exactly what it should. */
  ghost predicate Fitting(d: Dispatch, log: seq<Decision>) {
    && d.members != [] && Unrepeated(d.members)
    && (forall r | r in d.members :: Needed(log, r))
    && (match d.kind
        case Batch(g) => g < |GROUPS| && forall r :: GroupOf(r) == Some(g) ==>
          Decided(log, r) && (Needed(log, r) ==> r in d.members)
        case Background => d.members == [CurrentNews]
        case Alone => |d.members| == 1)
    && (forall r | r in d.members :: GroupOf(r) == if d.kind.Batch? then Some(d.kind.group) else None)
  }

  ghost predicate Served(issued: seq<Dispatch>, r: Requirement) {
    exists k :: 0 <= k < |issued| && r in issued[k].members
  }

  ghost predicate Disjoint(issued: seq<Dispatch>) {
    forall j, k, r | 0 <= j < k < |issued| && r in issued[j].members :: r !in issued[k].members
  }

  /** Between two iterations: everything decided to be needed is in exactly one acquisition. */
  ghost predicate Settled(log: seq<Decision>, issued: seq<Dispatch>) {
    && EachDecidedOnce(log)
    && (forall k | 0 <= k < |issued| :: Fitting(issued[k], log))
    && Disjoint(issued)
    && (forall r | Needed(log, r) :: Served(issued, r))
  }

  lemma DecidedAfter(log: seq<Decision>, d: Decision, r: Requirement)
    ensures Decided(log + [d], r) <==> Decided(log, r) || r == d.req
    ensures Needed(log + [d], r) <==> Needed(log, r) || (r == d.req && d.needs)
  {
    var more := log + [d];
    assert more[|log|] == d;
    if i :| 0 <= i < |log| && log[i].req == r { assert more[i] == log[i]; }
    if i :| 0 <= i < |log| && log[i] == Decision(r, true) { assert more[i] == log[i]; }
  }

  /** A decision about a requirement that no issued acquisition could have waited for leaves them fitting. */
  lemma FittingAfter(d: Dispatch, log: seq<Decision>, x: Decision)
    requires Fitting(d, log) && !Decided(log, x.req)
    ensures Fitting(d, log + [x])
  {
    forall r ensures Decided(log + [x], r) <==> Decided(log, r) || r == x.req { DecidedAfter(log, x, r); }
    forall r ensures Needed(log + [x], r) <==> Needed(log, r) || (r == x.req && x.needs) { DecidedAfter(log, x, r); }
    NeededIsDecided(log);
  }

  lemma NeededIsDecided(log: seq<Decision>)
    ensures forall r | Needed(log, r) :: Decided(log, r)
  {
    forall r | Needed(log, r) ensures Decided(log, r) {
      var i :| 0 <= i < |log| && log[i] == Decision(r, true);
      assert log[i].req == r;
    }
  }

  lemma StillOnce(log: seq<Decision>, x: Decision)
    requires EachDecidedOnce(log) && !Decided(log, x.req)
    ensures EachDecidedOnce(log + [x])
  {
  }

  lemma UnneededSettles(log: seq<Decision>, issued: seq<Dispatch>, r: Requirement)
    requires Settled(log, issued) && !Decided(log, r)
    ensures Settled(log + [Decision(r, false)], issued)
  {
    var x := Decision(r, false);
    StillOnce(log, x);
    forall k | 0 <= k < |issued| ensures Fitting(issued[k], log + [x]) { FittingAfter(issued[k], log, x); }
    forall y | Needed(log + [x], y) ensures Served(issued, y) { DecidedAfter(log, x, y); }
  }

  /** What has been asked for was decided to be needed, and with it its whole group was decided. */
  lemma ServedIsDecided(log: seq<Decision>, issued: seq<Dispatch>, r: Requirement)
    requires Settled(log, issued) && Served(issued, r)
    ensures Needed(log, r) && forall m | GroupOf(m) == GroupOf(r) && GroupOf(m).Some? :: Decided(log, m)
  {
    var k :| 0 <= k < |issued| && r in issued[k].members;
    assert Fitting(issued[k], log);
  }

  lemma UndecidedIsUnserved(log: seq<Decision>, issued: seq<Dispatch>, r: Requirement)
    requires Settled(log, issued) && !Decided(log, r)
    ensures !Served(issued, r)
  {
    NeededIsDecided(log);
    if Served(issued, r) { ServedIsDecided(log, issued, r); }
  }

  /** Before any member of a group is decided to be needed, no acquisition of the group can have been issued. */
  lemma NoMemberNeededBefore(log: seq<Decision>, issued: seq<Dispatch>, r: Requirement, g: nat)
    requires Settled(log, issued) && !Decided(log, r) && GroupOf(r) == Some(g)
    ensures forall m | GroupOf(m) == Some(g) :: !Needed(log, m) && !Served(issued, m)
  {
    forall m | GroupOf(m) == Some(g) ensures !Served(issued, m) {
      if Served(issued, m) { ServedIsDecided(log, issued, m); }
    }
  }

  lemma ServedAfter(issued: seq<Dispatch>, d: Dispatch, r: Requirement)
    ensures Served(issued + [d], r) <==> Served(issued, r) || r in d.members
  {
    var more := issued + [d];
    assert more[|issued|] == d;
    if k :| 0 <= k < |issued| && r in issued[k].members { assert more[k] == issued[k]; }
  }

  /** Issuing the acquisition of everything that is needed but not yet served. */
  lemma IssuingSettles(log: seq<Decision>, issued: seq<Dispatch>, d: Dispatch)
    requires EachDecidedOnce(log) && Disjoint(issued) && Fitting(d, log)
    requires forall k | 0 <= k < |issued| :: Fitting(issued[k], log)
    requires forall r | r in d.members :: !Served(issued, r)
    requires forall r | Needed(log, r) :: Served(issued, r) || r in d.members
    ensures Settled(log, issued + [d])
  {
    var more := issued + [d];
    forall r | Needed(log, r) ensures Served(more, r) { ServedAfter(issued, d, r); }
    forall j, k, r | 0 <= j < k < |more| && r in more[j].members ensures r !in more[k].members {
      if k == |issued| { assert Served(issued, r) by { assert r in issued[j].members; } }
    }
  }

  /** A requirement of no group is acquired on its own. */
  lemma SingleSettles(log: seq<Decision>, issued: seq<Dispatch>, r: Requirement, kind: Kind)
    requires Settled(log, issued) && !Decided(log, r) && GroupOf(r).None?
    requires kind.Alone? || (kind.Background? && r == CurrentNews)
    ensures Settled(log + [Decision(r, true)], issued + [Dispatch(kind, [r])])
  {
    var x := Decision(r, true);
    var more := log + [x];
    StillOnce(log, x);
    forall k | 0 <= k < |issued| ensures Fitting(issued[k], more) { FittingAfter(issued[k], log, x); }
    DecidedAfter(log, x, r);
    NeededIsDecided(log);
    if Served(issued, r) { ServedIsDecided(log, issued, r); }
    forall y | Needed(more, y) ensures Served(issued, y) || y in [r] { DecidedAfter(log, x, y); }
    IssuingSettles(more, issued, Dispatch(kind, [r]));
  }

  /** While the mates of a batch are being decided. */
  ghost predicate Gathering(log: seq<Decision>, issued: seq<Dispatch>, g: nat, members: seq<Requirement>) {
    && EachDecidedOnce(log) && Disjoint(issued)
    && (forall k | 0 <= k < |issued| :: Fitting(issued[k], log))
    && members != [] && Unrepeated(members)
    && (forall m | GroupOf(m) == Some(g) :: !Served(issued, m) && (Needed(log, m) <==> m in members))
    && (forall m | m in members :: GroupOf(m) == Some(g))
    && (forall m | Needed(log, m) && GroupOf(m) != Some(g) :: Served(issued, m))
  }

  lemma GatheringStarts(log: seq<Decision>, issued: seq<Dispatch>, r: Requirement, g: nat)
    requires Settled(log, issued) && !Decided(log, r) && GroupOf(r) == Some(g)
    ensures Gathering(log + [Decision(r, true)], issued, g, [r])
  {
    var x := Decision(r, true);
    NoMemberNeededBefore(log, issued, r, g);
    StillOnce(log, x);
    forall k | 0 <= k < |issued| ensures Fitting(issued[k], log + [x]) { FittingAfter(issued[k], log, x); }
    forall m ensures Needed(log + [x], m) <==> Needed(log, m) || m == r { DecidedAfter(log, x, m); }
  }

  lemma GatheringGoesOn(log: seq<Decision>, issued: seq<Dispatch>, g: nat, members: seq<Requirement>, x: Decision)
    requires Gathering(log, issued, g, members) && !Decided(log, x.req) && GroupOf(x.req) == Some(g)
    ensures Gathering(log + [x], issued, g, if x.needs then members + [x.req] else members)
  {
    StillOnce(log, x);
    NeededIsDecided(log);
    forall k | 0 <= k < |issued| ensures Fitting(issued[k], log + [x]) { FittingAfter(issued[k], log, x); }
    forall m ensures Needed(log + [x], m) <==> Needed(log, m) || (m == x.req && x.needs) { DecidedAfter(log, x, m); }
  }

  lemma BatchSettles(log: seq<Decision>, issued: seq<Dispatch>, g: nat, members: seq<Requirement>)
    requires g < |GROUPS| && Gathering(log, issued, g, members)
    requires forall m | GroupOf(m) == Some(g) :: Decided(log, m)
    ensures Settled(log, issued + [Dispatch(Batch(g), members)])
  {
    IssuingSettles(log, issued, Dispatch(Batch(g), members));
  }

  /** `handled` as the set it is; the log knows the same and the answers too. */
  ghost predicate Handles(handled: set<Requirement>, log: seq<Decision>) {
    forall r :: r in handled <==> Decided(log, r)
  }

  /** The answers in the log are the ones that were given. */
  ghost predicate Truthful(log: seq<Decision>, needs: (Requirement, nat) -> bool) {
    forall i | 0 <= i < |log| :: log[i].needs == needs(log[i].req, i)
  }

  /** News is acquired in the background exactly when the caller offers it and the registry has room by then. */
  ghost predicate NewsPlaced(log: seq<Decision>, issued: seq<Dispatch>, background: bool, room: nat -> bool) {
    forall i, k | 0 <= i < |log| && log[i] == Decision(CurrentNews, true)
                  && 0 <= k < |issued| && issued[k].members == [CurrentNews] ::
      issued[k].kind.Background? <==> background && room(i)
  }

  lemma NewsStaysPlaced(log: seq<Decision>, issued: seq<Dispatch>, log1: seq<Decision>, issued1: seq<Dispatch>,
                        background: bool, room: nat -> bool)
    requires NewsPlaced(log, issued, background, room) && log <= log1 && issued <= issued1
    requires forall i | |log| <= i < |log1| :: log1[i] != Decision(CurrentNews, true)
    requires forall k | |issued| <= k < |issued1| :: issued1[k].members != [CurrentNews]
    ensures NewsPlaced(log1, issued1, background, room)
  {
    forall i, k | 0 <= i < |log1| && log1[i] == Decision(CurrentNews, true)
                  && 0 <= k < |issued1| && issued1[k].members == [CurrentNews]
      ensures issued1[k].kind.Background? <==> background && room(i)
    {
      assert log[i] == log1[i] && issued[k] == issued1[k];
    }
  }

  lemma SinglePlaced(log: seq<Decision>, issued: seq<Dispatch>, r: Requirement, kind: Kind, background: bool,
                     room: nat -> bool)
    requires Settled(log, issued) && !Decided(log, r) && GroupOf(r).None? && NewsPlaced(log, issued, background, room)
    requires kind == if r == CurrentNews && background && room(|log|) then Background else Alone
    ensures NewsPlaced(log + [Decision(r, true)], issued + [Dispatch(kind, [r])], background, room)
  {
    if r != CurrentNews {
      assert [r][0] != [CurrentNews][0];
      NewsStaysPlaced(log, issued, log + [Decision(r, true)], issued + [Dispatch(kind, [r])], background, room);
    } else {
      UndecidedIsUnserved(log, issued, r);
      assert CurrentNews in [CurrentNews];
    }
  }

  /** The log while the mates of group g are decided. */
  ghost predicate GrowsWith(log0: seq<Decision>, log: seq<Decision>, handled: set<Requirement>, g: nat,
                            needs: (Requirement, nat) -> bool)
  {
    && log0 <= log && Handles(handled, log) && Truthful(log, needs)
    && (forall i | |log0| <= i < |log| :: GroupOf(log[i].req) == Some(g))
  }

  lemma GrowsByOne(log0: seq<Decision>, log: seq<Decision>, handled: set<Requirement>, g: nat,
                   needs: (Requirement, nat) -> bool, x: Decision)
    requires GrowsWith(log0, log, handled, g, needs) && GroupOf(x.req) == Some(g) && x.needs == needs(x.req, |log|)
    ensures GrowsWith(log0, log + [x], handled + {x.req}, g, needs)
  {
    forall m ensures m in handled + {x.req} <==> Decided(log + [x], m) { DecidedAfter(log, x, m); }
  }

  /** The inner loop: decide every mate that is still open, and submit all that need acquisition together. */
  method DispatchGroup(r: Requirement, g: nat, needs: (Requirement, nat) -> bool, handled0: set<Requirement>,
                       log0: seq<Decision>, issued: seq<Dispatch>)
    returns (handled: set<Requirement>, log: seq<Decision>, dispatch: Dispatch)
    requires Settled(log0, issued) && Handles(handled0, log0) && r !in handled0 && GroupOf(r) == Some(g)
    requires Truthful(log0, needs) && needs(r, |log0|)
    ensures GrowsWith(log0, log, handled, g, needs) && r in handled
    ensures Settled(log, issued + [dispatch]) && dispatch.kind == Batch(g)
  {
    var first := Decision(r, true);
    GatheringStarts(log0, issued, r, g);
    GrowsByOne(log0, log0, handled0, g, needs, first);
    handled, log := handled0 + {r}, log0 + [first];
    var members := [r];
    var group := GROUPS[g];
    for n := 0 to |group|
      invariant Gathering(log, issued, g, members) && GrowsWith(log0, log, handled, g, needs) && r in handled
      invariant forall i | 0 <= i < n :: group[i] in handled
    {
      var other := group[n];
      GroupsPartition(other, g);
      if other !in handled {
        var x := Decision(other, needs(other, |log|));
        GatheringGoesOn(log, issued, g, members, x);
        GrowsByOne(log0, log, handled, g, needs, x);
        handled, log := handled + {other}, log + [x];
        if x.needs { members := members + [other]; }
      }
    }
    forall m | GroupOf(m) == Some(g) ensures Decided(log, m) {
      GroupsPartition(m, g);
      var i :| 0 <= i < |group| && group[i] == m;
      assert group[i] in handled;
    }
    BatchSettles(log, issued, g, members);
    dispatch := Dispatch(Batch(g), members);
  }

  /** Only the plan, and the batch mates of what is planned, is decided at all. */
  ghost predicate Planned(plan: seq<Requirement>, log: seq<Decision>) {
    forall i | 0 <= i < |log| ::
      log[i].req in plan || exists m :: m in plan && GroupOf(m).Some? && GroupOf(m) == GroupOf(log[i].req)
  }

  /** Everything the outer loop keeps. */
  ghost predicate Progressing(plan: seq<Requirement>, handled: set<Requirement>, log: seq<Decision>,
                              issued: seq<Dispatch>, needs: (Requirement, nat) -> bool, background: bool,
                              room: nat -> bool)
  {
    && Settled(log, issued) && Handles(handled, log) && Truthful(log, needs) && Planned(plan, log)
    && NewsPlaced(log, issued, background, room)
  }

  lemma UnneededProgresses(plan: seq<Requirement>, handled: set<Requirement>, log: seq<Decision>, issued: seq<Dispatch>,
                           needs: (Requirement, nat) -> bool, background: bool, room: nat -> bool, r: Requirement)
    requires Progressing(plan, handled, log, issued, needs, background, room)
    requires r in plan && r !in handled && !needs(r, |log|)
    ensures Progressing(plan, handled + {r}, log + [Decision(r, false)], issued, needs, background, room)
  {
    var x := Decision(r, false);
    forall m ensures m in handled + {r} <==> Decided(log + [x], m) { DecidedAfter(log, x, m); }
    UnneededSettles(log, issued, r);
    NewsStaysPlaced(log, issued, log + [x], issued, background, room);
  }

  lemma SingleProgresses(plan: seq<Requirement>, handled: set<Requirement>, log: seq<Decision>, issued: seq<Dispatch>,
                         needs: (Requirement, nat) -> bool, background: bool, room: nat -> bool, r: Requirement,
                         kind: Kind)
    requires Progressing(plan, handled, log, issued, needs, background, room)
    requires r in plan && r !in handled && needs(r, |log|) && GroupOf(r).None?
    requires kind == if r == CurrentNews && background && room(|log|) then Background else Alone
    ensures Progressing(plan, handled + {r}, log + [Decision(r, true)], issued + [Dispatch(kind, [r])], needs,
                        background, room)
  {
    var x := Decision(r, true);
    forall m ensures m in handled + {r} <==> Decided(log + [x], m) { DecidedAfter(log, x, m); }
    SingleSettles(log, issued, r, kind);
    SinglePlaced(log, issued, r, kind, background, room);
  }

  lemma GroupProgresses(plan: seq<Requirement>, handled0: set<Requirement>, log0: seq<Decision>, issued: seq<Dispatch>,
                        needs: (Requirement, nat) -> bool, background: bool, room: nat -> bool, r: Requirement, g: nat,
                        handled: set<Requirement>, log: seq<Decision>, d: Dispatch)
    requires Progressing(plan, handled0, log0, issued, needs, background, room)
    requires r in plan && GroupOf(r) == Some(g)
    requires GrowsWith(log0, log, handled, g, needs) && Settled(log, issued + [d]) && d.kind == Batch(g)
    ensures Progressing(plan, handled, log, issued + [d], needs, background, room)
  {
    assert Fitting((issued + [d])[|issued|], log);
    assert CurrentNews in [CurrentNews];
    NewsStaysPlaced(log0, issued, log, issued + [d], background, room);
  }

  /** The loop of `investigate`: `needs(r, n)` is the answer for r after n earlier decisions, `room(n)` whether the
      background registry still has capacity then. Every planned requirement is decided, each once; what is decided
      to be needed is in exactly one acquisition; a group has at most one, with exactly its needed members. */
  method Dispatches(plan: seq<Requirement>, needs: (Requirement, nat) -> bool, background: bool, room: nat -> bool)
    returns (log: seq<Decision>, issued: seq<Dispatch>)
    ensures Settled(log, issued) && Truthful(log, needs) && Planned(plan, log)
    ensures forall r | r in plan :: Decided(log, r)
    ensures NewsPlaced(log, issued, background, room)
  {
    var handled: set<Requirement> := {};
    log, issued := [], [];
    for n := 0 to |plan|
      invariant Progressing(plan, handled, log, issued, needs, background, room)
      invariant forall i | 0 <= i < n :: plan[i] in handled
    {
      var r := plan[n];
      if r in handled { continue; }
      if !needs(r, |log|) {
        UnneededProgresses(plan, handled, log, issued, needs, background, room, r);
        handled, log := handled + {r}, log + [Decision(r, false)];
      } else if GroupOf(r).None? {
        var kind := if r == CurrentNews && background && room(|log|) then Background else Alone;
        SingleProgresses(plan, handled, log, issued, needs, background, room, r, kind);
        handled, log, issued := handled + {r}, log + [Decision(r, true)], issued + [Dispatch(kind, [r])];
      } else {
        var g := GroupOf(r).value;
        var all, more, dispatch := DispatchGroup(r, g, needs, handled, log, issued);
        GroupProgresses(plan, handled, log, issued, needs, background, room, r, g, all, more, dispatch);
        forall i | 0 <= i < n ensures plan[i] in all { StillHandled(log, more, handled, all, g, needs, plan[i]); }
        handled, log, issued := all, more, issued + [dispatch];
      }
    }
  }

  lemma StillHandled(log0: seq<Decision>, log: seq<Decision>, handled0: set<Requirement>, handled: set<Requirement>,
                     g: nat, needs: (Requirement, nat) -> bool, r: Requirement)
    requires Handles(handled0, log0) && GrowsWith(log0, log, handled, g, needs) && r in handled0
    ensures r in handled
  {
    var i :| 0 <= i < |log0| && log0[i].req == r;
    assert log[i].req == r;
  }

  /** At most one acquisition per group, and it asks for exactly the members decided to be needed. */
  lemma OneAcquisitionPerGroup(log: seq<Decision>, issued: seq<Dispatch>, j: nat, k: nat, g: nat)
    requires Settled(log, issued) && j < |issued| && k < |issued|
    requires issued[j].kind == Batch(g) && issued[k].kind == Batch(g)
    ensures j == k
    ensures forall r :: r in issued[j].members <==> GroupOf(r) == Some(g) && Needed(log, r)
  {
    assert Fitting(issued[j], log) && Fitting(issued[k], log);
    var r := issued[j].members[0];
    assert r in issued[j].members && r in issued[k].members;
  }

  /** One acquisition, one budget: its documents never exceed four per member it asks for, however its calls run. */
  lemma DocumentsPerMember(log: seq<Decision>, issued: seq<Dispatch>, k: nat, asks: seq<Ask>)
    requires Settled(log, issued) && k < |issued|
    ensures var n := |issued[k].members|;
      var limits := Limits(SINGLETON_MAX_DOCUMENTS * n, SINGLETON_MAX_QUERIES * n);
      && DocumentsGranted(Ledger(0, 0, false, false), limits, asks) <= 4 * n
      && QueriesGranted(Ledger(0, 0, false, false), limits, asks) == Min(2 * n, Requested(asks))
      && 1 <= n <= 4
  {
    var n := |issued[k].members|;
    var limits := Limits(SINGLETON_MAX_DOCUMENTS * n, SINGLETON_MAX_QUERIES * n);
    DocumentsStayWithinTheLimit(Ledger(0, 0, false, false), limits, asks);
    QueriesAreMetUpToTheLimit(Ledger(0, 0, false, false), limits, asks);
    assert Fitting(issued[k], log);
    if issued[k].kind.Batch? { AtMostFourMembers(issued[k].members, issued[k].kind.group); }
  }

  lemma AtMostFourMembers(members: seq<Requirement>, g: nat)
    requires g < |GROUPS| && Unrepeated(members) && forall r | r in members :: GroupOf(r) == Some(g)
    ensures |members| <= 4
  {
    forall i | 0 <= i < |members| ensures members[i] in GROUPS[g] {
      assert members[i] in members;
      GroupsPartition(members[i], g);
    }
    UnrepeatedWithin(members, GROUPS[g]);
  }

  // ---------------------------------------------------------------- the window of a batch

  /** The batch's lookback: unbounded as soon as one member's is, else the widest. */
  method SharedLookback(members: seq<Requirement>, lookbackFor: Requirement -> Option<nat>)
    returns (lookback: Option<nat>)
    ensures lookback.None? <==> members == [] || exists r :: r in members && lookbackFor(r).None?
    ensures lookback.Some? ==>
      && (forall r | r in members :: lookbackFor(r).Some? && lookbackFor(r).value <= lookback.value)
      && (exists r :: r in members && lookbackFor(r) == lookback)
  {
    lookback := None;
    for n := 0 to |members|
      invariant lookback.None? <==> n == 0
      invariant forall i | 0 <= i < n :: lookbackFor(members[i]).Some?
      invariant lookback.Some? ==> forall i | 0 <= i < n :: lookbackFor(members[i]).value <= lookback.value
      invariant lookback.Some? ==> exists r :: r in members && lookbackFor(r) == lookback
    {
      var own := lookbackFor(members[n]);
      if own.None? {
        assert members[n] in members;
        return None;
      }
      lookback := if lookback.None? then own else Some(Max(lookback.value, own.value));
      assert members[n] in members;
    }
  }
}
