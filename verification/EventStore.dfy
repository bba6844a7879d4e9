/** Bounded per-instrument retention of research events, and the unbounded store it must be indistinguishable
    from. Durable storage is the list of events it holds; the loader returns those of one instrument. */
module EventStore {
  import opened Common
  import opened Lru

  type EventId = int
  type Instrument = int

  datatype Event = Event(id: EventId, instrument: Instrument, key: int, body: int)

  datatype Bucket = Bucket(events: map<EventId, Event>, keys: set<int>, loaded: bool, pinned: bool)

  /** The reference: everything ever known, by event id. */
  type Known = map<EventId, Event>

  function Of(known: Known, i: Instrument): map<EventId, Event> {
    map id | id in known && known[id].instrument == i :: known[id]
  }

  function Keys(events: map<EventId, Event>): set<int> { set id | id in events :: events[id].key }

  lemma KeysOfOneMore(events: map<EventId, Event>, e: Event)
    requires e.id !in events
    ensures Keys(events[e.id := e]) == Keys(events) + {e.key}
  {
    var more := events[e.id := e];
    forall k | k in Keys(events) + {e.key} ensures k in Keys(more) {
      var id :| if k == e.key then id == e.id else id in events && events[id].key == k;
      assert more[id].key == k;
    }
  }

  /** load_events({instrument}) */
  function Load(disk: seq<Event>, i: Instrument): seq<Event> {
    if disk == [] then []
    else (if disk[0].instrument == i then [disk[0]] else []) + Load(disk[1..], i)
  }

  lemma {:induction false} LoadIsTheInstrumentsEvents(disk: seq<Event>, i: Instrument)
    ensures forall e :: e in Load(disk, i) <==> e in disk && e.instrument == i
  {
    if disk != [] {
      LoadIsTheInstrumentsEvents(disk[1..], i);
      assert disk == [disk[0]] + disk[1..];
    }
  }

  // ---------------------------------------------------------------- the order of use

  /** Who stays when `surplus` buckets are too many: walking from the least recently used, unpinned buckets go
      until the bound holds; the most recently used one always stays. */
  function Survivors(order: seq<Instrument>, pinned: set<Instrument>, surplus: int): seq<Instrument> {
    if order == [] || surplus <= 0 then order
    else if order[0] in pinned || |order| == 1 then [order[0]] + Survivors(order[1..], pinned, surplus)
    else Survivors(order[1..], pinned, surplus - 1)
  }

  lemma {:induction false} SurvivorsAreSome(order: seq<Instrument>, pinned: set<Instrument>, surplus: int)
    requires Distinct(order)
    ensures var kept := Survivors(order, pinned, surplus);
      Distinct(kept) && (forall x | x in kept :: x in order) && (forall x | x in order && x in pinned :: x in kept)
  {
    if order != [] && surplus > 0 {
      var first, tail := order[0], order[1..];
      assert order == [first] + tail && first !in tail;
      SurvivorsAreSome(tail, pinned, if first in pinned || |order| == 1 then surplus else surplus - 1);
    }
  }

  lemma {:induction false} SurvivorsEndAlike(order: seq<Instrument>, pinned: set<Instrument>, surplus: int)
    requires order != []
    ensures var kept := Survivors(order, pinned, surplus);
      kept != [] && kept[|kept| - 1] == order[|order| - 1] && |order| - |kept| <= Max(0, surplus)
  {
    if |order| > 1 && surplus > 0 {
      SurvivorsEndAlike(order[1..], pinned, if order[0] in pinned then surplus else surplus - 1);
    } else if surplus > 0 {
      assert order[1..] == [] && Survivors(order, pinned, surplus) == [order[0]];
    }
  }

  lemma {:induction false} WhenTooFewGo(order: seq<Instrument>, pinned: set<Instrument>, surplus: int)
    requires order != [] && |order| - |Survivors(order, pinned, surplus)| < surplus
    ensures forall x | x in Survivors(order, pinned, surplus) :: x in pinned || x == order[|order| - 1]
  {
    if |order| > 1 {
      WhenTooFewGo(order[1..], pinned, if order[0] in pinned then surplus else surplus - 1);
    } else {
      assert order[1..] == [] && Survivors(order, pinned, surplus) == [order[0]];
    }
  }

  lemma {:induction false} SurvivorsInOrder(order: seq<Instrument>, pinned: set<Instrument>, surplus: int)
    ensures InOrder(Survivors(order, pinned, surplus), order)
    ensures forall x | x in Survivors(order, pinned, surplus) :: x in order
  {
    if order != [] && surplus > 0 {
      var first, tail := order[0], order[1..];
      var rest := if first in pinned || |order| == 1 then surplus else surplus - 1;
      SurvivorsInOrder(tail, pinned, rest);
      OrderFromTail(Survivors(tail, pinned, rest), first, tail);
      assert order == [first] + tail;
    } else {
      forall a, b | 0 <= a < b < |order| ensures Follows(order, order[a], order[b]) { }
    }
  }

  /** Eviction never drops a pinned or the most recently used bucket, drops no more than needed, and stops short of
      the bound only when nothing else may go. */
  lemma EvictionKeepsWhatItMust(order: seq<Instrument>, pinned: set<Instrument>, surplus: int)
    requires Distinct(order)
    ensures var kept := Survivors(order, pinned, surplus);
      && Distinct(kept)
      && (forall x | x in kept :: x in order) && InOrder(kept, order)
      && (forall x | x in order && x in pinned :: x in kept)
      && (order != [] ==> kept != [] && kept[|kept| - 1] == order[|order| - 1])
      && |order| - |kept| <= Max(0, surplus)
      && (|order| - |kept| < surplus ==> forall x | x in kept :: x in pinned || x == order[|order| - 1])
  {
    SurvivorsAreSome(order, pinned, surplus);
    SurvivorsInOrder(order, pinned, surplus);
    if order != [] {
      SurvivorsEndAlike(order, pinned, surplus);
      if |order| - |Survivors(order, pinned, surplus)| < surplus { WhenTooFewGo(order, pinned, surplus); }
    }
  }

  /** It never keeps an unpinned bucket while dropping one used later. */
  lemma {:induction false} EvictionIsLeastRecentlyUsed(order: seq<Instrument>, pinned: set<Instrument>, surplus: int,
                                                       i: nat, j: nat)
    requires Distinct(order) && i < j < |order|
    requires order[i] in Survivors(order, pinned, surplus) && order[j] !in Survivors(order, pinned, surplus)
    ensures order[i] in pinned
  {
    var tail := order[1..];
    assert order == [order[0]] + tail && order[0] !in tail;
    var rest := if order[0] in pinned || |order| == 1 then surplus else surplus - 1;
    assert surplus > 0;
    if i > 0 {
      assert order[i] == tail[i - 1] && order[j] == tail[j - 1];
      EvictionIsLeastRecentlyUsed(tail, pinned, rest, i - 1, j - 1);
    } else if order[0] !in pinned {
      EvictionKeepsWhatItMust(tail, pinned, rest);
    }
  }

  // ---------------------------------------------------------------- the resident part

  datatype Held = Held(order: seq<Instrument>, buckets: map<Instrument, Bucket>, instrumentOf: map<EventId, Instrument>)
  {
    ghost function Pinned(): set<Instrument> { set i | i in buckets && buckets[i].pinned }
  }

  /** Durable storage: what it holds, whether there is any, and what has been registered as durable but is still on its
      way there. */
  datatype Disk = Disk(events: seq<Event>, durable: bool, pending: set<Event>)

  ghost predicate KnownOk(known: Known, disk: Disk) {
    && (forall id | id in known :: known[id].id == id)
    && (disk.durable ==> forall e | e in disk.events :: e.id in known && known[e.id] == e)
    && (forall e | e in disk.pending :: e.id in known && known[e.id] == e)
  }

  ghost predicate BucketOk(b: Bucket, known: Known, i: Instrument) {
    b.loaded && b.events == Of(known, i) && b.keys == Keys(b.events)
  }

  /** An event that is in durable storage, or whose bucket can not be evicted, or that is resident while it is on its
      way to durable storage. */
  ghost predicate Safe(e: Event, buckets: map<Instrument, Bucket>, disk: Disk) {
    || (e.instrument in buckets && (buckets[e.instrument].pinned || e in disk.pending))
    || (disk.durable && e in disk.events)
  }

  ghost predicate HeldOk(h: Held, known: Known, disk: Disk) {
    && Distinct(h.order) && (forall i :: i in h.order <==> i in h.buckets)
    && (forall i | i in h.buckets :: BucketOk(h.buckets[i], known, i))
    && (forall id | id in known :: Safe(known[id], h.buckets, disk))
    && (forall id :: id in h.instrumentOf <==> id in known && known[id].instrument in h.buckets)
    && (forall id | id in h.instrumentOf :: h.instrumentOf[id] == known[id].instrument)
  }

  /** r is h with some buckets, and the whereabouts of their events, forgotten. */
  ghost predicate Shrunk(h: Held, r: Held) {
    && (forall j :: j in r.order <==> j in r.buckets)
    && (forall j | j in r.buckets :: j in h.buckets && r.buckets[j] == h.buckets[j])
    && (forall id :: id in r.instrumentOf <==> id in h.instrumentOf && h.instrumentOf[id] in r.buckets)
    && (forall id | id in r.instrumentOf :: r.instrumentOf[id] == h.instrumentOf[id])
  }

  lemma ShrinkingKeeps(h: Held, r: Held, known: Known, disk: Disk)
    requires HeldOk(h, known, disk) && Shrunk(h, r) && Distinct(r.order)
    requires forall i | i in h.buckets && h.buckets[i].pinned :: i in r.buckets
    requires forall e | e in disk.pending :: e.instrument in r.buckets
    ensures HeldOk(r, known, disk)
  {
    forall id | id in known ensures Safe(known[id], r.buckets, disk) {
      assert Safe(known[id], h.buckets, disk);
    }
  }

  /** Each event of a resident bucket, and no other, is listed under its instrument. */
  ghost predicate Indexed(h: Held) {
    && (forall j, id | j in h.buckets :: id in h.buckets[j].events <==> id in h.instrumentOf && h.instrumentOf[id] == j)
    && (forall id | id in h.instrumentOf :: h.instrumentOf[id] in h.buckets)
  }

  lemma HeldIsIndexed(h: Held, known: Known, disk: Disk)
    requires HeldOk(h, known, disk)
    ensures Indexed(h)
  {
    forall j, id | j in h.buckets
      ensures id in h.buckets[j].events <==> id in h.instrumentOf && h.instrumentOf[id] == j
    {
      assert BucketOk(h.buckets[j], known, j);
    }
  }

  /** A loaded bucket moved, or created, at the recent end. */
  function Touched(h: Held, i: Instrument, b: Bucket): Held {
    Held(Without(h.order, i) + [i], h.buckets[i := b],
         map id | id in h.instrumentOf.Keys + b.events.Keys :: if id in b.events then i else h.instrumentOf[id])
  }

  lemma TouchingKeeps(h: Held, i: Instrument, b: Bucket, known: Known, disk: Disk)
    requires HeldOk(h, known, disk) && KnownOk(known, disk) && BucketOk(b, known, i)
    requires i in h.buckets ==> b == h.buckets[i]
    ensures HeldOk(Touched(h, i, b), known, disk)
  {
    WithoutDropsOnlyOne(h.order, i);
    var t := Touched(h, i, b);
    forall id | id in known ensures Safe(known[id], t.buckets, disk) {
      assert Safe(known[id], h.buckets, disk);
    }
  }

  lemma TouchingPinsNothing(h: Held, i: Instrument, b: Bucket)
    requires if i in h.buckets then b == h.buckets[i] else !b.pinned
    ensures Touched(h, i, b).Pinned() == h.Pinned()
  {
  }

  /** An accepted event in the bucket of its instrument. */
  function Registered(h: Held, e: Event, isDurable: bool): Held
    requires e.instrument in h.buckets
  {
    var b := h.buckets[e.instrument];
    h.(instrumentOf := h.instrumentOf[e.id := e.instrument],
       buckets := h.buckets[e.instrument :=
         Bucket(b.events[e.id := e], b.keys + {e.key}, b.loaded, b.pinned || !isDurable)])
  }

  lemma RegisteringPins(h: Held, e: Event, isDurable: bool)
    requires e.instrument in h.buckets
    ensures Registered(h, e, isDurable).Pinned() == h.Pinned() + (if isDurable then {} else {e.instrument})
  {
    var b := h.buckets[e.instrument];
    assert Registered(h, e, isDurable).buckets[e.instrument].pinned == (b.pinned || !isDurable);
  }

  /** A durable event is on its way to storage once it is registered. */
  function Awaited(disk: Disk, e: Event, isDurable: bool): Disk {
    if isDurable then disk.(pending := disk.pending + {e}) else disk
  }

  /** upsert_event has arrived. */
  function Stored(disk: Disk, e: Event): Disk { Disk(disk.events + [e], disk.durable, disk.pending - {e}) }

  lemma StoringKeeps(h: Held, e: Event, known: Known, disk: Disk)
    requires HeldOk(h, known, disk) && KnownOk(known, disk) && e in disk.pending && disk.durable
    ensures HeldOk(h, known, Stored(disk, e)) && KnownOk(known, Stored(disk, e))
  {
    var after := Stored(disk, e);
    forall id | id in known ensures Safe(known[id], h.buckets, after) { assert Safe(known[id], h.buckets, disk); }
    forall x | x in after.events ensures x.id in known && known[x.id] == x { assert x == e || x in disk.events; }
  }

  lemma RegisteringKeepsBucket(h: Held, e: Event, isDurable: bool, known: Known, i: Instrument)
    requires e.instrument in h.buckets && BucketOk(h.buckets[e.instrument], known, e.instrument)
    requires i in h.buckets && BucketOk(h.buckets[i], known, i) && e.id !in known
    ensures i in Registered(h, e, isDurable).buckets
      && BucketOk(Registered(h, e, isDurable).buckets[i], known[e.id := e], i)
  {
    var more := known[e.id := e];
    if i == e.instrument {
      KeysOfOneMore(Of(known, i), e);
      assert Of(more, i) == Of(known, i)[e.id := e];
    } else {
      assert Of(more, i) == Of(known, i);
    }
  }

  lemma RegisteringKeepsSafe(h: Held, e: Event, isDurable: bool, disk: Disk, other: Event)
    requires e.instrument in h.buckets && (isDurable ==> disk.durable)
    requires other == e || Safe(other, h.buckets, disk)
    ensures Safe(other, Registered(h, e, isDurable).buckets, Awaited(disk, e, isDurable))
  {
  }

  lemma RegisteringKeepsKnown(e: Event, isDurable: bool, known: Known, disk: Disk)
    requires KnownOk(known, disk) && e.id !in known && (isDurable ==> disk.durable)
    ensures KnownOk(known[e.id := e], Awaited(disk, e, isDurable))
  {
  }

  lemma RegisteringKeeps(h: Held, e: Event, isDurable: bool, known: Known, disk: Disk)
    requires HeldOk(h, known, disk) && e.instrument in h.buckets
    requires e.id !in known && (isDurable ==> disk.durable)
    ensures HeldOk(Registered(h, e, isDurable), known[e.id := e], Awaited(disk, e, isDurable))
  {
    var more, r, after := known[e.id := e], Registered(h, e, isDurable), Awaited(disk, e, isDurable);
    assert r.order == h.order && r.buckets.Keys == h.buckets.Keys;
    forall i | i in r.buckets ensures BucketOk(r.buckets[i], more, i) {
      RegisteringKeepsBucket(h, e, isDurable, known, i);
    }
    forall id | id in more ensures Safe(more[id], r.buckets, after) {
      RegisteringKeepsSafe(h, e, isDurable, disk, more[id]);
    }
    assert r.instrumentOf == h.instrumentOf[e.id := e.instrument];
  }

  /** Where nothing of i is resident, durable storage has all of it. */
  lemma AbsentMeansStored(h: Held, known: Known, disk: Disk, i: Instrument)
    requires HeldOk(h, known, disk) && i !in h.buckets
    ensures forall id | id in Of(known, i) :: disk.durable && known[id] in disk.events
  {
    forall id | id in Of(known, i) ensures disk.durable && known[id] in disk.events {
      assert Safe(known[id], h.buckets, disk);
    }
  }

  lemma KnownIdMeansKnownKey(known: Known, e: Event)
    requires e.id in known ==> known[e.id].instrument == e.instrument && known[e.id].key == e.key
    ensures e.id in known ==> e.key in Keys(Of(known, e.instrument))
  {
    if e.id in known { assert Of(known, e.instrument)[e.id].key == e.key; }
  }

  /** The order of use and the pinned buckets. */
  datatype Shelf = Shelf(order: seq<Instrument>, pinned: set<Instrument>)

  /** The buckets that remain, in order, when instrument i is used. */
  function KeptBy(shelf: Shelf, i: Instrument, max: nat): seq<Instrument> {
    var order := Without(shelf.order, i) + [i];
    Survivors(order, shelf.pinned, |order| - max)
  }

  /** The instrument moves to the end, and as many of the longest unused ones go as are too many then. */
  lemma UsingOne(shelf: Shelf, i: Instrument, max: nat)
    requires Distinct(shelf.order)
    ensures var others := Without(shelf.order, i);
      && KeptBy(shelf, i, max) == Survivors(others + [i], shelf.pinned, |others| + 1 - max)
      && InOrder(KeptBy(shelf, i, max), others + [i]) && KeptBy(shelf, i, max) != []
      && KeptBy(shelf, i, max)[|KeptBy(shelf, i, max)| - 1] == i
  {
    SurvivorsInOrder(Without(shelf.order, i) + [i], shelf.pinned, |Without(shelf.order, i)| + 1 - max);
    SurvivorsEndAlike(Without(shelf.order, i) + [i], shelf.pinned, |Without(shelf.order, i)| + 1 - max);
  }

  /** Using instrument i evicts nothing that is on its way to durable storage. */
  ghost predicate Undisturbed(shelf: Shelf, i: Instrument, max: nat, disk: Disk) {
    forall e | e in disk.pending :: e.instrument in KeptBy(shelf, i, max)
  }

  /** That is exactly what it takes: an unstored event of an evicted bucket is not loaded again. */
  lemma CompletenessIsExact(h: Held, r: Held, i: Instrument, max: nat, known: Known, disk: Disk)
    requires HeldOk(h, known, disk) && KnownOk(known, disk) && h.order != [] && h.order[|h.order| - 1] == i
    requires Shrunk(h, r) && r.order == Survivors(h.order, h.Pinned(), |h.order| - max)
    requires forall e | e in disk.pending :: e !in disk.events
    ensures HeldOk(r, known, disk) <==> forall e | e in disk.pending :: e.instrument in r.order
    ensures forall e | e in disk.pending && e.instrument !in r.order :: e !in Load(disk.events, e.instrument)
  {
    if forall e | e in disk.pending :: e.instrument in r.order {
      AfterEviction(h, r, i, max, known, disk);
    } else {
      var e :| e in disk.pending && e.instrument !in r.order;
      assert !Safe(known[e.id], r.buckets, disk);
    }
    forall e | e in disk.pending && e.instrument !in r.order ensures e !in Load(disk.events, e.instrument) {
      LoadIsTheInstrumentsEvents(disk.events, e.instrument);
    }
  }

  /** Such a use: with room for one instrument, looking at another one before the event is stored loses it. */
  lemma ForgottenBeforeStored(e: Event, j: Instrument)
    requires j != e.instrument
    ensures !Undisturbed(Shelf([e.instrument], {}), j, 1, Awaited(Disk([], true, {}), e, true))
    ensures KeptBy(Shelf([e.instrument], {}), j, 1) == [j]
  {
    assert [e.instrument][1..] == [] && [e.instrument, j][1..] == [j];
    assert Without([e.instrument], j) == [e.instrument] + Without([], j);
    assert Survivors([e.instrument, j], {}, 1) == Survivors([j], {}, 0);
  }

  /** What an eviction pass leaves after i was touched. */
  lemma AfterEviction(h: Held, r: Held, i: Instrument, max: nat, known: Known, disk: Disk)
    requires HeldOk(h, known, disk) && h.order != [] && h.order[|h.order| - 1] == i
    requires Shrunk(h, r) && r.order == Survivors(h.order, h.Pinned(), |h.order| - max)
    requires forall e | e in disk.pending :: e.instrument in r.order
    ensures HeldOk(r, known, disk) && r.Pinned() == h.Pinned()
    ensures r.order != [] && r.order[|r.order| - 1] == i && i in r.buckets
    ensures forall j | j in h.buckets && h.buckets[j].pinned :: j in r.buckets
    ensures |r.order| <= max || forall j | j in r.buckets :: r.buckets[j].pinned || j == i
  {
    EvictionKeepsWhatItMust(h.order, h.Pinned(), |h.order| - max);
    assert i in r.order;
    forall j | j in h.buckets && h.buckets[j].pinned ensures j in r.buckets {
      assert j in h.order && j in h.Pinned();
    }
    forall j ensures j in r.Pinned() <==> j in h.Pinned() { }
    ShrinkingKeeps(h, r, known, disk);
  }

  /** t is h with i's loaded bucket b moved, or created, at the recent end. */
  ghost predicate Readied(h: Held, t: Held, i: Instrument, b: Bucket) {
    && t.order == Without(h.order, i) + [i] && t.buckets == h.buckets[i := b]
    && t.Pinned() == h.Pinned() && (i in h.buckets ==> b == h.buckets[i])
  }

  /** r is h after the use of instrument i, whose bucket is b. */
  ghost predicate Used(h: Held, r: Held, i: Instrument, b: Bucket, max: nat) {
    && r.Pinned() == h.Pinned() && r.order == KeptBy(Shelf(h.order, h.Pinned()), i, max)
    && i in r.buckets && r.buckets[i] == b && r.order != [] && r.order[|r.order| - 1] == i
    && (forall j | j in h.buckets && h.buckets[j].pinned :: j in r.buckets && r.buckets[j] == h.buckets[j])
    && (|r.order| <= max || forall j | j in r.buckets :: r.buckets[j].pinned || j == i)
  }

  lemma AfterUse(h: Held, t: Held, r: Held, i: Instrument, b: Bucket, max: nat, known: Known, disk: Disk)
    requires HeldOk(t, known, disk) && Readied(h, t, i, b)
    requires Shrunk(t, r) && r.order == Survivors(t.order, t.Pinned(), |t.order| - max)
    requires Undisturbed(Shelf(h.order, h.Pinned()), i, max, disk)
    ensures HeldOk(r, known, disk) && Used(h, r, i, b, max)
  {
    AfterEviction(t, r, i, max, known, disk);
  }

  /** The eviction walk over the live order, p buckets having been passed over. */
  function Walked(order: seq<Instrument>, p: nat, pinned: set<Instrument>, max: nat): seq<Instrument>
    decreases |order| - p
  {
    if p >= |order| || |order| <= max then order
    else if order[p] in pinned || p == |order| - 1 then Walked(order, p + 1, pinned, max)
    else Walked(order[..p] + order[p + 1..], p, pinned, max)
  }

  lemma {:induction false} WalkedIsSurvivors(order: seq<Instrument>, p: nat, pinned: set<Instrument>, max: nat)
    requires p <= |order|
    ensures Walked(order, p, pinned, max) == order[..p] + Survivors(order[p..], pinned, |order| - max)
    decreases |order| - p
  {
    if p < |order| && |order| > max {
      assert order[p..] == [order[p]] + order[p + 1..];
      if order[p] in pinned || p == |order| - 1 {
        WalkedIsSurvivors(order, p + 1, pinned, max);
        assert order[..p + 1] == order[..p] + [order[p]];
      } else {
        var shorter := order[..p] + order[p + 1..];
        WalkedIsSurvivors(shorter, p, pinned, max);
        assert shorter[..p] == order[..p] && shorter[p..] == order[p + 1..];
      }
    }
  }

  /** The pass that began at `was` has come to `now` after n entries of its snapshot, p of them passed over. */
  ghost predicate Walking(was: Held, now: Held, snapshot: seq<Instrument>, n: nat, p: nat, max: nat) {
    && n <= |snapshot| && p <= |now.order| && now.order[p..] == snapshot[n..]
    && Walked(now.order, p, was.Pinned(), max) == Walked(was.order, 0, was.Pinned(), max)
    && Distinct(now.order) && Shrunk(was, now)
  }

  /** The bucket at hand, and whether the pass may drop it. */
  lemma WalkAt(was: Held, now: Held, snapshot: seq<Instrument>, n: nat, p: nat, max: nat)
    requires Walking(was, now, snapshot, n, p, max) && n < |snapshot|
    ensures p < |now.order| && now.order[p] == snapshot[n]
    ensures snapshot[n] in now.buckets && (now.buckets[snapshot[n]].pinned <==> snapshot[n] in was.Pinned())
  {
    assert now.order[p] == now.order[p..][0] == snapshot[n];
    assert now.order[p] in now.order;
  }

  lemma WalkPasses(was: Held, now: Held, snapshot: seq<Instrument>, n: nat, p: nat, max: nat)
    requires Walking(was, now, snapshot, n, p, max) && n < |snapshot| && |now.order| > max
    requires snapshot[n] in was.Pinned() || snapshot[n] == now.order[|now.order| - 1]
    ensures Walking(was, now, snapshot, n + 1, p + 1, max)
  {
    WalkAt(was, now, snapshot, n, p, max);
    assert now.order[p] in was.Pinned() || p == |now.order| - 1;
    assert now.order[p..][1..] == now.order[p + 1..] && snapshot[n..][1..] == snapshot[n + 1..];
  }

  lemma WalkDrops(was: Held, now: Held, later: Held, snapshot: seq<Instrument>, n: nat, p: nat, max: nat)
    requires Walking(was, now, snapshot, n, p, max) && n < |snapshot| && |now.order| > max
    requires snapshot[n] !in was.Pinned() && snapshot[n] != now.order[|now.order| - 1]
    requires later.order == Without(now.order, snapshot[n]) && Shrunk(was, later)
    ensures Walking(was, later, snapshot, n + 1, p, max)
  {
    WalkAt(was, now, snapshot, n, p, max);
    WithoutTakesOut(now.order, p);
    WithoutDropsOnlyOne(now.order, snapshot[n]);
    assert now.order[p..][1..] == now.order[p + 1..] && snapshot[n..][1..] == snapshot[n + 1..];
    assert (now.order[..p] + now.order[p + 1..])[p..] == now.order[p + 1..];
  }

  /** The store object. `reference` is the unbounded store it stands for. */
  class BoundedEventStore {
    const maxInstruments: nat
    var order: seq<Instrument>
    var buckets: map<Instrument, Bucket>
    var instrumentOf: map<EventId, Instrument>
    var applied: nat
    ghost var reference: Known

    constructor (maxInstruments: int, disk: Disk, ghost known: Known)
      requires Storable(disk, known)
      ensures Valid(disk) && reference == known
      ensures this.maxInstruments == Max(1, maxInstruments) && applied == 0
      ensures State() == Held([], map[], map[])
    {
      this.maxInstruments := Max(1, maxInstruments);
      order, buckets, instrumentOf, applied := [], map[], map[], 0;
      reference := known;
    }

    function State(): Held reads this { Held(order, buckets, instrumentOf) }

    ghost function ShelfNow(): Shelf reads this { Shelf(order, State().Pinned()) }

    ghost predicate Valid(disk: Disk)
      reads this
    {
      1 <= maxInstruments && KnownOk(reference, disk) && HeldOk(State(), reference, disk)
    }

    /** The loop of `_evict` over a snapshot of the order. */
    method Evict()
      requires 1 <= maxInstruments && Distinct(order) && Indexed(State())
      requires forall i :: i in order <==> i in buckets
      modifies this`order, this`buckets, this`instrumentOf
      ensures order == Survivors(old(order), old(State()).Pinned(), |old(order)| - maxInstruments)
      ensures Shrunk(old(State()), State())
    {
      ghost var was := State();
      WalkedIsSurvivors(order, 0, was.Pinned(), maxInstruments);
      var snapshot := order;
      ghost var p := 0;
      var n := 0;
      while n < |snapshot| && |order| > maxInstruments
        invariant Walking(was, State(), snapshot, n, p, maxInstruments)
      {
        p := EvictNext(snapshot, n, was, p);
        n := n + 1;
      }
    }

    /** One turn of the loop: a pinned or the most recently used bucket is passed over, any other goes. */
    method EvictNext(snapshot: seq<Instrument>, n: nat, ghost was: Held, ghost p: nat) returns (ghost q: nat)
      requires Walking(was, State(), snapshot, n, p, maxInstruments) && n < |snapshot| && |order| > maxInstruments
      requires Indexed(was)
      modifies this`order, this`buckets, this`instrumentOf
      ensures Walking(was, State(), snapshot, n + 1, q, maxInstruments)
    {
      var i := snapshot[n];
      ghost var now := State();
      WalkAt(was, now, snapshot, n, p, maxInstruments);
      if buckets[i].pinned || i == order[|order| - 1] {
        WalkPasses(was, now, snapshot, n, p, maxInstruments);
        q := p + 1;
      } else {
        WithoutDropsOnlyOne(order, i);
        Drop(i, was);
        WalkDrops(was, now, State(), snapshot, n, p, maxInstruments);
        q := p;
      }
    }

    /** `del self._buckets[i]` and the forgetting of its events. */
    method Drop(i: Instrument, ghost was: Held)
      requires Indexed(was) && Shrunk(was, State()) && i in buckets
      requires forall x :: x in Without(order, i) <==> x in order && x != i
      modifies this`order, this`buckets, this`instrumentOf
      ensures order == Without(old(order), i)
      ensures Shrunk(was, State())
    {
      var events := buckets[i].events;
      assert forall id :: id in events <==> id in was.instrumentOf && was.instrumentOf[id] == i;
      instrumentOf := map id | id in instrumentOf && id !in events :: instrumentOf[id];
      order := Without(order, i);
      buckets := map j | j in buckets && j != i :: buckets[j];
    }

    /** Finds or creates and loads the bucket, and moves it to the recent end. */
    method Touch(i: Instrument, disk: Disk) returns (b: Bucket)
      requires Valid(disk)
      modifies this`order, this`buckets, this`instrumentOf
      ensures Valid(disk) && Indexed(State())
      ensures BucketOk(b, reference, i) && buckets == old(buckets)[i := b]
      ensures order == Without(old(order), i) + [i] && State().Pinned() == old(State().Pinned())
      ensures i in old(buckets) ==> b == old(buckets)[i]
      ensures order != [] && order[|order| - 1] == i
    {
      if i in buckets {
        b := buckets[i];
      } else {
        AbsentMeansStored(State(), reference, disk, i);
        b := LoadBucket(i, disk, reference);
      }
      TouchingKeeps(State(), i, b, reference, disk);
      TouchingPinsNothing(State(), i, b);
      order := Without(order, i) + [i];
      buckets := buckets[i := b];
      instrumentOf := map id | id in instrumentOf.Keys + b.events.Keys ::
        if id in b.events then i else instrumentOf[id];
      HeldIsIndexed(State(), reference, disk);
    }

    /** Eviction once instrument i has been touched. */
    method EvictAfter(i: Instrument, b: Bucket, disk: Disk, ghost before: Held)
      requires 1 <= maxInstruments && HeldOk(State(), reference, disk) && Readied(before, State(), i, b)
      requires Undisturbed(Shelf(before.order, before.Pinned()), i, maxInstruments, disk)
      modifies this`order, this`buckets, this`instrumentOf
      ensures HeldOk(State(), reference, disk) && Used(before, State(), i, b, maxInstruments)
    {
      ghost var touched := State();
      HeldIsIndexed(touched, reference, disk);
      Evict();
      AfterUse(before, touched, State(), i, b, maxInstruments, reference, disk);
    }

    /** `bucket`: create, move to the end, load once, evict. The bucket reads as the unbounded store would, and
        stays resident; pinned buckets are untouched; the bound holds unless only pinned buckets exceed it. */
    method Access(i: Instrument, disk: Disk) returns (b: Bucket)
      requires Valid(disk) && Undisturbed(ShelfNow(), i, maxInstruments, disk)
      modifies this`order, this`buckets, this`instrumentOf
      ensures Valid(disk) && ShelfNow() == Shelf(KeptBy(old(ShelfNow()), i, maxInstruments), old(ShelfNow()).pinned)
      ensures i in buckets && buckets[i] == b && BucketOk(b, reference, i)
      ensures order != [] && order[|order| - 1] == i
      ensures forall j | j in old(buckets) && old(buckets)[j].pinned :: j in buckets && buckets[j] == old(buckets)[j]
      ensures |order| <= maxInstruments || forall j | j in buckets :: buckets[j].pinned || j == i
    {
      ghost var before := State();
      b := Touch(i, disk);
      EvictAfter(i, b, disk, before);
    }

    /** `add`: refused exactly when the unbounded store knows the key. A durable event is on its way to durable storage
        once registered; any other pins its bucket. */
    method Add(e: Event, isDurable: bool, disk: Disk) returns (added: bool)
      requires Valid(disk) && Undisturbed(ShelfNow(), e.instrument, maxInstruments, disk)
      requires isDurable ==> disk.durable
      requires e.id in reference ==> reference[e.id].instrument == e.instrument && reference[e.id].key == e.key
      modifies this
      ensures Valid(if added then Awaited(disk, e, isDurable) else disk)
      ensures added <==> e.key !in Keys(Of(old(reference), e.instrument))
      ensures reference == if added then old(reference)[e.id := e] else old(reference)
      ensures applied == old(applied) + (if added then 1 else 0)
      ensures e.instrument in buckets && order != [] && order[|order| - 1] == e.instrument
      ensures ShelfNow() == Shelf(KeptBy(old(ShelfNow()), e.instrument, maxInstruments),
                                  old(ShelfNow()).pinned + (if added && !isDurable then {e.instrument} else {}))
    {
      var b := Access(e.instrument, disk);
      KnownIdMeansKnownKey(reference, e);
      if e.key in b.keys { return false; }
      RegisteringKeeps(State(), e, isDurable, reference, disk);
      RegisteringPins(State(), e, isDurable);
      RegisteringKeepsKnown(e, isDurable, reference, disk);
      b := b.(keys := b.keys + {e.key}, events := b.events[e.id := e]);
      instrumentOf := instrumentOf[e.id := e.instrument];
      if !isDurable { b := b.(pinned := true); }
      buckets := buckets[e.instrument := b];
      applied := applied + 1;
      reference := reference[e.id := e];
      return true;
    }

    method ForInstrument(i: Instrument, disk: Disk) returns (events: set<Event>)
      requires Valid(disk) && Undisturbed(ShelfNow(), i, maxInstruments, disk)
      modifies this`order, this`buckets, this`instrumentOf
      ensures Valid(disk) && ShelfNow() == Shelf(KeptBy(old(ShelfNow()), i, maxInstruments), old(ShelfNow()).pinned)
      ensures events == Of(reference, i).Values
    {
      var b := Access(i, disk);
      events := b.events.Values;
    }
  }

  /** A new bucket, filled by the loading loop when there is durable storage. */
  method LoadBucket(i: Instrument, disk: Disk, ghost known: Known) returns (b: Bucket)
    requires KnownOk(known, disk)
    requires forall id | id in Of(known, i) :: disk.durable && known[id] in disk.events
    ensures b == Bucket(Of(known, i), Keys(Of(known, i)), true, false)
  {
    b := Bucket(map[], {}, true, false);
    if disk.durable {
      LoadIsTheInstrumentsEvents(disk.events, i);
      var loaded := Load(disk.events, i);
      for n := 0 to |loaded|
        invariant b == Bucket(b.events, Keys(b.events), true, false)
        invariant forall id | id in b.events :: id in Of(known, i) && b.events[id] == known[id]
        invariant forall m | 0 <= m < n :: loaded[m].id in b.events
      {
        var e := loaded[n];
        assert e in disk.events;
        if e.id !in b.events {
          KeysOfOneMore(b.events, e);
          b := b.(events := b.events[e.id := e], keys := b.keys + {e.key});
        }
      }
      forall id | id in Of(known, i) ensures id in b.events {
        assert known[id] in loaded;
      }
    } else {
      assert forall id | id in Of(known, i) :: false;
    }
    assert forall id | id in b.events :: id in Of(known, i);
    assert forall id | id in Of(known, i) :: id in b.events;
    assert forall id | id in Of(known, i) :: b.events[id] == known[id];
    assert b.events == Of(known, i);
  }

  /** What durable storage must be when it is the only copy. */
  ghost predicate Storable(disk: Disk, known: Known) {
    && KnownOk(known, disk) && disk.pending == {}
    && forall id | id in known :: disk.durable && known[id] in disk.events
  }

  // ---------------------------------------------------------------- the unbounded store

  /** An extracted event is registered; later, if it was added and is durable, its storage completes. */
  datatype Command = Extract(event: Event, durable: bool) | Store(event: Event) | Look(instrument: Instrument)

  datatype Answer = Added(ok: bool) | Seen(events: set<Event>) | Done

  predicate Adds(known: Known, c: Command) {
    c.Extract? && c.event.key !in Keys(Of(known, c.event.instrument))
  }

  function KnownAfter(known: Known, c: Command): Known {
    if Adds(known, c) then known[c.event.id := c.event] else known
  }

  function AnswerOf(known: Known, c: Command): Answer {
    match c
    case Extract(_, _) => Added(Adds(known, c))
    case Store(_) => Done
    case Look(i) => Seen(Of(known, i).Values)
  }

  function AnswersOf(known: Known, commands: seq<Command>): seq<Answer>
    decreases commands
  {
    if commands == [] then []
    else [AnswerOf(known, commands[0])] + AnswersOf(KnownAfter(known, commands[0]), commands[1..])
  }

  /** What is known after the first n commands. */
  function KnownAt(known: Known, commands: seq<Command>, n: nat): Known
    requires n <= |commands|
  {
    if n == 0 then known else KnownAfter(KnownAt(known, commands, n - 1), commands[n - 1])
  }

  lemma {:induction false} KnownAtNext(known: Known, commands: seq<Command>, n: nat)
    requires 0 < n <= |commands|
    ensures KnownAt(known, commands, n) == KnownAt(KnownAfter(known, commands[0]), commands[1..], n - 1)
  {
    if n > 1 {
      KnownAtNext(known, commands, n - 1);
      assert commands[1..][n - 2] == commands[n - 1];
    }
  }

  lemma {:induction false} AnswerAt(known: Known, commands: seq<Command>, n: nat)
    requires n < |commands|
    ensures |AnswersOf(known, commands)| == |commands|
    ensures AnswersOf(known, commands)[n] == AnswerOf(KnownAt(known, commands, n), commands[n])
    decreases commands
  {
    if n > 0 {
      AnswerAt(KnownAfter(known, commands[0]), commands[1..], n - 1);
      KnownAtNext(known, commands, n);
    } else if |commands| > 1 {
      AnswerAt(KnownAfter(known, commands[0]), commands[1..], 0);
    }
  }

  predicate Extracts(c: Command, i: Instrument, key: int) {
    c.Extract? && c.event.instrument == i && c.event.key == key
  }

  /** Command m is the first that extracts this key of the instrument, and none was known. */
  ghost predicate FirstOfKey(known: Known, commands: seq<Command>, m: nat)
    requires m < |commands| && commands[m].Extract?
  {
    var e := commands[m].event;
    && (forall id | id in known && known[id].instrument == e.instrument :: known[id].key != e.key)
    && forall l | 0 <= l < m :: !Extracts(commands[l], e.instrument, e.key)
  }

  /** An id stands for one event. */
  ghost predicate IdsStandForEvents(known: Known, commands: seq<Command>) {
    && (forall id | id in known :: known[id].id == id)
    && (forall m | 0 <= m < |commands| && commands[m].Extract? && commands[m].event.id in known ::
          SameKey(known[commands[m].event.id], commands[m].event))
    && (forall l, m | 0 <= l < m < |commands| && commands[l].Extract? && commands[m].Extract?
                      && commands[l].event.id == commands[m].event.id ::
          SameKey(commands[l].event, commands[m].event))
  }

  predicate SameKey(e: Event, f: Event) { e.instrument == f.instrument && e.key == f.key }

  /** e is known after n commands: it was to begin with, or one of them was the first to extract its key. */
  ghost predicate Came(known: Known, commands: seq<Command>, n: nat, e: Event)
    requires n <= |commands|
  {
    || (e.id in known && known[e.id] == e)
    || exists m: nat :: m < n && commands[m].Extract? && commands[m].event == e && FirstOfKey(known, commands, m)
  }

  ghost predicate KnownIsWhatCame(known: Known, commands: seq<Command>, n: nat)
    requires n <= |commands|
  {
    var now := KnownAt(known, commands, n);
    && (forall id | id in now :: now[id].id == id && Came(known, commands, n, now[id]))
    && (forall e | Came(known, commands, n, e) :: e.id in now && now[e.id] == e)
  }

  /** Its key is new exactly if the command is the first with it. */
  lemma AddsTheFirst(known: Known, commands: seq<Command>, n: nat)
    requires n < |commands| && commands[n].Extract? && IdsStandForEvents(known, commands)
    requires KnownIsWhatCame(known, commands, n)
    ensures Adds(KnownAt(known, commands, n), commands[n]) <==> FirstOfKey(known, commands, n)
    ensures FirstOfKey(known, commands, n) ==> commands[n].event.id !in KnownAt(known, commands, n)
  {
    var now, e := KnownAt(known, commands, n), commands[n].event;
    if FirstOfKey(known, commands, n) {
      forall id | id in now ensures !(now[id].instrument == e.instrument && now[id].key == e.key) && id != e.id {
        assert Came(known, commands, n, now[id]);
      }
    } else if id :| id in known && known[id].instrument == e.instrument && known[id].key == e.key {
      assert Came(known, commands, n, known[id]);
      assert Of(now, e.instrument)[id].key == e.key;
    } else {
      var m := FirstWith(known, commands, n);
      var f := commands[m].event;
      assert Came(known, commands, n, f);
      assert Of(now, e.instrument)[f.id].key == e.key;
    }
  }

  lemma FirstWith(known: Known, commands: seq<Command>, n: nat) returns (m: nat)
    requires n < |commands| && commands[n].Extract? && !FirstOfKey(known, commands, n)
    requires forall id | id in known && known[id].instrument == commands[n].event.instrument ::
      known[id].key != commands[n].event.key
    ensures m < n && Extracts(commands[m], commands[n].event.instrument, commands[n].event.key)
    ensures FirstOfKey(known, commands, m)
  {
    m :| m < n && Extracts(commands[m], commands[n].event.instrument, commands[n].event.key);
    if !FirstOfKey(known, commands, m) { m := FirstWith(known, commands, m); }
  }

  lemma {:induction false} WhatIsKnown(known: Known, commands: seq<Command>, n: nat)
    requires n <= |commands| && IdsStandForEvents(known, commands)
    ensures KnownIsWhatCame(known, commands, n)
  {
    if n > 0 {
      WhatIsKnown(known, commands, n - 1);
      OneCommandMore(known, commands, n - 1);
    }
  }

  /** An event that a command adds is the first of its key. */
  lemma KnownThenCame(known: Known, commands: seq<Command>, n: nat, id: EventId)
    requires n < |commands| && IdsStandForEvents(known, commands) && KnownIsWhatCame(known, commands, n)
    requires id in KnownAt(known, commands, n + 1)
    ensures KnownAt(known, commands, n + 1)[id].id == id
    ensures Came(known, commands, n + 1, KnownAt(known, commands, n + 1)[id])
  {
    var now, after := KnownAt(known, commands, n), KnownAt(known, commands, n + 1);
    if id in now && after[id] == now[id] {
      assert Came(known, commands, n, now[id]);
    } else {
      AddsTheFirst(known, commands, n);
    }
  }

  lemma CameThenKnown(known: Known, commands: seq<Command>, n: nat, e: Event)
    requires n < |commands| && IdsStandForEvents(known, commands) && KnownIsWhatCame(known, commands, n)
    requires Came(known, commands, n + 1, e)
    ensures e.id in KnownAt(known, commands, n + 1) && KnownAt(known, commands, n + 1)[e.id] == e
  {
    var now := KnownAt(known, commands, n);
    if commands[n].Extract? { AddsTheFirst(known, commands, n); }
    if Came(known, commands, n, e) { assert now[e.id] == e; }
  }

  lemma OneCommandMore(known: Known, commands: seq<Command>, n: nat)
    requires n < |commands| && IdsStandForEvents(known, commands) && KnownIsWhatCame(known, commands, n)
    ensures KnownIsWhatCame(known, commands, n + 1)
  {
    var k := n + 1;
    var after := KnownAt(known, commands, k);
    forall id | id in after ensures after[id].id == id && Came(known, commands, k, after[id]) {
      KnownThenCame(known, commands, n, id);
    }
    forall e | Came(known, commands, k, e) ensures e.id in after && after[e.id] == e {
      CameThenKnown(known, commands, n, e);
    }
  }

  lemma IdOf(events: map<EventId, Event>, e: Event) returns (id: EventId)
    requires e in events.Values
    ensures id in events && events[id] == e
  {
    if forall x | x in events :: events[x] != e { assert false; }
    id :| id in events && events[id] == e;
  }

  lemma SeenIsWhatCame(known: Known, commands: seq<Command>, n: nat, i: Instrument, e: Event)
    requires n <= |commands| && KnownIsWhatCame(known, commands, n)
    ensures e in Of(KnownAt(known, commands, n), i).Values <==> e.instrument == i && Came(known, commands, n, e)
  {
    var now := KnownAt(known, commands, n);
    var seen := Of(now, i);
    if e in seen.Values {
      var id := IdOf(seen, e);
      assert Came(known, commands, n, now[id]);
    }
    if e.instrument == i && Came(known, commands, n, e) { assert e.id in seen && seen[e.id] == e; }
  }

  /** What the unbounded store answers, as long as an id stands for one event: an extracted event is added exactly if
      none of its instrument with its key was known or has been extracted before; a lookup sees exactly the events of
      the instrument that were known or added. */
  lemma AnswersMean(known: Known, commands: seq<Command>, n: nat)
    requires n < |commands| && IdsStandForEvents(known, commands)
    ensures |AnswersOf(known, commands)| == |commands|
    ensures commands[n].Extract? ==> AnswersOf(known, commands)[n] == Added(FirstOfKey(known, commands, n))
    ensures commands[n].Look? ==>
      AnswersOf(known, commands)[n].Seen?
      && forall e :: e in AnswersOf(known, commands)[n].events <==>
                     e.instrument == commands[n].instrument && Came(known, commands, n, e)
  {
    AnswerAt(known, commands, n);
    WhatIsKnown(known, commands, n);
    if commands[n].Extract? { AddsTheFirst(known, commands, n); }
    if commands[n].Look? {
      var now, i := KnownAt(known, commands, n), commands[n].instrument;
      forall e ensures e in Of(now, i).Values <==> e.instrument == i && Came(known, commands, n, e) {
        SeenIsWhatCame(known, commands, n, i, e);
      }
    }
  }

  // ---------------------------------------------------------------- the callers' side

  function DiskAfter(disk: Disk, known: Known, c: Command): Disk {
    match c
    case Extract(e, isDurable) => if Adds(known, c) then Awaited(disk, e, isDurable) else disk
    case Store(e) => Stored(disk, e)
    case Look(_) => disk
  }

  function ShelfAfter(shelf: Shelf, known: Known, c: Command, max: nat): Shelf {
    match c
    case Extract(e, isDurable) =>
      Shelf(KeptBy(shelf, e.instrument, max),
            shelf.pinned + (if Adds(known, c) && !isDurable then {e.instrument} else {}))
    case Store(_) => shelf
    case Look(i) => Shelf(KeptBy(shelf, i, max), shelf.pinned)
  }

  /** The callers' side of one command: an id stands for one event, nothing is durable without storage, only what is on
      its way there is stored, and nothing on its way there is evicted. */
  ghost predicate ProperCommand(disk: Disk, known: Known, shelf: Shelf, c: Command, max: nat) {
    match c
    case Extract(e, isDurable) =>
      && (isDurable ==> disk.durable)
      && (e.id in known ==> known[e.id].instrument == e.instrument && known[e.id].key == e.key)
      && Undisturbed(shelf, e.instrument, max, disk)
    case Store(e) => e in disk.pending && disk.durable
    case Look(i) => Undisturbed(shelf, i, max, disk)
  }

  ghost predicate WellUsed(disk: Disk, known: Known, shelf: Shelf, commands: seq<Command>, max: nat)
    decreases commands
  {
    commands == [] ||
    var c := commands[0];
    && ProperCommand(disk, known, shelf, c, max)
    && WellUsed(DiskAfter(disk, known, c), KnownAfter(known, c), ShelfAfter(shelf, known, c, max), commands[1..], max)
  }

  /** A caller that stores an event at once, before the store is used again, disturbs nothing. */
  lemma StoredAtOnce(disk: Disk, known: Known, shelf: Shelf, e: Event, rest: seq<Command>, max: nat)
    requires disk.pending == {} && disk.durable && Adds(known, Extract(e, true))
    requires e.id !in known
    requires var k, t := known[e.id := e], Shelf(KeptBy(shelf, e.instrument, max), shelf.pinned);
      WellUsed(disk.(events := disk.events + [e]), k, t, rest, max)
    ensures WellUsed(disk, known, shelf, [Extract(e, true), Store(e)] + rest, max)
  {
    var all, after := [Extract(e, true), Store(e)] + rest, Awaited(disk, e, true);
    assert all[1..] == [Store(e)] + rest && all[1..][1..] == rest;
    assert Stored(after, e) == disk.(events := disk.events + [e]);
    assert shelf.pinned + {} == shelf.pinned;
  }

  /** The next of the remaining commands. */
  lemma NextCommand(disk: Disk, known: Known, shelf: Shelf, commands: seq<Command>, n: nat, max: nat)
    requires n < |commands| && WellUsed(disk, known, shelf, commands[n..], max)
    ensures var c := commands[n];
      && ProperCommand(disk, known, shelf, c, max)
      && WellUsed(DiskAfter(disk, known, c), KnownAfter(known, c), ShelfAfter(shelf, known, c, max), commands[n + 1..],
                  max)
      && AnswersOf(known, commands[n..]) == [AnswerOf(known, c)] + AnswersOf(KnownAfter(known, c), commands[n + 1..])
  {
    assert commands[n..][1..] == commands[n + 1..];
  }

  /** One command, and durable storage afterwards. */
  method Answering(store: BoundedEventStore, c: Command, storage: Disk) returns (answer: Answer, after: Disk)
    requires store.Valid(storage)
    requires ProperCommand(storage, store.reference, store.ShelfNow(), c, store.maxInstruments)
    modifies store
    ensures store.Valid(after) && after == DiskAfter(storage, old(store.reference), c)
    ensures answer == AnswerOf(old(store.reference), c) && store.reference == KnownAfter(old(store.reference), c)
    ensures store.ShelfNow() == ShelfAfter(old(store.ShelfNow()), old(store.reference), c, store.maxInstruments)
  {
    after := storage;
    match c {
      case Extract(e, isDurable) =>
        var ok := store.Add(e, isDurable, storage);
        if ok { after := Awaited(storage, e, isDurable); }
        answer := Added(ok);
      case Store(e) =>
        StoringKeeps(store.State(), e, store.reference, storage);
        after := Stored(storage, e);
        answer := Done;
      case Look(i) =>
        var events := store.ForInstrument(i, storage);
        answer := Seen(events);
    }
  }

  /** For every bound on resident instruments, any sequence of additions, completed storage and lookups answers exactly
      as the unbounded store. */
  method Replay(commands: seq<Command>, maxInstruments: int, disk: Disk, known: Known)
    returns (answers: seq<Answer>)
    requires Storable(disk, known) && WellUsed(disk, known, Shelf([], {}), commands, Max(1, maxInstruments))
    ensures answers == AnswersOf(known, commands)
  {
    var store := new BoundedEventStore(maxInstruments, disk, known);
    var storage := disk;
    answers := [];
    assert store.State().Pinned() == {};
    for n := 0 to |commands|
      invariant fresh(store) && store.maxInstruments == Max(1, maxInstruments) && store.Valid(storage)
      invariant WellUsed(storage, store.reference, store.ShelfNow(), commands[n..], store.maxInstruments)
      invariant answers + AnswersOf(store.reference, commands[n..]) == AnswersOf(known, commands)
    {
      NextCommand(storage, store.reference, store.ShelfNow(), commands, n, store.maxInstruments);
      var answer;
      answer, storage := Answering(store, commands[n], storage);
      answers := answers + [answer];
    }
  }
}
