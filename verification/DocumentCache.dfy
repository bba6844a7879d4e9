/** Bounded retention of document bodies: least-recently-used eviction of bodies known to be durable, within a
    document count and a byte budget, over a compact index of references that survives eviction. */
module DocumentCache {
  import opened Common
  import opened Lru

  type Id = int
  type Instrument = int
  type Mode = int

  /** A body; `bytes` is what estimate_document_bytes says of it. */
  datatype Document = Document(id: Id, instrument: Option<Instrument>, mode: Mode, bytes: nat, content: int)

  datatype Ref = Ref(id: Id, instrument: Option<Instrument>, mode: Mode, content: int)

  function RefOf(d: Document): Ref { Ref(d.id, d.instrument, d.mode, d.content) }

  datatype Limits = Limits(documents: nat, bytes: nat)

  /** The resident bodies: order of use, bodies, and which of them may not be evicted. */
  datatype Resident = Resident(order: seq<Id>, docs: map<Id, Document>, pinned: set<Id>)

  ghost predicate ResidentOk(r: Resident) {
    Distinct(r.order) && (forall x :: x in r.order <==> x in r.docs) && forall x | x in r.pinned :: x in r.docs
  }

  /** The evictable bodies, least recently used first. */
  function Evictable(order: seq<Id>, pinned: set<Id>): seq<Id> {
    if order == [] then []
    else if order[0] in pinned then Evictable(order[1..], pinned)
    else [order[0]] + Evictable(order[1..], pinned)
  }

  function Bytes(ids: seq<Id>, docs: map<Id, Document>): nat {
    if ids == [] then 0
    else (if ids[0] in docs then docs[ids[0]].bytes else 0) + Bytes(ids[1..], docs)
  }

  predicate Fits(ids: seq<Id>, docs: map<Id, Document>, limits: Limits) {
    |ids| <= limits.documents && Bytes(ids, docs) <= limits.bytes
  }

  /** How many of the least recently used must go. */
  function Surplus(ids: seq<Id>, docs: map<Id, Document>, limits: Limits): (k: nat)
    ensures k <= |ids|
  {
    if ids == [] || Fits(ids, docs, limits) then 0 else 1 + Surplus(ids[1..], docs, limits)
  }

  /** Surplus is the length of the shortest prefix whose removal restores both bounds. */
  lemma {:induction false} SurplusIsTheShortestPrefix(ids: seq<Id>, docs: map<Id, Document>, limits: Limits)
    ensures var k := Surplus(ids, docs, limits);
      Fits(ids[k..], docs, limits) && |ids| - k <= limits.documents && Bytes(ids[k..], docs) <= limits.bytes
    ensures forall k: nat | k < Surplus(ids, docs, limits) ::
      !Fits(ids[k..], docs, limits) && (|ids| - k > limits.documents || Bytes(ids[k..], docs) > limits.bytes)
  {
    if ids == [] || Fits(ids, docs, limits) {
      assert ids[0..] == ids;
    } else {
      var tail := ids[1..];
      SurplusIsTheShortestPrefix(tail, docs, limits);
      forall k: nat | k < Surplus(ids, docs, limits)
        ensures !Fits(ids[k..], docs, limits) && (|ids| - k > limits.documents || Bytes(ids[k..], docs) > limits.bytes)
      {
        if k == 0 { assert ids[0..] == ids; } else { assert ids[k..] == tail[k - 1..]; }
      }
      assert ids[1 + Surplus(tail, docs, limits)..] == tail[Surplus(tail, docs, limits)..];
    }
  }

  /** The eviction walk: p bodies, all pinned, have been passed over. */
  function Walked(order: seq<Id>, p: nat, docs: map<Id, Document>, pinned: set<Id>, limits: Limits): seq<Id>
    decreases |order| - p
  {
    if p >= |order| || Fits(Evictable(order, pinned), docs, limits) then order
    else if order[p] in pinned then Walked(order, p + 1, docs, pinned, limits)
    else Walked(order[..p] + order[p + 1..], p, docs, pinned, limits)
  }

  lemma {:induction false} EvictableOfTwo(a: seq<Id>, b: seq<Id>, pinned: set<Id>)
    ensures Evictable(a + b, pinned) == Evictable(a, pinned) + Evictable(b, pinned)
  {
    if a == [] {
      assert a + b == b;
    } else {
      assert (a + b)[1..] == a[1..] + b;
      EvictableOfTwo(a[1..], b, pinned);
    }
  }

  lemma {:induction false} PinnedAreNotEvictable(a: seq<Id>, pinned: set<Id>)
    requires forall x | x in a :: x in pinned
    ensures Evictable(a, pinned) == []
  {
    if a != [] {
      var x := a[0];
      assert x in a;
      PinnedAreNotEvictable(a[1..], pinned);
    }
  }

  /** At an unpinned position behind pinned ones stands the least recently used evictable body. */
  lemma HeadOfEvictable(order: seq<Id>, p: nat, pinned: set<Id>)
    requires p < |order| && order[p] !in pinned && forall x | x in order[..p] :: x in pinned
    ensures Evictable(order, pinned) == [order[p]] + Evictable(order[p + 1..], pinned)
    ensures Evictable(order[..p] + order[p + 1..], pinned) == Evictable(order[p + 1..], pinned)
  {
    PinnedAreNotEvictable(order[..p], pinned);
    EvictableOfTwo(order[..p], order[p + 1..], pinned);
    EvictableOfTwo(order[..p], order[p..], pinned);
    assert order == order[..p] + order[p..] && order[p..][1..] == order[p + 1..];
  }

  /** Each pass evicts exactly the shortest least-recently-used prefix of the unpinned bodies that restores both
      bounds, and nothing pinned. */
  lemma {:induction false} WalkEvictsTheShortestPrefix(order: seq<Id>, p: nat, docs: map<Id, Document>,
                                                       pinned: set<Id>, limits: Limits)
    requires p <= |order| && forall x | x in order[..p] :: x in pinned
    requires Distinct(order)
    ensures var kept := Walked(order, p, docs, pinned, limits);
      && Evictable(kept, pinned) == Evictable(order, pinned)[Surplus(Evictable(order, pinned), docs, limits)..]
      && Distinct(kept)
      && (forall x | x in kept :: x in order)
      && (forall x | x in order && x in pinned :: x in kept)
    decreases |order| - p
  {
    var all := Evictable(order, pinned);
    if p == |order| {
      assert order[..p] == order;
      PinnedAreNotEvictable(order, pinned);
    } else if Fits(all, docs, limits) {
    } else if order[p] in pinned {
      assert order[..p + 1] == order[..p] + [order[p]];
      WalkEvictsTheShortestPrefix(order, p + 1, docs, pinned, limits);
    } else {
      var shorter := order[..p] + order[p + 1..];
      HeadOfEvictable(order, p, pinned);
      assert shorter[..p] == order[..p];
      WithoutTakesOut(order, p);
      WithoutDropsOnlyOne(order, order[p]);
      WalkEvictsTheShortestPrefix(shorter, p, docs, pinned, limits);
      assert all[1..] == Evictable(shorter, pinned);
    }
  }

  lemma {:induction false} WalkedInOrder(order: seq<Id>, p: nat, docs: map<Id, Document>, pinned: set<Id>,
                                         limits: Limits)
    requires p <= |order|
    ensures InOrder(Walked(order, p, docs, pinned, limits), order)
    decreases |order| - p
  {
    if p < |order| && !Fits(Evictable(order, pinned), docs, limits) {
      if order[p] in pinned {
        WalkedInOrder(order, p + 1, docs, pinned, limits);
      } else {
        var shorter := order[..p] + order[p + 1..];
        var kept := Walked(shorter, p, docs, pinned, limits);
        WalkedInOrder(shorter, p, docs, pinned, limits);
        forall a, b | 0 <= a < b < |kept| ensures Follows(order, kept[a], kept[b]) {
          assert Follows(shorter, kept[a], kept[b]);
          var i, j :| 0 <= i < j < |shorter| && shorter[i] == kept[a] && shorter[j] == kept[b];
          var k, l := if i < p then i else i + 1, if j < p then j else j + 1;
          assert order[k] == kept[a] && order[l] == kept[b];
        }
      }
    } else {
      forall a, b | 0 <= a < b < |order| ensures Follows(order, order[a], order[b]) { }
    }
  }

  /** What a pass leaves of the resident bodies. */
  function Trimmed(r: Resident, limits: Limits): Resident {
    var kept := Walked(r.order, 0, r.docs, r.pinned, limits);
    Resident(kept, map x | x in r.docs && x in kept :: r.docs[x], r.pinned)
  }

  ghost predicate Bounded(r: Resident, limits: Limits) { Fits(Evictable(r.order, r.pinned), r.docs, limits) }

  lemma {:induction false} BytesOnlyNeedTheirDocuments(ids: seq<Id>, a: map<Id, Document>, b: map<Id, Document>)
    requires forall x | x in ids :: x in a && x in b && a[x].bytes == b[x].bytes
    ensures Bytes(ids, a) == Bytes(ids, b)
  {
    if ids != [] {
      var x := ids[0];
      assert x in ids;
      BytesOnlyNeedTheirDocuments(ids[1..], a, b);
    }
  }

  lemma {:induction false} EvictableMembers(order: seq<Id>, pinned: set<Id>)
    ensures forall x :: x in Evictable(order, pinned) <==> x in order && x !in pinned
  {
    if order != [] {
      EvictableMembers(order[1..], pinned);
      assert order == [order[0]] + order[1..];
    }
  }

  /** After any pass both bounds hold and no pinned body is lost. */
  lemma TrimmingRestoresTheBounds(r: Resident, limits: Limits)
    requires ResidentOk(r)
    ensures ResidentOk(Trimmed(r, limits)) && Bounded(Trimmed(r, limits), limits)
    ensures forall x | x in r.pinned :: x in Trimmed(r, limits).docs && Trimmed(r, limits).docs[x] == r.docs[x]
    ensures Evictable(Trimmed(r, limits).order, r.pinned) ==
            Evictable(r.order, r.pinned)[Surplus(Evictable(r.order, r.pinned), r.docs, limits)..]
  {
    WalkEvictsTheShortestPrefix(r.order, 0, r.docs, r.pinned, limits);
    var t := Trimmed(r, limits);
    var left := Evictable(t.order, r.pinned);
    SurplusIsTheShortestPrefix(Evictable(r.order, r.pinned), r.docs, limits);
    EvictableMembers(t.order, r.pinned);
    BytesOnlyNeedTheirDocuments(left, r.docs, t.docs);
  }

  /** What is left is unchanged and in order, and the evictable bodies are within both bounds. */
  lemma TrimmingKeepsTheRest(r: Resident, limits: Limits)
    requires ResidentOk(r)
    ensures var t := Trimmed(r, limits);
      && t.pinned == r.pinned && InOrder(t.order, r.order)
      && (forall x | x in t.docs :: x in r.docs && t.docs[x] == r.docs[x])
      && |Evictable(t.order, t.pinned)| <= limits.documents
      && Bytes(Evictable(t.order, t.pinned), t.docs) <= limits.bytes
  {
    WalkedInOrder(r.order, 0, r.docs, r.pinned, limits);
    TrimmingRestoresTheBounds(r, limits);
  }

  lemma {:induction false} EvictableCount(order: seq<Id>, pinned: set<Id>)
    requires Distinct(order) && forall x | x in pinned :: x in order
    ensures |Evictable(order, pinned)| == |order| - |pinned|
  {
    if order == [] {
      assert forall x :: x !in pinned;
    } else {
      var tail := order[1..];
      assert order == [order[0]] + tail && order[0] !in tail;
      EvictableCount(tail, pinned - {order[0]});
      SameEvictable(tail, pinned, pinned - {order[0]});
    }
  }

  lemma {:induction false} SameEvictable(order: seq<Id>, p: set<Id>, q: set<Id>)
    requires forall x | x in order :: x in p <==> x in q
    ensures Evictable(order, p) == Evictable(order, q)
  {
    if order != [] {
      var x := order[0];
      assert x in order;
      SameEvictable(order[1..], p, q);
    }
  }

  lemma {:induction false} BytesOfTwo(a: seq<Id>, b: seq<Id>, docs: map<Id, Document>)
    ensures Bytes(a + b, docs) == Bytes(a, docs) + Bytes(b, docs)
  {
    if a == [] {
      assert a + b == b;
    } else {
      assert (a + b)[1..] == a[1..] + b;
      BytesOfTwo(a[1..], b, docs);
    }
  }

  /** Bytes of the evictable bodies with x, if present and evictable, taken out. */
  lemma {:induction false} BytesWithout(order: seq<Id>, x: Id, docs: map<Id, Document>, pinned: set<Id>)
    requires Distinct(order) && forall y | y in order :: y in docs
    ensures Bytes(Evictable(order, pinned), docs) ==
      Bytes(Evictable(Without(order, x), pinned), docs) + (if x in order && x !in pinned then docs[x].bytes else 0)
  {
    if order != [] {
      var tail := order[1..];
      assert order == [order[0]] + tail;
      BytesWithout(tail, x, docs, pinned);
      if order[0] == x {
        assert x !in tail;
      }
    }
  }

  // ---------------------------------------------------------------- the reference index

  /** The ids registered under an instrument, in the order of `registered`. */
  function Listed(registered: seq<Id>, refs: map<Id, Ref>, i: Instrument): seq<Id> {
    if registered == [] then []
    else (if registered[0] in refs && refs[registered[0]].instrument == Some(i) then [registered[0]] else [])
         + Listed(registered[1..], refs, i)
  }

  /** The index lists exactly these ids under i, and has no empty list. */
  ghost predicate IndexAt(index: map<Instrument, seq<Id>>, i: Instrument, ids: seq<Id>) {
    (i in index <==> ids != []) && (i in index ==> index[i] == ids)
  }

  ghost predicate IndexOk(index: map<Instrument, seq<Id>>, refs: map<Id, Ref>, registered: seq<Id>) {
    && Distinct(registered) && (forall x :: x in registered <==> x in refs)
    && (forall i :: IndexAt(index, i, Listed(registered, refs, i)))
  }

  lemma {:induction false} ListedMembers(registered: seq<Id>, refs: map<Id, Ref>, i: Instrument)
    ensures forall x :: x in Listed(registered, refs, i) <==>
      x in registered && x in refs && refs[x].instrument == Some(i)
  {
    if registered != [] {
      ListedMembers(registered[1..], refs, i);
      assert registered == [registered[0]] + registered[1..];
    }
  }

  lemma {:induction false} ListedOfTwo(a: seq<Id>, b: seq<Id>, refs: map<Id, Ref>, i: Instrument)
    ensures Listed(a + b, refs, i) == Listed(a, refs, i) + Listed(b, refs, i)
  {
    if a == [] {
      assert a + b == b;
    } else {
      assert (a + b)[1..] == a[1..] + b;
      ListedOfTwo(a[1..], b, refs, i);
    }
  }

  lemma {:induction false} ListedSame(registered: seq<Id>, p: map<Id, Ref>, q: map<Id, Ref>, i: Instrument)
    requires forall x | x in registered ::
      (x in p && p[x].instrument == Some(i)) <==> (x in q && q[x].instrument == Some(i))
    ensures Listed(registered, p, i) == Listed(registered, q, i)
  {
    if registered != [] {
      var x := registered[0];
      assert x in registered;
      ListedSame(registered[1..], p, q, i);
    }
  }

  lemma {:induction false} ListedWithout(registered: seq<Id>, refs: map<Id, Ref>, i: Instrument, x: Id)
    requires Distinct(registered)
    ensures Listed(Without(registered, x), refs, i) == Without(Listed(registered, refs, i), x)
  {
    if registered != [] {
      var tail := registered[1..];
      ListedWithout(tail, refs, i, x);
      assert ([registered[0]] + Listed(tail, refs, i))[1..] == Listed(tail, refs, i);
      assert [] + Listed(tail, refs, i) == Listed(tail, refs, i);
      assert ([registered[0]] + Without(tail, x))[1..] == Without(tail, x);
    }
  }

  /** register_ref on the two dictionaries. */
  function Registered(index: map<Instrument, seq<Id>>, ref: Ref): map<Instrument, seq<Id>> {
    match ref.instrument
    case None => index
    case Some(i) =>
      var ids := if i in index then index[i] else [];
      index[i := if ref.id in ids then ids else ids + [ref.id]]
  }

  /** First registrations go to the end; a repeated one changes no order. */
  function Enrolled(registered: seq<Id>, x: Id): seq<Id> {
    if x in registered then registered else registered + [x]
  }

  predicate KeepsInstrument(refs: map<Id, Ref>, ref: Ref) {
    ref.id in refs ==> refs[ref.id].instrument == ref.instrument
  }

  lemma RegisteringKeepsList(index: map<Instrument, seq<Id>>, refs: map<Id, Ref>, registered: seq<Id>, ref: Ref,
                             i: Instrument)
    requires IndexOk(index, refs, registered) && KeepsInstrument(refs, ref)
    ensures Listed(Enrolled(registered, ref.id), refs[ref.id := ref], i) ==
      var ids := Listed(registered, refs, i);
      if ref.instrument == Some(i) && ref.id !in ids then ids + [ref.id] else ids
  {
    var more := refs[ref.id := ref];
    ListedMembers(registered, refs, i);
    ListedSame(registered, refs, more, i);
    if ref.id !in registered {
      ListedOfTwo(registered, [ref.id], more, i);
      assert Listed([ref.id], more, i) == if ref.instrument == Some(i) then [ref.id] else [];
    }
  }

  lemma RegisteredAt(index: map<Instrument, seq<Id>>, ref: Ref, i: Instrument, ids: seq<Id>)
    requires IndexAt(index, i, ids)
    ensures IndexAt(Registered(index, ref), i,
                    if ref.instrument == Some(i) && ref.id !in ids then ids + [ref.id] else ids)
  {
  }

  lemma RegisteringKeepsIndex(index: map<Instrument, seq<Id>>, refs: map<Id, Ref>, registered: seq<Id>, ref: Ref)
    requires IndexOk(index, refs, registered) && KeepsInstrument(refs, ref)
    ensures IndexOk(Registered(index, ref), refs[ref.id := ref], Enrolled(registered, ref.id))
  {
    var after, all, more := Registered(index, ref), Enrolled(registered, ref.id), refs[ref.id := ref];
    forall i ensures IndexAt(after, i, Listed(all, more, i)) {
      RegisteringKeepsList(index, refs, registered, ref, i);
      RegisteredAt(index, ref, i, Listed(registered, refs, i));
    }
  }

  /** `del` on the index: the id leaves its instrument's list, and an empty list leaves the index. */
  function Unregistered(index: map<Instrument, seq<Id>>, ref: Ref): map<Instrument, seq<Id>> {
    match ref.instrument
    case None => index
    case Some(i) =>
      if i !in index then index
      else if Without(index[i], ref.id) == [] then map j | j in index && j != i :: index[j]
      else index[i := Without(index[i], ref.id)]
  }

  lemma UnregisteredAt(index: map<Instrument, seq<Id>>, ref: Ref, i: Instrument, ids: seq<Id>)
    requires IndexAt(index, i, ids)
    ensures IndexAt(Unregistered(index, ref), i, if ref.instrument == Some(i) then Without(ids, ref.id) else ids)
  {
  }

  lemma UnregisteringKeepsList(refs: map<Id, Ref>, registered: seq<Id>, x: Id, i: Instrument, fewer: map<Id, Ref>)
    requires Distinct(registered) && x in refs && fewer == map y | y in refs && y != x :: refs[y]
    ensures Listed(Without(registered, x), fewer, i) ==
      if refs[x].instrument == Some(i) then Without(Listed(registered, refs, i), x) else Listed(registered, refs, i)
  {
    WithoutDropsOnlyOne(registered, x);
    ListedWithout(registered, refs, i, x);
    ListedMembers(registered, refs, i);
    ListedSame(Without(registered, x), refs, fewer, i);
    if refs[x].instrument != Some(i) { WithoutNothing(Listed(registered, refs, i), x); }
  }

  lemma UnregisteringKeepsIndex(index: map<Instrument, seq<Id>>, refs: map<Id, Ref>, registered: seq<Id>, x: Id)
    requires IndexOk(index, refs, registered) && x in refs && refs[x].id == x
    ensures IndexOk(Unregistered(index, refs[x]), map y | y in refs && y != x :: refs[y], Without(registered, x))
  {
    var fewer := map y | y in refs && y != x :: refs[y];
    WithoutDropsOnlyOne(registered, x);
    var after, all := Unregistered(index, refs[x]), Without(registered, x);
    forall i ensures IndexAt(after, i, Listed(all, fewer, i)) {
      UnregisteringKeepsList(refs, registered, x, i, fewer);
      UnregisteredAt(index, refs[x], i, Listed(registered, refs, i));
    }
  }

  /** Every id listed under i has a reference naming i, and every such reference is listed. */
  ghost predicate ListsExactly(index: map<Instrument, seq<Id>>, refs: map<Id, Ref>) {
    forall i, x :: (i in index && x in index[i]) <==> (x in refs && refs[x].instrument == Some(i))
  }

  /** Registering a document again under another instrument leaves it listed under the old one too: one more
      registration keeps the index exact if and only if it does not move a document away from an instrument. */
  lemma IndexIsExactUnlessADocumentMoves(index: map<Instrument, seq<Id>>, refs: map<Id, Ref>, ref: Ref)
    requires ListsExactly(index, refs)
    ensures ListsExactly(Registered(index, ref), refs[ref.id := ref]) <==>
            !(ref.id in refs && refs[ref.id].instrument.Some? && refs[ref.id].instrument != ref.instrument)
  {
    var more := refs[ref.id := ref];
    var after := Registered(index, ref);
    if ref.id in refs && refs[ref.id].instrument.Some? && refs[ref.id].instrument != ref.instrument {
      var i := refs[ref.id].instrument.value;
      assert i in index && ref.id in index[i];
      assert i in after && ref.id in after[i] && more[ref.id].instrument != Some(i);
    } else {
      forall i, x ensures (i in after && x in after[i]) <==> (x in more && more[x].instrument == Some(i)) {
        assert (i in index && x in index[i]) <==> (x in refs && refs[x].instrument == Some(i));
      }
    }
  }

  /** Such a registration: document 1, known under instrument 1, is registered again under instrument 2. */
  lemma AMovedDocumentStaysListed(r: Ref)
    requires r.id == 1 && r.instrument == Some(1)
    ensures var index, refs := Registered(map[], r), map[1 := r];
      && ListsExactly(index, refs)
      && !ListsExactly(Registered(index, r.(instrument := Some(2))), refs[1 := r.(instrument := Some(2))])
  {
    var index, refs := Registered(map[], r), map[1 := r];
    forall i, x ensures (i in index && x in index[i]) <==> (x in refs && refs[x].instrument == Some(i)) { }
    IndexIsExactUnlessADocumentMoves(index, refs, r.(instrument := Some(2)));
  }

  // ---------------------------------------------------------------- the recorded sizes

  ghost predicate Sized(sizes: map<Id, nat>, docs: map<Id, Document>) {
    && (forall x :: x in sizes <==> x in docs)
    && (forall x | x in docs :: sizes[x] == docs[x].bytes)
  }

  /** The bodies without x. */
  function Fewer(docs: map<Id, Document>, x: Id): map<Id, Document> { map y | y in docs && y != x :: docs[y] }

  lemma SizedWithout(sizes: map<Id, nat>, docs: map<Id, Document>, x: Id)
    requires Sized(sizes, docs)
    ensures Sized(FewerSizes(sizes, x), Fewer(docs, x))
  {
  }

  lemma SizedWith(sizes: map<Id, nat>, docs: map<Id, Document>, x: Id, d: Document)
    requires Sized(sizes, docs)
    ensures Sized(FewerSizes(sizes, x)[x := d.bytes], docs[x := d])
    ensures Sized(sizes[x := d.bytes], docs[x := d])
  {
  }

  /** Sizes are those of the bodies, and the total is the exact sum over the evictable ones. */
  ghost predicate Accounts(r: Resident, sizes: map<Id, nat>, total: int) {
    ResidentOk(r) && Sized(sizes, r.docs) && total == Bytes(Evictable(r.order, r.pinned), r.docs)
  }

  function FewerSizes(sizes: map<Id, nat>, x: Id): map<Id, nat> { map y | y in sizes && y != x :: sizes[y] }

  lemma AccountsWithout(r: Resident, sizes: map<Id, nat>, total: int, x: Id)
    requires Accounts(r, sizes, total) && x in r.docs && x !in r.pinned
    ensures x in sizes
    ensures Accounts(Resident(Without(r.order, x), Fewer(r.docs, x), r.pinned), FewerSizes(sizes, x), total - sizes[x])
  {
    EvictedBytes(r, x);
    SizedWithout(sizes, r.docs, x);
  }

  lemma AccountsPlaced(r: Resident, sizes: map<Id, nat>, total: int, x: Id, d: Document, durable: bool)
    requires Accounts(r, sizes, total)
    ensures x in r.docs ==> x in sizes && (x !in r.pinned ==> total >= sizes[x])
    ensures Accounts(Placed(r, x, d, durable), (if x in r.docs then FewerSizes(sizes, x) else sizes)[x := d.bytes],
                     total - (if x in r.docs && x !in r.pinned then sizes[x] else 0) + (if durable then d.bytes else 0))
  {
    PlacedBytes(r, x, d, durable);
    SizedWith(sizes, r.docs, x, d);
  }

  // ---------------------------------------------------------------- the cache

  class BoundedDocumentCache {
    const limits: Limits
    var order: seq<Id>
    var data: map<Id, Document>
    var sizes: map<Id, nat>
    var pinned: set<Id>
    var evictableBytes: int
    var refs: map<Id, Ref>
    var index: map<Instrument, seq<Id>>
    // Whether every document has so far kept the instrument it was first registered under, and the order in
    // which the known ones were.
    ghost var stable: bool
    ghost var registered: seq<Id>

    constructor (maxDocuments: int, maxBytes: int)
      ensures Valid() && limits == Limits(Max(1, maxDocuments), Max(1, maxBytes))
      ensures State() == Resident([], map[], {}) && refs == map[] && registered == [] && stable
    {
      limits := Limits(Max(1, maxDocuments), Max(1, maxBytes));
      order, data, sizes, pinned, evictableBytes := [], map[], map[], {}, 0;
      refs, index, registered, stable := map[], map[], [], true;
    }

    function State(): Resident reads this { Resident(order, data, pinned) }

    /** The accounting: sizes are those of the bodies, and the running total is the exact sum over the evictable. */
    ghost predicate Accounted()
      reads this
    {
      Accounts(State(), sizes, evictableBytes)
    }

    ghost predicate Valid()
      reads this
    {
      && Accounted() && Bounded(State(), limits)
      && (stable ==> IndexOk(index, refs, registered)) && forall x | x in refs :: refs[x].id == x
    }

    method DropAccounting(x: Id)
      requires x in sizes && (x !in pinned ==> evictableBytes >= sizes[x])
      modifies this`sizes, this`pinned, this`evictableBytes
      ensures sizes == FewerSizes(old(sizes), x)
      ensures pinned == old(pinned) - {x}
      ensures evictableBytes == old(evictableBytes) - (if x in old(pinned) then 0 else old(sizes)[x])
    {
      var size := sizes[x];
      sizes := FewerSizes(sizes, x);
      if x in pinned {
        pinned := pinned - {x};
      } else {
        evictableBytes := evictableBytes - size;
      }
    }

    /** Where a pass is after n entries of its snapshot, p of them passed over. */
    ghost predicate Passing(was: Resident, snapshot: seq<Id>, n: nat, p: nat, evictable: int)
      reads this
    {
      && n <= |snapshot| && p <= |order| && order[p..] == snapshot[n..]
      && Accounted() && evictable == |Evictable(order, pinned)|
      && Walking(was, State(), p)
    }

    /** The eviction loop over a snapshot of the order, with its running counters. */
    method Evict()
      requires Accounted()
      modifies this`order, this`data, this`sizes, this`evictableBytes
      ensures Accounted() && State() == Trimmed(old(State()), limits)
    {
      ghost var was := State();
      EvictableCount(order, pinned);
      var evictable := |order| - |pinned|;
      var snapshot := order;
      ghost var p := 0;
      var n := 0;
      while n < |snapshot| && !(evictable <= limits.documents && evictableBytes <= limits.bytes)
        invariant Passing(was, snapshot, n, p, evictable)
      {
        evictable, p := EvictNext(snapshot, n, evictable, was, p);
        n := n + 1;
      }
      WalkEnds(was, State(), p);
    }

    /** One turn of the loop: a pinned body is passed over, any other goes. */
    method EvictNext(snapshot: seq<Id>, n: nat, evictable: int, ghost was: Resident, ghost p: nat)
      returns (left: int, ghost q: nat)
      requires Passing(was, snapshot, n, p, evictable) && n < |snapshot| && !Bounded(State(), limits)
      modifies this`order, this`data, this`sizes, this`evictableBytes
      ensures Passing(was, snapshot, n + 1, q, left)
    {
      var x := snapshot[n];
      assert order[p] == order[p..][0] == x;
      WalkStep(was, State(), p);
      left, q := evictable, p + 1;
      assert snapshot[n..][1..] == snapshot[n + 1..];
      if x !in pinned {
        EvictOne(x);
        left, q := evictable - 1, p;
      }
    }

    /** The pass that began at `was` has come to `now` having passed over p pinned bodies. */
    ghost predicate Walking(was: Resident, now: Resident, p: nat) {
      && ResidentOk(now) && p <= |now.order| && now.pinned == was.pinned
      && (forall x | x in now.order[..p] :: x in now.pinned)
      && (forall x | x in now.docs :: x in was.docs && now.docs[x] == was.docs[x])
      && Walked(now.order, p, was.docs, was.pinned, limits) == Walked(was.order, 0, was.docs, was.pinned, limits)
    }

    /** The bodies still resident weigh what they weighed when the pass began. */
    lemma SameFit(was: Resident, now: Resident, p: nat)
      requires Walking(was, now, p)
      ensures Fits(Evictable(now.order, was.pinned), was.docs, limits) <==> Bounded(now, limits)
    {
      EvictableMembers(now.order, now.pinned);
      BytesOnlyNeedTheirDocuments(Evictable(now.order, now.pinned), was.docs, now.docs);
    }

    lemma WalkStep(was: Resident, now: Resident, p: nat)
      requires Walking(was, now, p) && p < |now.order| && !Bounded(now, limits)
      ensures now.order[p] in now.docs
      ensures now.order[p] in now.pinned ==> Walking(was, now, p + 1)
      ensures now.order[p] !in now.pinned ==>
        Walking(was, Resident(Without(now.order, now.order[p]), Fewer(now.docs, now.order[p]), now.pinned), p)
        && Without(now.order, now.order[p])[p..] == now.order[p + 1..]
        && |Evictable(Without(now.order, now.order[p]), now.pinned)| == |Evictable(now.order, now.pinned)| - 1
    {
      SameFit(was, now, p);
      assert now.order[p] in now.order;
      assert now.order[..p + 1] == now.order[..p] + [now.order[p]];
      WithoutTakesOut(now.order, p);
      WithoutDropsOnlyOne(now.order, now.order[p]);
      assert Without(now.order, now.order[p])[..p] == now.order[..p];
      if now.order[p] !in now.pinned { HeadOfEvictable(now.order, p, now.pinned); }
    }

    lemma WalkEnds(was: Resident, now: Resident, p: nat)
      requires Walking(was, now, p) && (p == |now.order| || Bounded(now, limits))
      ensures now == Trimmed(was, limits)
    {
      SameFit(was, now, p);
      var t := Trimmed(was, limits);
      assert t.order == now.order;
      assert forall x :: x in t.docs <==> x in now.docs;
      assert now.docs == t.docs;
    }

    /** One body leaves; its reference stays. */
    method EvictOne(x: Id)
      requires Accounted() && x in data && x !in pinned
      modifies this`order, this`data, this`sizes, this`evictableBytes
      ensures Accounted() && order == Without(old(order), x)
      ensures data == Fewer(old(data), x)
    {
      ghost var r := State();
      AccountsWithout(r, sizes, evictableBytes, x);
      evictableBytes := evictableBytes - sizes[x];
      RemoveBody(x);
      assert State() == Resident(Without(r.order, x), Fewer(r.docs, x), r.pinned);
    }

    method RemoveBody(x: Id)
      modifies this`order, this`data, this`sizes
      ensures order == Without(old(order), x) && data == Fewer(old(data), x)
      ensures sizes == FewerSizes(old(sizes), x)
    {
      sizes := FewerSizes(sizes, x);
      order := Without(order, x);
      data := Fewer(data, x);
    }

    /** The accounting of a body placed under x, new or replaced. */
    method Place(x: Id, d: Document, durable: bool)
      requires Accounted()
      modifies this`order, this`data, this`sizes, this`pinned, this`evictableBytes
      ensures Accounted() && State() == Placed(old(State()), x, d, durable)
      ensures order == Without(old(order), x) + [x] && data == old(data)[x := d]
      ensures pinned == if durable then old(pinned) - {x} else old(pinned) + {x}
    {
      ghost var r := State();
      AccountsPlaced(r, sizes, evictableBytes, x, d, durable);
      if x in data { DropAccounting(x); }
      assert pinned == r.pinned - {x};
      order := Without(order, x) + [x];
      data := data[x := d];
      sizes := sizes[x := d.bytes];
      if durable {
        evictableBytes := evictableBytes + sizes[x];
      } else {
        pinned := pinned + {x};
      }
      assert State() == Placed(r, x, d, durable);
    }

    method RegisterRef(ref: Ref)
      requires stable ==> IndexOk(index, refs, registered)
      modifies this`refs, this`index, this`registered, this`stable
      ensures stable == (old(stable) && KeepsInstrument(old(refs), ref))
      ensures stable ==> IndexOk(index, refs, registered)
      ensures refs == old(refs)[ref.id := ref] && index == Registered(old(index), ref)
      ensures registered == if ref.id in old(registered) then old(registered) else old(registered) + [ref.id]
    {
      stable := stable && KeepsInstrument(refs, ref);
      if stable { RegisteringKeepsIndex(index, refs, registered, ref); }
      refs := refs[ref.id := ref];
      registered := Enrolled(registered, ref.id);
      if ref.instrument.Some? {
        var i := ref.instrument.value;
        var ids := if i in index then index[i] else [];
        index := index[i := if ref.id in ids then ids else ids + [ref.id]];
      }
    }

    /** `put(document, durable=..., document_id=...)`; `self[x] = d` is `Put(x, d, false)`. */
    method Put(x: Id, d: Document, durable: bool)
      requires Valid()
      modifies this
      ensures Valid() && stable == (old(stable) && KeepsInstrument(old(refs), RefOf(d)))
      ensures State() == Trimmed(Resident(Without(old(order), x) + [x], old(data)[x := d],
                                          if durable then old(pinned) - {x} else old(pinned) + {x}), limits)
      ensures refs == old(refs)[d.id := Ref(d.id, d.instrument, d.mode, d.content)]
      ensures index == Registered(old(index), RefOf(d))
      ensures registered == if d.id in old(registered) then old(registered) else old(registered) + [d.id]
    {
      Place(x, d, durable);
      RegisterRef(RefOf(d));
      TrimmingRestoresTheBounds(State(), limits);
      Evict();
    }

    method MarkDurable(x: Id)
      requires Valid()
      modifies this`order, this`data, this`sizes, this`pinned, this`evictableBytes
      ensures Valid()
      ensures State() ==
        if x in old(pinned) then Trimmed(old(State()).(pinned := old(pinned) - {x}), limits) else old(State())
    {
      if x in pinned {
        Unpin(x);
        TrimmingRestoresTheBounds(State(), limits);
        Evict();
      }
    }

    method Unpin(x: Id)
      requires Accounted() && x in pinned
      modifies this`pinned, this`evictableBytes
      ensures Accounted() && State() == old(State()).(pinned := old(pinned) - {x})
    {
      UnpinnedBytes(State(), x);
      pinned := pinned - {x};
      evictableBytes := evictableBytes + (if x in sizes then sizes[x] else 0);
    }

    /** A hit becomes the most recently used; eviction never runs here. */
    method Get(x: Id) returns (d: Option<Document>)
      requires Valid()
      modifies this`order
      ensures Valid()
      ensures d == if x in data then Some(data[x]) else None
      ensures order == if x in data then Without(old(order), x) + [x] else old(order)
    {
      if x !in data { return None; }
      WithoutDropsOnlyOne(order, x);
      MovedBytes(State(), x);
      order := Without(order, x) + [x];
      return Some(data[x]);
    }

    /** `del self[x]`: false stands for KeyError, raised when no body is resident even if a reference is known. */
    method Delete(x: Id) returns (ok: bool)
      requires Valid()
      modifies this
      ensures Valid() && stable == old(stable)
      ensures ok <==> x in old(data)
      ensures !ok ==> State() == old(State()) && refs == old(refs) && registered == old(registered)
      ensures ok ==> State() == Resident(Without(old(order), x), Fewer(old(data), x), old(pinned) - {x})
      ensures ok ==>
        && refs == (map y | y in old(refs) && y != x :: old(refs)[y]) && registered == Without(old(registered), x)
        && index == (if x in old(refs) then Unregistered(old(index), old(refs)[x]) else old(index))
    {
      if x !in data { return false; }
      DropBody(x);
      ForgetRef(x);
      return true;
    }

    method DropBody(x: Id)
      requires Accounted() && Bounded(State(), limits) && x in data
      modifies this`order, this`data, this`sizes, this`pinned, this`evictableBytes
      ensures Accounted() && Bounded(State(), limits)
      ensures State() == Resident(Without(old(order), x), Fewer(old(data), x), old(pinned) - {x})
    {
      DeletedBytes(State(), x, limits);
      SizedWithout(sizes, data, x);
      data := Fewer(data, x);
      order := Without(order, x);
      DropAccounting(x);
    }

    method ForgetRef(x: Id)
      requires (stable ==> IndexOk(index, refs, registered)) && forall y | y in refs :: refs[y].id == y
      modifies this`refs, this`index, this`registered
      ensures (stable ==> IndexOk(index, refs, registered)) && registered == Without(old(registered), x)
      ensures refs == map y | y in old(refs) && y != x :: old(refs)[y]
      ensures index == if x in old(refs) then Unregistered(old(index), old(refs)[x]) else old(index)
    {
      ghost var known := registered;
      registered := Without(registered, x);
      if x !in refs {
        if stable { WithoutNothing(known, x); }
        assert refs == map y | y in refs && y != x :: refs[y];
        return;
      }
      if stable { UnregisteringKeepsIndex(index, refs, known, x); }
      var ref := refs[x];
      refs := map y | y in refs && y != x :: refs[y];
      if ref.instrument.Some? && ref.instrument.value in index {
        var i := ref.instrument.value;
        var ids := Without(index[i], x);
        if ids == [] {
          index := map j | j in index && j != i :: index[j];
        } else {
          index := index[i := ids];
        }
      }
    }

    function RefsForInstrument(i: Instrument, mode: Option<Mode>): seq<Ref>
      reads this
    {
      Chosen(Found(if i in index then index[i] else [], refs), mode)
    }

    /** While no document has moved between instruments, a lookup answers exactly. */
    lemma AnswersExactly(i: Instrument, mode: Option<Mode>)
      requires Valid() && stable
      ensures RefsForInstrument(i, mode) == Found(Known(registered, refs, i, mode), refs)
      ensures forall ref | ref in RefsForInstrument(i, mode) ::
        ref.id in refs && refs[ref.id] == ref && ref.instrument == Some(i) && (mode.Some? ==> ref.mode == mode.value)
      ensures forall x | x in refs && refs[x].instrument == Some(i) && (mode.Some? ==> refs[x].mode == mode.value) ::
        refs[x] in RefsForInstrument(i, mode)
    {
      LookupIsExact(index, refs, registered, i, mode);
      var ids, found := Known(registered, refs, i, mode), RefsForInstrument(i, mode);
      forall ref | ref in found
        ensures ref.id in refs && refs[ref.id] == ref && ref.instrument == Some(i) && OfMode(ref, mode)
      {
        var k :| 0 <= k < |found| && found[k] == ref;
        var x := ids[k];
        assert x in refs && refs[x].id == x;
      }
      forall x | x in refs && refs[x].instrument == Some(i) && OfMode(refs[x], mode) ensures refs[x] in found {
        var k :| 0 <= k < |ids| && ids[k] == x;
        assert found[k] == refs[x];
      }
    }
  }

  /** `source_mode is None or ref.source_mode == source_mode` */
  predicate OfMode(ref: Ref, mode: Option<Mode>) { mode.None? || mode == Some(ref.mode) }

  /** The source-mode filter of refs_for_instrument. */
  function Chosen(found: seq<Ref>, mode: Option<Mode>): seq<Ref> {
    if found == [] then [] else (if OfMode(found[0], mode) then [found[0]] else []) + Chosen(found[1..], mode)
  }

  function OfModeOnly(ids: seq<Id>, refs: map<Id, Ref>, mode: Option<Mode>): seq<Id> {
    if ids == [] then []
    else (if ids[0] in refs && OfMode(refs[ids[0]], mode) then [ids[0]] else []) + OfModeOnly(ids[1..], refs, mode)
  }

  /** The ids known under the instrument and mode, in the order in which they were first registered. */
  function Known(registered: seq<Id>, refs: map<Id, Ref>, i: Instrument, mode: Option<Mode>): seq<Id> {
    OfModeOnly(Listed(registered, refs, i), refs, mode)
  }

  lemma {:induction false} ChosenAreFound(ids: seq<Id>, refs: map<Id, Ref>, mode: Option<Mode>)
    ensures Chosen(Found(ids, refs), mode) == Found(OfModeOnly(ids, refs, mode), refs)
    ensures forall x :: x in OfModeOnly(ids, refs, mode) <==> x in ids && x in refs && OfMode(refs[x], mode)
  {
    if ids != [] {
      var tail := ids[1..];
      ChosenAreFound(tail, refs, mode);
      assert ids == [ids[0]] + tail;
      var first, rest := if ids[0] in refs then [refs[ids[0]]] else [], Found(tail, refs);
      assert first + rest == if ids[0] in refs then [refs[ids[0]]] + rest else rest;
      assert ids[0] in refs ==> (first + rest)[0] == refs[ids[0]] && (first + rest)[1..] == rest;
      var more := OfModeOnly(tail, refs, mode);
      var kept := if ids[0] in refs && OfMode(refs[ids[0]], mode) then [ids[0]] else [];
      assert kept + more == if kept == [] then more else [ids[0]] + more;
      assert kept != [] ==> (kept + more)[0] == ids[0] && (kept + more)[1..] == more;
      assert [] + Chosen(rest, mode) == Chosen(rest, mode);
    }
  }

  /** The references behind the ids, in their order. */
  function Found(ids: seq<Id>, refs: map<Id, Ref>): seq<Ref> {
    if ids == [] then [] else (if ids[0] in refs then [refs[ids[0]]] else []) + Found(ids[1..], refs)
  }

  lemma {:induction false} FoundIsEach(ids: seq<Id>, refs: map<Id, Ref>)
    requires forall x | x in ids :: x in refs
    ensures |Found(ids, refs)| == |ids|
    ensures forall k | 0 <= k < |ids| :: ids[k] in refs && Found(ids, refs)[k] == refs[ids[k]]
  {
    if ids != [] {
      var x := ids[0];
      assert x in ids;
      FoundIsEach(ids[1..], refs);
    }
  }

  lemma KnownFirst(registered: seq<Id>, refs: map<Id, Ref>, i: Instrument, mode: Option<Mode>)
    requires registered != []
    ensures var x, rest := registered[0], Known(registered[1..], refs, i, mode);
      Known(registered, refs, i, mode) ==
        if x in refs && refs[x].instrument == Some(i) && OfMode(refs[x], mode) then [x] + rest else rest
  {
    var x, listed := registered[0], Listed(registered[1..], refs, i);
    assert ([x] + listed)[0] == x && ([x] + listed)[1..] == listed && [] + listed == listed;
    assert [] + OfModeOnly(listed, refs, mode) == OfModeOnly(listed, refs, mode);
  }

  lemma {:induction false} KnownInOrder(registered: seq<Id>, refs: map<Id, Ref>, i: Instrument, mode: Option<Mode>)
    ensures InOrder(Known(registered, refs, i, mode), registered)
    ensures forall x | x in Known(registered, refs, i, mode) :: x in registered
  {
    if registered != [] {
      var head, tail := registered[0], registered[1..];
      var rest := Known(tail, refs, i, mode);
      KnownInOrder(tail, refs, i, mode);
      KnownFirst(registered, refs, i, mode);
      OrderFromTail(rest, head, tail);
      assert registered == [head] + tail;
    }
  }

  /** While the index is exact, a lookup finds the references of the instrument and mode and no other, in the order in
      which they were first registered. */
  lemma LookupIsExact(index: map<Instrument, seq<Id>>, refs: map<Id, Ref>, registered: seq<Id>, i: Instrument,
                      mode: Option<Mode>)
    requires IndexOk(index, refs, registered)
    ensures var ids := Known(registered, refs, i, mode);
      var found := Chosen(Found(if i in index then index[i] else [], refs), mode);
      && found == Found(ids, refs) && |found| == |ids|
      && (forall k | 0 <= k < |ids| ::
            ids[k] in refs && found[k] == refs[ids[k]] && found[k].instrument == Some(i)
            && (mode.Some? ==> found[k].mode == mode.value))
      && (forall x :: x in ids <==>
            x in refs && refs[x].instrument == Some(i) && (mode.Some? ==> refs[x].mode == mode.value))
      && InOrder(ids, registered)
  {
    KnownInOrder(registered, refs, i, mode);
    var ids := Known(registered, refs, i, mode);
    ListedMembers(registered, refs, i);
    assert IndexAt(index, i, Listed(registered, refs, i));
    ChosenAreFound(Listed(registered, refs, i), refs, mode);
    FoundIsEach(ids, refs);
    forall k | 0 <= k < |ids|
      ensures ids[k] in refs && refs[ids[k]].instrument == Some(i) && OfMode(refs[ids[k]], mode)
    {
      var x := ids[k];
      assert x in ids;
    }
  }

  // ---------------------------------------------------------------- byte sums of the single operations

  /** What `put` does to the resident bodies before the eviction pass. */
  function Placed(r: Resident, x: Id, d: Document, durable: bool): Resident {
    Resident(Without(r.order, x) + [x], r.docs[x := d], if durable then r.pinned - {x} else r.pinned + {x})
  }

  lemma PlacedBytes(r: Resident, x: Id, d: Document, durable: bool)
    requires ResidentOk(r)
    ensures var p := Placed(r, x, d, durable);
      && ResidentOk(p)
      && Bytes(Evictable(p.order, p.pinned), p.docs) == Bytes(Evictable(r.order, r.pinned), r.docs)
           - (if x in r.docs && x !in r.pinned then r.docs[x].bytes else 0) + (if durable then d.bytes else 0)
      && (x in r.docs && x !in r.pinned ==> Bytes(Evictable(r.order, r.pinned), r.docs) >= r.docs[x].bytes)
  {
    var rest, pinned, docs := Without(r.order, x), Placed(r, x, d, durable).pinned, r.docs[x := d];
    WithoutDropsOnlyOne(r.order, x);
    BytesWithout(r.order, x, r.docs, r.pinned);
    EvictableOfTwo(rest, [x], pinned);
    SameEvictable(rest, pinned, r.pinned);
    EvictableMembers(rest, pinned);
    BytesOfTwo(Evictable(rest, pinned), Evictable([x], pinned), docs);
    BytesOnlyNeedTheirDocuments(Evictable(rest, pinned), r.docs, docs);
    assert Evictable([x], pinned) == if durable then [x] else [];
  }

  lemma EvictedBytes(r: Resident, x: Id)
    requires ResidentOk(r) && x in r.docs && x !in r.pinned
    ensures var fewer := Fewer(r.docs, x);
      && ResidentOk(Resident(Without(r.order, x), fewer, r.pinned))
      && Bytes(Evictable(Without(r.order, x), r.pinned), fewer) + r.docs[x].bytes ==
        Bytes(Evictable(r.order, r.pinned), r.docs)
  {
    var fewer := Fewer(r.docs, x);
    WithoutDropsOnlyOne(r.order, x);
    BytesWithout(r.order, x, r.docs, r.pinned);
    EvictableMembers(Without(r.order, x), r.pinned);
    BytesOnlyNeedTheirDocuments(Evictable(Without(r.order, x), r.pinned), r.docs, fewer);
  }

  lemma UnpinnedBytes(r: Resident, x: Id)
    requires ResidentOk(r) && x in r.pinned
    ensures Bytes(Evictable(r.order, r.pinned - {x}), r.docs) ==
      Bytes(Evictable(r.order, r.pinned), r.docs) + r.docs[x].bytes
  {
    BytesWithout(r.order, x, r.docs, r.pinned - {x});
    BytesWithout(r.order, x, r.docs, r.pinned);
    WithoutDropsOnlyOne(r.order, x);
    SameEvictable(Without(r.order, x), r.pinned, r.pinned - {x});
  }

  /** Moving a body to the recent end changes no sum. */
  lemma MovedBytes(r: Resident, x: Id)
    requires ResidentOk(r) && x in r.docs
    ensures ResidentOk(r.(order := Without(r.order, x) + [x]))
    ensures Bytes(Evictable(Without(r.order, x) + [x], r.pinned), r.docs) == Bytes(Evictable(r.order, r.pinned), r.docs)
    ensures |Evictable(Without(r.order, x) + [x], r.pinned)| == |Evictable(r.order, r.pinned)|
  {
    WithoutDropsOnlyOne(r.order, x);
    BytesWithout(r.order, x, r.docs, r.pinned);
    PlacedBytes(r, x, r.docs[x], x !in r.pinned);
    assert r.pinned == Placed(r, x, r.docs[x], x !in r.pinned).pinned;
    assert r.docs[x := r.docs[x]] == r.docs;
    MovedSize(r.order, x);
    EvictableCount(r.order, r.pinned);
    EvictableCount(Without(r.order, x) + [x], r.pinned);
  }

  lemma {:induction false} MovedSize(order: seq<Id>, x: Id)
    requires Distinct(order) && x in order
    ensures |Without(order, x)| == |order| - 1
  {
    var p :| 0 <= p < |order| && order[p] == x;
    WithoutTakesOut(order, p);
  }

  /** Deleting a body keeps both bounds. */
  lemma DeletedBytes(r: Resident, x: Id, limits: Limits)
    requires ResidentOk(r) && x in r.docs && Bounded(r, limits)
    ensures var fewer := Fewer(r.docs, x);
      && ResidentOk(Resident(Without(r.order, x), fewer, r.pinned - {x}))
      && Bytes(Evictable(Without(r.order, x), r.pinned - {x}), fewer) == Bytes(Evictable(r.order, r.pinned), r.docs)
           - (if x in r.pinned then 0 else r.docs[x].bytes)
      && (x !in r.pinned ==> Bytes(Evictable(r.order, r.pinned), r.docs) >= r.docs[x].bytes)
      && Bounded(Resident(Without(r.order, x), fewer, r.pinned - {x}), limits)
  {
    var rest := Without(r.order, x);
    var fewer := Fewer(r.docs, x);
    WithoutDropsOnlyOne(r.order, x);
    SameEvictable(rest, r.pinned, r.pinned - {x});
    EvictableMembers(rest, r.pinned);
    BytesOnlyNeedTheirDocuments(Evictable(rest, r.pinned), r.docs, fewer);
    BytesWithout(r.order, x, r.docs, r.pinned);
    MovedSize(r.order, x);
    EvictableCount(r.order, r.pinned);
    EvictableCount(rest, r.pinned - {x});
  }
}
