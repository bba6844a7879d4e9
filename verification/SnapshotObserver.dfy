/** The read-only deployment observer: keyset paging over one repeatable-read snapshot, the incremental merge of
    legacy job events, and the verdict. */
module SnapshotObserver {
  import opened Common
  import opened CycleTables

  // ---------------------------------------------------------------- keyset paging

  /** The values of the key columns. */
  type KeyTuple = seq<int>

  datatype Keyed<T> = Keyed(key: KeyTuple, row: T)

  /** Row comparison `(a1, a2, ...) < (b1, b2, ...)`. */
  predicate Less(a: KeyTuple, b: KeyTuple) {
    if a == [] || b == [] then a == [] && b != []
    else a[0] < b[0] || (a[0] == b[0] && Less(a[1..], b[1..]))
  }

  /** At the first column in which they differ a has the smaller value, or a ends there. */
  ghost predicate DiffersBelow(a: KeyTuple, b: KeyTuple, n: nat) {
    && n <= |a| && n < |b| && a[..n] == b[..n]
    && (n == |a| || a[n] < b[n])
  }

  lemma BelowInTheRest(a: KeyTuple, b: KeyTuple, n: nat)
    requires a != [] && b != [] && a[0] == b[0]
    ensures DiffersBelow(a[1..], b[1..], n) <==> DiffersBelow(a, b, n + 1)
  {
    if n < |a| && n + 1 < |b| {
      assert a[..n + 1] == [a[0]] + a[1..][..n] && b[..n + 1] == [b[0]] + b[1..][..n];
      assert a[..n + 1] == b[..n + 1] <==> a[1..][..n] == b[1..][..n] by {
        assert a[..n + 1][1..] == a[1..][..n] && b[..n + 1][1..] == b[1..][..n];
      }
    }
  }

  lemma DiffersLater(a: KeyTuple, b: KeyTuple, n: nat)
    ensures DiffersBelow(a, b, n) && n > 0 ==> a != [] && b != [] && a[0] == b[0]
  {
    if 0 < n <= |a| && n < |b| { assert a[..n][0] == a[0] && b[..n][0] == b[0]; }
  }

  /** Row comparison is the lexicographic order. */
  lemma {:induction false} LessIsLexicographic(a: KeyTuple, b: KeyTuple)
    ensures Less(a, b) <==> exists n: nat :: DiffersBelow(a, b, n)
  {
    if a != [] && b != [] && a[0] == b[0] {
      LessIsLexicographic(a[1..], b[1..]);
      if n: nat :| DiffersBelow(a, b, n) { BelowInTheRest(a, b, n - 1); }
      if n: nat :| DiffersBelow(a[1..], b[1..], n) { BelowInTheRest(a, b, n); }
    } else {
      if Less(a, b) { assert DiffersBelow(a, b, 0); }
      if n: nat :| DiffersBelow(a, b, n) { DiffersLater(a, b, n); }
    }
  }

  lemma {:induction false} LessIsAsymmetric(a: KeyTuple, b: KeyTuple)
    ensures !(Less(a, b) && Less(b, a)) && !Less(a, a)
  {
    if a != [] {
      LessIsAsymmetric(a[1..], if b == [] then [] else b[1..]);
    }
  }

  /** The snapshot of a table in the order of its unique key. */
  ghost predicate Ascending<T>(table: seq<Keyed<T>>) {
    forall i, j {:trigger Less(table[i].key, table[j].key)} | 0 <= i < j < |table| :: Less(table[i].key, table[j].key)
  }

  /** `WHERE (keys) > (last)`, in key order. */
  function After<T>(table: seq<Keyed<T>>, last: Option<KeyTuple>): seq<Keyed<T>> {
    if table == [] then []
    else (if last.None? || Less(last.value, table[0].key) then [table[0]] else []) + After(table[1..], last)
  }

  function Take<T>(s: seq<T>, n: nat): seq<T> { if n < |s| then s[..n] else s }

  function Flatten<T>(pages: seq<seq<T>>): seq<T> {
    if pages == [] then [] else pages[0] + Flatten(pages[1..])
  }

  lemma {:induction false} FlattenOneMore<T>(pages: seq<seq<T>>, page: seq<T>)
    ensures Flatten(pages + [page]) == Flatten(pages) + page
  {
    if pages == [] {
      assert pages + [page] == [page];
      assert Flatten([page]) == page + Flatten([]);
    } else {
      assert (pages + [page])[1..] == pages[1..] + [page];
      FlattenOneMore(pages[1..], page);
    }
  }

  lemma {:induction false} AllAreAfterNone<T>(table: seq<Keyed<T>>)
    ensures After(table, None) == table
  {
    if table != [] { AllAreAfterNone(table[1..]); }
  }

  lemma {:induction false} AllAreAfterASmallerKey<T>(table: seq<Keyed<T>>, last: KeyTuple)
    requires forall i | 0 <= i < |table| :: Less(last, table[i].key)
    ensures After(table, Some(last)) == table
  {
    if table != [] { AllAreAfterASmallerKey(table[1..], last); }
  }

  /** Continuing after the key of row n - 1 gives exactly the rows from n on: none skipped, none repeated. */
  lemma {:induction false} ContinuesWhereItStopped<T>(table: seq<Keyed<T>>, n: nat)
    requires Ascending(table) && 0 < n <= |table|
    ensures After(table, Some(table[n - 1].key)) == table[n..]
  {
    var last := table[n - 1].key;
    LessIsAsymmetric(table[0].key, last);
    if n == 1 {
      AllAreAfterASmallerKey(table[1..], last);
    } else {
      ContinuesWhereItStopped(table[1..], n - 1);
      assert table[1..][n - 2] == table[n - 1] && table[1..][n - 1..] == table[n..];
    }
  }

  lemma OnePageMoreIsTaken<T>(s: seq<T>, n: nat, m: nat)
    requires n < m <= |s|
    ensures s[..n] + s[n..m] == s[..m] && s[n..m][m - n - 1] == s[m - 1]
  {
  }

  /** After some pages: the first n rows have been yielded, and what comes after the last key is the rest. */
  ghost predicate Paging<T>(table: seq<Keyed<T>>, pages: seq<seq<Keyed<T>>>, last: Option<KeyTuple>, n: nat,
                            batch: nat) {
    && n <= |table| && Flatten(pages) == table[..n] && After(table, last) == table[n..]
    && forall p | p in pages :: 0 < |p| <= batch
  }

  /** The pages are full, but for the last one when all rows have been read, and there are as many as the rows fill. */
  ghost predicate Filled<T>(pages: seq<seq<T>>, total: nat, n: nat, batch: nat)
    requires 1 <= batch
  {
    && (forall k | 0 <= k < |pages| :: |pages[k]| == batch || (k == |pages| - 1 && n == total))
    && |pages| + PageCount(total - n, batch) == PageCount(total, batch)
  }

  lemma FilledFurther<T>(pages: seq<seq<T>>, total: nat, n: nat, batch: nat, page: seq<T>)
    requires 1 <= batch && Filled(pages, total, n, batch) && 0 < |page| <= batch && n + |page| <= total
    requires |page| == batch || n + |page| == total
    ensures Filled(pages + [page], total, n + |page|, batch)
  {
    if |page| < batch { assert PageCount(total - n - batch, batch) == 0; }
  }

  /** How many pages so many rows fill. */
  function PageCount(rows: int, batch: nat): nat
    requires 1 <= batch
    decreases rows
  {
    if rows <= 0 then 0 else 1 + PageCount(rows - batch, batch)
  }

  /** The deadline passes before so many rows have been read to the end: before one of their pages, or before the empty
      one that ends them. */
  ghost predicate CutWithin(rows: nat, batch: nat, expired: nat -> bool)
    requires 1 <= batch
  {
    exists i: nat :: i <= PageCount(rows, batch) && expired(i)
  }

  lemma TakenRows<T>(s: seq<T>, n: nat, batch: nat)
    requires n <= |s|
    ensures var m := n + |Take(s[n..], batch)|;
      m <= |s| && Take(s[n..], batch) == s[n..m] && (n < |s| && 1 <= batch ==> n < m) && m - n <= batch
      && (m - n == batch || m == |s|)
  {
  }

  lemma PagingGoesOn<T>(table: seq<Keyed<T>>, pages: seq<seq<Keyed<T>>>, last: Option<KeyTuple>, n: nat, batch: nat,
                        rows: seq<Keyed<T>>)
    requires Paging(table, pages, last, n, batch) && 0 < |rows| <= batch
    requires n + |rows| <= |table| && rows == table[n..n + |rows|]
    requires After(table, Some(table[n + |rows| - 1].key)) == table[n + |rows|..]
    ensures Paging(table, pages + [rows], Some(rows[|rows| - 1].key), n + |rows|, batch)
  {
    FlattenOneMore(pages, rows);
    OnePageMoreIsTaken(table, n, n + |rows|);
    forall p | p in pages + [rows] ensures 0 < |p| <= batch { assert p in pages || p == rows; }
  }

  lemma PagingStep<T>(table: seq<Keyed<T>>, pages: seq<seq<Keyed<T>>>, last: Option<KeyTuple>, n: nat, batch: nat,
                      rows: seq<Keyed<T>>)
    requires 1 <= batch && Paging(table, pages, last, n, batch) && rows == Take(table[n..], batch)
    requires rows != [] ==>
      n + |rows| <= |table| && After(table, Some(table[n + |rows| - 1].key)) == table[n + |rows|..]
    ensures rows == [] ==> n == |table| && Flatten(pages) == table
    ensures rows != [] ==> Paging(table, pages + [rows], Some(rows[|rows| - 1].key), n + |rows|, batch)
  {
    TakenRows(table, n, batch);
    if rows == [] {
      assert table[..n] == table;
    } else {
      PagingGoesOn(table, pages, last, n, batch, rows);
    }
  }

  ghost predicate Reading<T>(table: seq<Keyed<T>>, pages: seq<seq<Keyed<T>>>, last: Option<KeyTuple>, n: nat,
                             batch: nat)
    requires 1 <= batch
  {
    Paging(table, pages, last, n, batch) && Filled(pages, |table|, n, batch)
  }

  /** One statement: the next rows after the last key, none only at the end. */
  method NextRows<T>(table: seq<Keyed<T>>, ghost pages: seq<seq<Keyed<T>>>, last: Option<KeyTuple>, ghost n: nat,
                     batch: nat)
    returns (rows: seq<Keyed<T>>)
    requires Ascending(table) && 1 <= batch && Reading(table, pages, last, n, batch)
    ensures rows == [] ==> n == |table| && Flatten(pages) == table
    ensures rows != [] ==>
      n < n + |rows| <= |table| && Reading(table, pages + [rows], Some(rows[|rows| - 1].key), n + |rows|, batch)
  {
    rows := Take(After(table, last), batch);
    TakenRows(table, n, batch);
    if rows != [] { ContinuesWhereItStopped(table, n + |rows|); }
    PagingStep(table, pages, last, n, batch, rows);
    if rows != [] { FilledFurther(pages, |table|, n, batch, rows); }
  }

  /** What pages say that have been yielded so far, the deadline not having passed before any of them. */
  ghost predicate Yielded<T>(table: seq<Keyed<T>>, pages: seq<seq<Keyed<T>>>, batch: nat, expired: nat -> bool) {
    && Flatten(pages) <= table && NotYet(expired, |pages|)
    && (forall p | p in pages :: 0 < |p| <= batch) && (forall k | 0 <= k < |pages| - 1 :: |pages[k]| == batch)
  }

  /** The deadline had not passed before any of the first n pages. */
  ghost predicate NotYet(expired: nat -> bool, n: nat) { forall i: nat | i < n :: !expired(i) }

  lemma ReadingYields<T>(table: seq<Keyed<T>>, pages: seq<seq<Keyed<T>>>, last: Option<KeyTuple>, n: nat, batch: nat,
                         expired: nat -> bool)
    requires 1 <= batch && Reading(table, pages, last, n, batch) && NotYet(expired, |pages|)
    ensures !expired(|pages|) ==> NotYet(expired, |pages| + 1)
    ensures Yielded(table, pages, batch, expired)
    ensures expired(|pages|) ==> CutWithin(|table|, batch, expired)
    ensures !expired(|pages|) && n == |table| ==> !CutWithin(|table|, batch, expired)
  {
  }

  /** `pages`: whatever the batch size, a run that is not cut off by its deadline yields every row of the snapshot
      exactly once in key order, in pages that are full but for the last; one that is cut off has yielded a prefix and
      raises as soon as the deadline has passed. */
  method Pages<T>(table: seq<Keyed<T>>, batch: nat, expired: nat -> bool)
    returns (pages: seq<seq<Keyed<T>>>, raised: bool)
    requires Ascending(table) && 1 <= batch
    ensures !raised ==> Flatten(pages) == table
    ensures raised ==> expired(|pages|)
    ensures raised <==> CutWithin(|table|, batch, expired)
    ensures Yielded(table, pages, batch, expired)
  {
    var last: Option<KeyTuple> := None;
    ghost var scanned := 0;
    pages := [];
    AllAreAfterNone(table);
    while true
      invariant Reading(table, pages, last, scanned, batch)
      invariant NotYet(expired, |pages|)
      decreases |table| - scanned
    {
      ReadingYields(table, pages, last, scanned, batch, expired);
      if expired(|pages|) { return pages, true; }
      var rows := NextRows(table, pages, last, scanned, batch);
      if rows == [] { return pages, false; }
      pages := pages + [rows];
      scanned := scanned + |rows|;
      last := Some(rows[|rows| - 1].key);
    }
  }

  // ---------------------------------------------------------------- legacy job events

  type Job = int
  type EventId = int

  /** A row of the selection table: an ordinary publication, a job event, or neither. */
  datatype Payload = Ordinary | JobEvent(job: Job, status: Status) | Malformed

  datatype EventRow = EventRow(event: EventId, generated: int, payload: Payload)

  datatype Winner = Winner(event: EventId, generated: int, status: Status)

  function AsWinner(r: EventRow): Winner requires r.payload.JobEvent? { Winner(r.event, r.generated, r.payload.status) }

  /** `ORDER BY generated DESC, event DESC`: a is not behind b. */
  predicate NotBehind(a: Winner, b: Winner) {
    a.generated > b.generated || (a.generated == b.generated && a.event >= b.event)
  }

  predicate IsJob(r: EventRow, j: Job) { r.payload.JobEvent? && r.payload.job == j }

  /** `latest` holds, for exactly the jobs among these rows, their globally greatest event. */
  ghost predicate Latest(latest: map<Job, Winner>, rows: seq<EventRow>) {
    && (forall i | 0 <= i < |rows| && rows[i].payload.JobEvent? ::
          rows[i].payload.job in latest && NotBehind(latest[rows[i].payload.job], AsWinner(rows[i])))
    && (forall j | j in latest :: exists i :: 0 <= i < |rows| && IsJob(rows[i], j) && AsWinner(rows[i]) == latest[j])
  }

  ghost predicate DistinctEvents(rows: seq<EventRow>) {
    forall i, j | 0 <= i < j < |rows| :: rows[i].event != rows[j].event
  }

  /** Two winners of one job from rows with distinct events are the same: the result of the merge is unique. */
  lemma LatestIsUnique(a: map<Job, Winner>, b: map<Job, Winner>, rows: seq<EventRow>)
    requires DistinctEvents(rows) && Latest(a, rows) && Latest(b, rows)
    ensures a == b
  {
    forall j ensures j in a <==> j in b {
      if j in a { var i :| 0 <= i < |rows| && IsJob(rows[i], j); }
      if j in b { var i :| 0 <= i < |rows| && IsJob(rows[i], j); }
    }
    forall j | j in a ensures a[j] == b[j] {
      var i :| 0 <= i < |rows| && IsJob(rows[i], j) && AsWinner(rows[i]) == a[j];
      var k :| 0 <= k < |rows| && IsJob(rows[k], j) && AsWinner(rows[k]) == b[j];
      assert rows[i].event == rows[k].event;
    }
  }

  /** The events of one page by job, as `choices` collects them. Event ids are the table's primary key, so each
      is a new dictionary entry. */
  datatype Choices = Choices(jobs: seq<Job>, events: map<Job, seq<Winner>>)

  ghost predicate Comes(w: Winner, rows: seq<EventRow>, j: Job) {
    exists i :: 0 <= i < |rows| && IsJob(rows[i], j) && AsWinner(rows[i]) == w
  }

  ghost predicate Collected(c: Choices, page: seq<EventRow>) {
    && (forall j :: j in c.jobs <==> j in c.events)
    && (forall i | 0 <= i < |page| && page[i].payload.JobEvent? ::
          page[i].payload.job in c.events && AsWinner(page[i]) in c.events[page[i].payload.job])
    && (forall j | j in c.events :: c.events[j] != [])
    && (forall j, k | j in c.events && 0 <= k < |c.events[j]| :: Comes(c.events[j][k], page, j))
  }

  function Added(c: Choices, j: Job, w: Winner): Choices {
    if j in c.events then c.(events := c.events[j := c.events[j] + [w]])
    else Choices(c.jobs + [j], c.events[j := [w]])
  }

  lemma ComesStill(w: Winner, rows: seq<EventRow>, more: seq<EventRow>, j: Job)
    requires Comes(w, rows, j)
    ensures Comes(w, rows + more, j)
  {
    var i :| 0 <= i < |rows| && IsJob(rows[i], j) && AsWinner(rows[i]) == w;
    assert (rows + more)[i] == rows[i];
  }

  lemma CollectedGrows(c: Choices, page: seq<EventRow>, r: EventRow)
    requires Collected(c, page) && !r.payload.Malformed?
    ensures Collected(if r.payload.JobEvent? then Added(c, r.payload.job, AsWinner(r)) else c, page + [r])
  {
    var d := if r.payload.JobEvent? then Added(c, r.payload.job, AsWinner(r)) else c;
    assert (page + [r])[|page|] == r;
    forall i | 0 <= i < |page + [r]| && (page + [r])[i].payload.JobEvent?
      ensures (page + [r])[i].payload.job in d.events
        && AsWinner((page + [r])[i]) in d.events[(page + [r])[i].payload.job]
    {
      if i < |page| { assert (page + [r])[i] == page[i]; }
    }
    forall j, k | j in d.events && 0 <= k < |d.events[j]| ensures Comes(d.events[j][k], page + [r], j) {
      if j in c.events && k < |c.events[j]| {
        assert d.events[j][k] == c.events[j][k];
        ComesStill(c.events[j][k], page, [r], j);
      } else {
        assert IsJob((page + [r])[|page|], j) && AsWinner((page + [r])[|page|]) == d.events[j][k];
      }
    }
  }

  /** The inner loop of a page; false stands for a malformed event. */
  method Collect(page: seq<EventRow>) returns (choices: Choices, ok: bool)
    ensures ok <==> forall i | 0 <= i < |page| :: !page[i].payload.Malformed?
    ensures ok ==> Collected(choices, page)
  {
    choices := Choices([], map[]);
    for n := 0 to |page|
      invariant forall i | 0 <= i < n :: !page[i].payload.Malformed?
      invariant Collected(choices, page[..n])
    {
      var r := page[n];
      assert page[..n + 1] == page[..n] + [r];
      if r.payload.Malformed? { return choices, false; }
      CollectedGrows(choices, page[..n], r);
      if r.payload.JobEvent? { choices := Added(choices, r.payload.job, AsWinner(r)); }
    }
    assert page[..|page|] == page;
    ok := true;
  }

  /** The DISTINCT ON query for one job. */
  method Greatest(events: seq<Winner>) returns (w: Winner)
    requires events != []
    ensures w in events
    ensures forall i | 0 <= i < |events| :: NotBehind(w, events[i])
  {
    w := events[0];
    for n := 1 to |events|
      invariant w in events
      invariant forall i | 0 <= i < n :: NotBehind(w, events[i])
    {
      if !NotBehind(w, events[n]) { w := events[n]; }
    }
  }

  /** w is the greatest of the page's events of j and the winner kept so far. */
  ghost predicate MergedFor(w: Winner, latest: map<Job, Winner>, events: seq<Winner>, j: Job) {
    && ((j in latest && w == latest[j]) || w in events)
    && (j in latest ==> NotBehind(w, latest[j]))
    && (forall i | 0 <= i < |events| :: NotBehind(w, events[i]))
  }

  /** One page merged into the winners kept so far, one per job. */
  method Merge(latest: map<Job, Winner>, choices: Choices, ghost seen: seq<EventRow>, ghost page: seq<EventRow>)
    returns (merged: map<Job, Winner>)
    requires Latest(latest, seen) && Collected(choices, page)
    ensures Latest(merged, seen + page)
  {
    merged := latest;
    for n := 0 to |choices.jobs|
      invariant forall j :: j in merged <==> j in latest || j in choices.jobs[..n]
      invariant forall j | j in merged && j !in choices.jobs[..n] :: merged[j] == latest[j]
      invariant forall k | 0 <= k < n ::
        choices.jobs[k] in choices.events && choices.jobs[k] in merged
        && MergedFor(merged[choices.jobs[k]], latest, choices.events[choices.jobs[k]], choices.jobs[k])
    {
      var j := choices.jobs[n];
      assert j in choices.jobs;
      assert choices.jobs[..n + 1] == choices.jobs[..n] + [j];
      var events := if j in latest then choices.events[j] + [latest[j]] else choices.events[j];
      var w := Greatest(events);
      WinnerIsMerged(w, latest, choices.events[j], j, events);
      merged := merged[j := w];
    }
    assert choices.jobs[..|choices.jobs|] == choices.jobs;
    MergeIsLatest(merged, latest, choices, seen, page);
  }

  lemma WinnerIsMerged(w: Winner, latest: map<Job, Winner>, events: seq<Winner>, j: Job, all: seq<Winner>)
    requires all == (if j in latest then events + [latest[j]] else events)
    requires w in all && forall i | 0 <= i < |all| :: NotBehind(w, all[i])
    ensures MergedFor(w, latest, events, j)
  {
    if j in latest {
      assert all[|events|] == latest[j];
      forall i | 0 <= i < |events| ensures NotBehind(w, events[i]) { assert all[i] == events[i]; }
    }
  }

  lemma MergeIsLatest(merged: map<Job, Winner>, latest: map<Job, Winner>, c: Choices, seen: seq<EventRow>,
                      page: seq<EventRow>)
    requires Latest(latest, seen) && Collected(c, page)
    requires forall j :: j in merged <==> j in latest || j in c.jobs
    requires forall j | j in merged && j !in c.jobs :: merged[j] == latest[j]
    requires forall k | 0 <= k < |c.jobs| ::
      c.jobs[k] in c.events && c.jobs[k] in merged
        && MergedFor(merged[c.jobs[k]], latest, c.events[c.jobs[k]], c.jobs[k])
    ensures Latest(merged, seen + page)
  {
    var all := seen + page;
    forall j | j in c.jobs ensures MergedFor(merged[j], latest, c.events[j], j) {
      var k :| 0 <= k < |c.jobs| && c.jobs[k] == j;
    }
    forall i | 0 <= i < |all| && all[i].payload.JobEvent?
      ensures all[i].payload.job in merged && NotBehind(merged[all[i].payload.job], AsWinner(all[i]))
    {
      var j := all[i].payload.job;
      if i < |seen| {
        assert all[i] == seen[i] && j in latest;
      } else {
        assert all[i] == page[i - |seen|];
        var k :| 0 <= k < |c.events[j]| && c.events[j][k] == AsWinner(all[i]);
      }
    }
    forall j | j in merged
      ensures exists i :: 0 <= i < |all| && IsJob(all[i], j) && AsWinner(all[i]) == merged[j]
    {
      if j in latest && merged[j] == latest[j] {
        assert Comes(latest[j], seen, j);
        ComesStill(latest[j], seen, page, j);
      } else {
        var k :| 0 <= k < |c.events[j]| && c.events[j][k] == merged[j];
        assert Comes(merged[j], page, j);
        var i :| 0 <= i < |page| && IsJob(page[i], j) && AsWinner(page[i]) == merged[j];
        assert all[|seen| + i] == page[i];
      }
    }
  }

  datatype LegacyReport = LegacyReport(scanned: nat, latest: map<Job, Winner>, unresolved: set<Job>, backed: set<Job>)

  function Rows(table: seq<Keyed<EventRow>>): seq<EventRow> {
    seq(|table|, i requires 0 <= i < |table| => table[i].row)
  }

  ghost predicate Clean(rows: seq<EventRow>) { forall i | 0 <= i < |rows| :: !rows[i].payload.Malformed? }

  /** The jobs that only the legacy events know and that are still unresolved. */
  function Unresolved(latest: map<Job, Winner>, durable: set<Job>): set<Job> {
    set j | j in latest && j !in durable && latest[j].status.Active()
  }

  method MergePage(latest: map<Job, Winner>, page: seq<EventRow>, ghost seen: seq<EventRow>)
    returns (merged: Option<map<Job, Winner>>)
    requires Latest(latest, seen)
    ensures merged.Some? <==> Clean(page)
    ensures merged.Some? ==> Latest(merged.value, seen + page)
  {
    var choices, ok := Collect(page);
    if !ok { return None; }
    var m := Merge(latest, choices, seen, page);
    return Some(m);
  }

  lemma OnePageMore(table: seq<Keyed<EventRow>>, seen: seq<Keyed<EventRow>>, page: seq<Keyed<EventRow>>)
    requires seen + page <= table
    ensures Rows(seen + page) == Rows(seen) + Rows(page)
    ensures Clean(Rows(table)) ==> Clean(Rows(page))
    ensures Clean(Rows(seen)) && Clean(Rows(page)) ==> Clean(Rows(seen + page))
  {
    forall i | 0 <= i < |page| ensures Rows(page)[i] == Rows(table)[|seen| + i] {
      assert page[i] == (seen + page)[|seen| + i];
    }
  }

  /** No event of a job is younger than the one kept for it, nor as old and of a greater id. */
  ghost predicate NewestKept(latest: map<Job, Winner>, table: seq<Keyed<EventRow>>) {
    forall i | 0 <= i < |table| && table[i].row.payload.JobEvent? ::
      var r := table[i].row;
      && r.payload.job in latest && r.generated <= latest[r.payload.job].generated
      && (r.generated == latest[r.payload.job].generated ==> r.event <= latest[r.payload.job].event)
  }

  lemma LatestIsNewest(latest: map<Job, Winner>, table: seq<Keyed<EventRow>>)
    requires Latest(latest, Rows(table))
    ensures NewestKept(latest, table)
  {
    forall i | 0 <= i < |table| ensures Rows(table)[i] == table[i].row { }
  }

  /** `legacy_jobs` on one snapshot. It raises when it is cut off or meets a malformed event; otherwise, whatever the
      batch size and although only one event per job is kept between pages, it has read every row once and ends
      with each job's greatest event of the whole table. */
  method LegacyJobs(table: seq<Keyed<EventRow>>, durable: set<Job>, batch: nat, expired: nat -> bool)
    returns (report: Option<LegacyReport>)
    requires Ascending(table) && 1 <= batch
    ensures report.Some? ==>
      && Clean(Rows(table))
      && report.value.scanned == |table|
      && Latest(report.value.latest, Rows(table)) && NewestKept(report.value.latest, table)
      && report.value.unresolved == Unresolved(report.value.latest, durable)
      && (forall j :: j in report.value.unresolved <==>
            j in report.value.latest && j !in durable
            && report.value.latest[j].status !in {Completed, Failed, Cancelled})
      && report.value.backed == report.value.latest.Keys * durable
    ensures report.Some? <==> Clean(Rows(table)) && !CutWithin(|table|, batch, expired)
  {
    var pages, raised := Pages(table, batch, expired);
    var latest: map<Job, Winner> := map[];
    var count := 0;
    assert pages[..0] == [];
    assert pages[..|pages|] == pages;
    for n := 0 to |pages|
      invariant count == |Flatten(pages[..n])|
      invariant Latest(latest, Rows(Flatten(pages[..n]))) && Clean(Rows(Flatten(pages[..n])))
    {
      ghost var seen := Flatten(pages[..n]);
      FlattenOneMore(pages[..n], pages[n]);
      assert pages[..n + 1] == pages[..n] + [pages[n]];
      FlattenPrefix(pages, n + 1);
      OnePageMore(table, seen, pages[n]);
      var merged := MergePage(latest, Rows(pages[n]), Rows(seen));
      if merged.None? { return None; }
      latest := merged.value;
      count := count + |pages[n]|;
    }
    if raised { return None; }
    LatestIsNewest(latest, table);
    return Some(LegacyReport(count, latest, Unresolved(latest, durable), latest.Keys * durable));
  }

  lemma {:induction false} FlattenPrefix<T>(pages: seq<seq<T>>, n: nat)
    requires n <= |pages|
    ensures Flatten(pages[..n]) <= Flatten(pages)
  {
    if n > 0 {
      FlattenPrefix(pages[1..], n - 1);
      assert pages[..n][1..] == pages[1..][..n - 1];
    }
  }
}
