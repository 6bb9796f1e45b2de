/** Paged reading of an event indexer (`fetch_range` of `src/aleph/chains/indexer_reader.py`): one page is one
    committed transaction.  The chain's history of a stream is a fixed list of events in time order; the indexer
    shows the part of it that lies in the ranges it has processed so far, and answers a query with the earliest
    events of a closed window. */
module IndexerPages {
  import opened Wrappers
  import opened Ranges
  import opened MultiRanges
  import opened SyncRows

  datatype Event = Event(transaction: string, timestamp: Instant)

  predicate InOrder(log: seq<Event>) {
    forall i, j :: 0 <= i < j < |log| ==> log[i].timestamp <= log[j].timestamp
  }

  // ----- windows of a log

  function Window(log: seq<Event>, lo: Instant, hi: Instant): (w: seq<Event>)
    ensures forall e :: e in w <==> e in log && lo <= e.timestamp <= hi
  {
    if log == [] then []
    else if lo <= log[0].timestamp <= hi then [log[0]] + Window(log[1..], lo, hi)
    else Window(log[1..], lo, hi)
  }

  lemma {:induction false} WindowInOrder(log: seq<Event>, lo: Instant, hi: Instant)
    requires InOrder(log)
    ensures InOrder(Window(log, lo, hi))
  {
    if log != [] {
      WindowInOrder(log[1..], lo, hi);
      var w := Window(log[1..], lo, hi);
      forall j | 0 <= j < |w| ensures log[0].timestamp <= w[j].timestamp {
        assert w[j] in w;
        assert w[j] in log[1..];
      }
    }
  }

  lemma {:induction false} WindowEmpty(log: seq<Event>, lo: Instant, hi: Instant)
    requires forall e :: e in log ==> !(lo <= e.timestamp <= hi)
    ensures Window(log, lo, hi) == []
  {
    if Window(log, lo, hi) != [] {
      assert Window(log, lo, hi)[0] in Window(log, lo, hi);
    }
  }

  /** In time order a window is its earlier part followed by its later part. */
  lemma {:induction false} WindowSplit(log: seq<Event>, lo: Instant, mid: Instant, hi: Instant)
    requires InOrder(log) && lo <= mid + 1 && mid <= hi
    ensures Window(log, lo, hi) == Window(log, lo, mid) + Window(log, mid + 1, hi)
  {
    if log != [] {
      WindowSplit(log[1..], lo, mid, hi);
      if mid < log[0].timestamp {
        forall e | e in log[1..] ensures !(lo <= e.timestamp <= mid) { }
        WindowEmpty(log[1..], lo, mid);
        WindowEmpty(log, lo, mid);
      }
    }
  }

  // ----- pages

  /** The earliest `limit` events of the closed window. */
  function Page(log: seq<Event>, lo: Instant, hi: Instant, limit: nat): seq<Event> {
    var w := Window(log, lo, hi);
    if |w| <= limit then w else w[..limit]
  }

  /** The events an indexer that has processed the given ranges can show. */
  function Visible(log: seq<Event>, processed: seq<Range>): (v: seq<Event>)
    ensures forall e :: e in v <==> e in log && Covers(processed, e.timestamp)
  {
    if log == [] then []
    else if Covers(processed, log[0].timestamp) then [log[0]] + Visible(log[1..], processed)
    else Visible(log[1..], processed)
  }

  /** Inside one processed range the indexer shows the whole history. */
  lemma {:induction false} VisibleWindow(log: seq<Event>, processed: seq<Range>, p: Range, lo: Instant, hi: Instant)
    requires p in processed && p.lowerInc && p.upperInc && p.lower <= lo && hi <= p.upper
    ensures Window(Visible(log, processed), lo, hi) == Window(log, lo, hi)
  {
    if log != [] {
      VisibleWindow(log[1..], processed, p, lo, hi);
      if lo <= log[0].timestamp <= hi {
        assert Contains(p, log[0].timestamp);
      }
      if Covers(processed, log[0].timestamp) {
        assert ([log[0]] + Visible(log[1..], processed))[1..] == Visible(log[1..], processed);
      }
    }
  }

  /** What a page lets the reader mark as synced: everything up to the last event when the page is full, the
      whole window when it is not. */
  function PageRange(lo: Instant, hi: Instant, page: seq<Event>, limit: nat): Range
    requires lo <= hi && 0 < limit && forall e :: e in page ==> lo <= e.timestamp <= hi
  {
    if |page| >= limit then
      assert page[|page| - 1] in page;
      Interval(lo, page[|page| - 1].timestamp, true, false)
    else
      Interval(lo, hi, true, true)
  }

  /** Where the next page starts; none once a page was not full. */
  function NextStart(log: seq<Event>, lo: Instant, hi: Instant, limit: nat): Option<Instant>
    requires 0 < limit
  {
    var page := Page(log, lo, hi, limit);
    if |page| < limit then None else Some(page[limit - 1].timestamp)
  }

  lemma {:induction false} PageMembers(log: seq<Event>, lo: Instant, hi: Instant, limit: nat)
    ensures forall e :: e in Page(log, lo, hi, limit) ==> e in log && lo <= e.timestamp <= hi
    ensures |Page(log, lo, hi, limit)| <= limit
  {
  }

  /** A page holds every event of the range it marks as synced. */
  lemma {:induction false} PageIsComplete(log: seq<Event>, lo: Instant, hi: Instant, limit: nat, e: Event)
    requires InOrder(log) && lo <= hi && 0 < limit && e in log
    requires forall e :: e in Page(log, lo, hi, limit) ==> lo <= e.timestamp <= hi
    requires Contains(PageRange(lo, hi, Page(log, lo, hi, limit), limit), e.timestamp)
    ensures e in Page(log, lo, hi, limit)
  {
    var w, page := Window(log, lo, hi), Page(log, lo, hi, limit);
    WindowInOrder(log, lo, hi);
    if |page| >= limit {
      assert page[limit - 1] in page;
    }
    assert e in w;
    var i :| 0 <= i < |w| && w[i] == e;
    if limit <= i {
      assert page[limit - 1] == w[limit - 1];
    } else {
      assert page[i] == e;
    }
  }

  // ----- when the loop ends

  /** At most `n` pages are needed from `lo`. */
  predicate EndsWithin(log: seq<Event>, lo: Instant, hi: Instant, limit: nat, n: nat)
    requires 0 < limit
    decreases n
  {
    n > 0 && (NextStart(log, lo, hi, limit).None?
              || EndsWithin(log, NextStart(log, lo, hi, limit).value, hi, limit, n - 1))
  }

  /** Fewer than `limit` events share any one timestamp of the window. */
  predicate Sparse(log: seq<Event>, lo: Instant, hi: Instant, limit: nat) {
    forall t :: lo <= t <= hi ==> |Window(log, t, t)| < limit
  }

  lemma {:induction false} IndexOfSplit(a: seq<Event>, b: seq<Event>, k: nat)
    requires k < |a + b|
    ensures (a + b)[k] in a || (a + b)[k] in b
    ensures (a + b)[k] !in b ==> k < |a|
    ensures (a + b)[k] !in a ==> k >= |a|
  {
    if k < |a| {
      assert (a + b)[k] == a[k];
    } else {
      assert (a + b)[k] == b[k - |a|];
    }
  }

  lemma {:induction false} FullPage(log: seq<Event>, lo: Instant, hi: Instant, limit: nat)
    requires InOrder(log) && 0 < limit && |Window(log, lo, hi)| >= limit
    ensures NextStart(log, lo, hi, limit).Some?
    ensures var u := NextStart(log, lo, hi, limit).value;
            lo <= u <= hi && |Window(log, lo, u)| >= limit && forall t :: lo <= t < u ==> |Window(log, lo, t)| < limit
  {
    var w := Window(log, lo, hi);
    var u := w[limit - 1].timestamp;
    assert w[limit - 1] in w;
    WindowInOrder(log, lo, hi);
    WindowSplit(log, lo, u, hi);
    IndexOfSplit(Window(log, lo, u), Window(log, u + 1, hi), limit - 1);
    forall t | lo <= t < u ensures |Window(log, lo, t)| < limit {
      WindowSplit(log, lo, t, hi);
      IndexOfSplit(Window(log, lo, t), Window(log, t + 1, hi), limit - 1);
    }
  }

  /** While no timestamp is shared by `limit` events, a full page strictly shrinks the number of events left. */
  lemma {:induction false} PageProgress(log: seq<Event>, lo: Instant, hi: Instant, limit: nat)
    requires InOrder(log) && lo <= hi && 0 < limit && Sparse(log, lo, hi, limit)
    requires NextStart(log, lo, hi, limit).Some?
    ensures var u := NextStart(log, lo, hi, limit).value;
            lo <= u <= hi && |Window(log, u, hi)| < |Window(log, lo, hi)|
  {
    FullPage(log, lo, hi, limit);
    var u := NextStart(log, lo, hi, limit).value;
    WindowSplit(log, lo, u - 1, hi);
    WindowSplit(log, lo, u - 1, u);
  }

  lemma {:induction false} SparseEnds(log: seq<Event>, lo: Instant, hi: Instant, limit: nat, n: nat)
    requires InOrder(log) && lo <= hi && 0 < limit && Sparse(log, lo, hi, limit)
    requires n > |Window(log, lo, hi)|
    ensures EndsWithin(log, lo, hi, limit, n)
    decreases n
  {
    if NextStart(log, lo, hi, limit).Some? {
      PageProgress(log, lo, hi, limit);
      SparseEnds(log, NextStart(log, lo, hi, limit).value, hi, limit, n - 1);
    }
  }

  lemma {:induction false} DenseNeverEnds(log: seq<Event>, lo: Instant, hi: Instant, limit: nat, t: Instant, n: nat)
    requires InOrder(log) && 0 < limit && lo <= t <= hi && |Window(log, t, t)| >= limit
    ensures !EndsWithin(log, lo, hi, limit, n)
    decreases n
  {
    if n > 0 {
      WindowSplit(log, lo, t - 1, t);
      WindowSplit(log, lo, t, hi);
      FullPage(log, lo, hi, limit);
      assert NextStart(log, lo, hi, limit).value <= t;
      DenseNeverEnds(log, NextStart(log, lo, hi, limit).value, hi, limit, t, n - 1);
    }
  }

  /** The paging loop ends if and only if fewer than `limit` events share any one timestamp of the window. */
  lemma {:induction false} PagingEndsIff(log: seq<Event>, lo: Instant, hi: Instant, limit: nat)
    requires InOrder(log) && lo <= hi && 0 < limit
    ensures (exists n: nat :: EndsWithin(log, lo, hi, limit, n)) <==> Sparse(log, lo, hi, limit)
  {
    if Sparse(log, lo, hi, limit) {
      var n: nat := |Window(log, lo, hi)| + 1;
      SparseEnds(log, lo, hi, limit, n);
      assert exists k: nat :: EndsWithin(log, lo, hi, limit, k);
    } else {
      var t :| lo <= t <= hi && |Window(log, t, t)| >= limit;
      forall n: nat ensures !EndsWithin(log, lo, hi, limit, n) {
        DenseNeverEnds(log, lo, hi, limit, t, n);
      }
    }
  }

  // ----- one page as a state change

  datatype SyncState = SyncState(rows: Rows, chainTxs: map<string, Event>, pendingTxs: set<string>)

  /** `on_conflict_do_nothing`: a transaction already known keeps its row. */
  function WithTxs(txs: map<string, Event>, page: seq<Event>): (r: map<string, Event>)
    ensures r.Keys == txs.Keys + Hashes(page)
    ensures forall h :: h in txs ==> r[h] == txs[h]
    ensures forall h :: h in r && h !in txs ==> r[h] in page && r[h].transaction == h
    decreases |page|
  {
    if page == [] then
      txs
    else
      var txs' := if page[0].transaction in txs then txs else txs[page[0].transaction := page[0]];
      assert page == [page[0]] + page[1..];
      WithTxs(txs', page[1..])
  }

  function Hashes(page: seq<Event>): set<string> {
    set e | e in page :: e.transaction
  }

  ghost function AfterPage(s: SyncState, st: Stream, log: seq<Event>, lo: Instant, hi: Instant, limit: nat): SyncState
    requires lo <= hi && 0 < limit
  {
    var page := Page(log, lo, hi, limit);
    PageMembers(log, lo, hi, limit);
    SyncState(WithRange(s.rows, st, PageRange(lo, hi, page, limit)),
              WithTxs(s.chainTxs, page),
              s.pendingTxs + Hashes(page))
  }

  /** Every event of the stream in a stored synced range has its transaction recorded. */
  ghost predicate SafeFor(s: SyncState, st: Stream, log: seq<Event>) {
    forall e :: e in log && Covers(Stored(s.rows, st), e.timestamp) ==> e.transaction in s.chainTxs
  }

  /** Marking a page as synced keeps the safety of its stream: the rows never claim more than was recorded. */
  lemma {:induction false} AfterPageSafe(s: SyncState, st: Stream, log: seq<Event>, lo: Instant, hi: Instant,
                                         limit: nat)
    requires RowsOk(s.rows) && InOrder(log) && lo <= hi && 0 < limit && SafeFor(s, st, log)
    ensures RowsOk(AfterPage(s, st, log, lo, hi, limit).rows)
    ensures SafeFor(AfterPage(s, st, log, lo, hi, limit), st, log)
  {
    var s', page := AfterPage(s, st, log, lo, hi, limit), Page(log, lo, hi, limit);
    PageMembers(log, lo, hi, limit);
    var r := PageRange(lo, hi, page, limit);
    WithRangeStores(s.rows, st, r);
    forall e | e in log && Covers(Stored(s'.rows, st), e.timestamp)
      ensures e.transaction in s'.chainTxs
    {
      InsertCovers(Stored(s.rows, st), r, e.timestamp);
      if Contains(r, e.timestamp) {
        PageIsComplete(log, lo, hi, limit, e);
        assert e.transaction in Hashes(page);
      }
    }
  }

  lemma {:induction false} AfterPageFrame(s: SyncState, st: Stream, log: seq<Event>, lo: Instant, hi: Instant,
                                          limit: nat, other: Stream, otherLog: seq<Event>)
    requires RowsOk(s.rows) && lo <= hi && 0 < limit && other != st && SafeFor(s, other, otherLog)
    ensures SafeFor(AfterPage(s, st, log, lo, hi, limit), other, otherLog)
  {
    PageMembers(log, lo, hi, limit);
    WithRangeStores(s.rows, st, PageRange(lo, hi, Page(log, lo, hi, limit), limit));
  }

  // ----- whole runs

  /** One page of some round: the indexer's processed ranges at that moment and the window asked for. */
  datatype PageCall = PageCall(stream: Stream, processed: seq<Range>, lo: Instant, hi: Instant)

  /** The window lies inside one of the processed ranges, which are closed at both ends. */
  ghost predicate Legal(c: PageCall) {
    c.lo <= c.hi && exists p :: p in c.processed && p.lowerInc && p.upperInc && p.lower <= c.lo && c.hi <= p.upper
  }

  ghost function Run(s: SyncState, calls: seq<PageCall>, history: Stream -> seq<Event>, limit: nat): SyncState
    requires 0 < limit && forall c :: c in calls ==> Legal(c)
    decreases |calls|
  {
    if calls == [] then
      s
    else
      var last := calls[|calls| - 1];
      assert last in calls && Legal(last);
      var before := Run(s, calls[..|calls| - 1], history, limit);
      AfterPage(before, last.stream, Visible(history(last.stream), last.processed), last.lo, last.hi, limit)
  }

  ghost predicate AllSafe(s: SyncState, history: Stream -> seq<Event>) {
    RowsOk(s.rows) && forall st :: SafeFor(s, st, history(st))
  }

  /** A legal page of a partial indexer is the page of the full history. */
  lemma {:induction false} LegalPage(s: SyncState, c: PageCall, history: Stream -> seq<Event>, limit: nat)
    requires Legal(c) && 0 < limit
    ensures AfterPage(s, c.stream, Visible(history(c.stream), c.processed), c.lo, c.hi, limit) ==
            AfterPage(s, c.stream, history(c.stream), c.lo, c.hi, limit)
  {
    var p :| p in c.processed && p.lowerInc && p.upperInc && p.lower <= c.lo && c.hi <= p.upper;
    VisibleWindow(history(c.stream), c.processed, p, c.lo, c.hi);
    PageMembers(history(c.stream), c.lo, c.hi, limit);
  }

  /** Synchronisation is safe over every run: whatever pages are fetched, in whatever order, for whatever
      processed ranges, and wherever the run is cut. */
  lemma {:induction false} RunIsSafe(s: SyncState, calls: seq<PageCall>, history: Stream -> seq<Event>, limit: nat)
    requires 0 < limit && (forall c :: c in calls ==> Legal(c)) && forall st :: InOrder(history(st))
    requires AllSafe(s, history)
    ensures AllSafe(Run(s, calls, history, limit), history)
    decreases |calls|
  {
    if calls != [] {
      var c := calls[|calls| - 1];
      assert c in calls;
      var before := Run(s, calls[..|calls| - 1], history, limit);
      RunIsSafe(s, calls[..|calls| - 1], history, limit);
      LegalPage(before, c, history, limit);
      var after := AfterPage(before, c.stream, history(c.stream), c.lo, c.hi, limit);
      AfterPageSafe(before, c.stream, history(c.stream), c.lo, c.hi, limit);
      forall st ensures SafeFor(after, st, history(st)) {
        if st != c.stream {
          AfterPageFrame(before, c.stream, history(c.stream), c.lo, c.hi, limit, st, history(st));
        }
      }
    }
  }

  // ----- what a page covers

  /** Nothing leaves the queue, every newly recorded transaction enters it, and only fetched events do. */
  ghost predicate Queues(s: SyncState, s': SyncState, log: seq<Event>) {
    && s.pendingTxs <= s'.pendingTxs
    && (forall tx :: tx in s'.chainTxs && tx !in s.chainTxs ==> tx in s'.pendingTxs)
    && (forall tx :: tx in s'.pendingTxs && tx !in s.pendingTxs ==>
          tx in s'.chainTxs && exists e :: e in log && e.transaction == tx)
  }

  lemma {:induction false} AfterPageQueues(s: SyncState, st: Stream, log: seq<Event>, lo: Instant, hi: Instant,
                                           limit: nat)
    requires lo <= hi && 0 < limit
    ensures Queues(s, AfterPage(s, st, log, lo, hi, limit), log)
    ensures forall e :: e in Page(log, lo, hi, limit) ==>
              e.transaction in AfterPage(s, st, log, lo, hi, limit).pendingTxs
  {
    PageMembers(log, lo, hi, limit);
    forall tx | tx in Hashes(Page(log, lo, hi, limit)) ensures exists e :: e in log && e.transaction == tx {
      var e :| e in Page(log, lo, hi, limit) && e.transaction == tx;
    }
  }

  /** Over every run of legal pages, each transaction recorded on the way is queued for processing. */
  lemma {:induction false} RunQueues(s: SyncState, calls: seq<PageCall>, history: Stream -> seq<Event>, limit: nat)
    requires 0 < limit && forall c :: c in calls ==> Legal(c)
    ensures var s' := Run(s, calls, history, limit);
            s.pendingTxs <= s'.pendingTxs && forall tx :: tx in s'.chainTxs && tx !in s.chainTxs ==> tx in s'.pendingTxs
    decreases |calls|
  {
    if calls != [] {
      hide AfterPage;
      var c := calls[|calls| - 1];
      assert c in calls;
      var before := Run(s, calls[..|calls| - 1], history, limit);
      RunQueues(s, calls[..|calls| - 1], history, limit);
      AfterPageQueues(before, c.stream, Visible(history(c.stream), c.processed), c.lo, c.hi, limit);
    }
  }

  lemma {:induction false} PageRangeShape(log: seq<Event>, lo: Instant, hi: Instant, limit: nat)
    requires lo <= hi && 0 < limit
    requires forall e :: e in Page(log, lo, hi, limit) ==> lo <= e.timestamp <= hi
    ensures var r, next := PageRange(lo, hi, Page(log, lo, hi, limit), limit), NextStart(log, lo, hi, limit);
            r.lowerInc && r.lower == lo && r.upper == next.GetOr(hi) <= hi && lo <= r.upper
  {
    PageMembers(log, lo, hi, limit);
  }

  lemma {:induction false} AfterPageHull(s: SyncState, st: Stream, log: seq<Event>, lo: Instant, hi: Instant,
                                         limit: nat, x: Instant)
    requires RowsOk(s.rows) && lo <= hi && 0 < limit
    ensures HullCovers(Stored(AfterPage(s, st, log, lo, hi, limit).rows, st), x) <==>
            HullCovers(Stored(s.rows, st), x) || lo <= x <= NextStart(log, lo, hi, limit).GetOr(hi)
  {
    PageMembers(log, lo, hi, limit);
    PageRangeShape(log, lo, hi, limit);
    var r := PageRange(lo, hi, Page(log, lo, hi, limit), limit);
    WithRangeStores(s.rows, st, r);
    InsertHull(Stored(s.rows, st), r, x);
  }

  /** A page records every event before the next start, and a last page every event of the window. */
  lemma {:induction false} AfterPageRecords(s: SyncState, st: Stream, log: seq<Event>, lo: Instant, hi: Instant,
                                            limit: nat, e: Event)
    requires InOrder(log) && lo <= hi && 0 < limit && e in log && lo <= e.timestamp <= hi
    requires NextStart(log, lo, hi, limit).Some? ==> e.timestamp < NextStart(log, lo, hi, limit).value
    ensures e.transaction in AfterPage(s, st, log, lo, hi, limit).chainTxs
  {
    PageMembers(log, lo, hi, limit);
    PageIsComplete(log, lo, hi, limit, e);
    assert e.transaction in Hashes(Page(log, lo, hi, limit));
  }

  lemma {:induction false} AfterPageKeepsTxs(s: SyncState, st: Stream, log: seq<Event>, lo: Instant, hi: Instant,
                                             limit: nat)
    requires lo <= hi && 0 < limit
    ensures s.chainTxs.Keys <= AfterPage(s, st, log, lo, hi, limit).chainTxs.Keys
  {
  }

  lemma {:induction false} WindowSize(log: seq<Event>, lo: Instant, hi: Instant)
    ensures |Window(log, lo, hi)| <= |log|
  {
    if log != [] {
      WindowSize(log[1..], lo, hi);
    }
  }

  lemma {:induction false} ExamplePages(a: Event, b: Event, c: Event)
    requires a.timestamp == 5 && b.timestamp == 10 && c.timestamp == 10
    ensures Page([a, b, c], 5, 10, 2) == [a, b] && Page([a, b, c], 1, 5, 2) == [a]
  {
    assert [a, b, c][1..] == [b, c] && [b, c][1..] == [c] && [c][1..] == [];
    assert Window([c], 5, 10) == [c];
    assert Window([b, c], 5, 10) == [b, c];
    assert Window([a, b, c], 5, 10) == [a, b, c];
    assert Window([c], 1, 5) == [];
    assert Window([b, c], 1, 5) == Window([c], 1, 5);
    assert Window([a, b, c], 1, 5) == [a] + Window([b, c], 1, 5);
  }

  lemma {:induction false} ExampleStored(st: Stream, r: Range)
    requires r.lowerInc
    ensures Stored(WithRange(map[], st, r), st) == [r]
  {
    var empty: Rows := map[];
    forall other ensures Stored(empty, other) == [] {
      assert Starts(empty, other) == {};
    }
    WithRangeStores(empty, st, r);
    assert Insert([], r) == [r];
  }

  lemma {:induction false} ExampleDifference()
    ensures var wide: Range, n: Range := Interval(1, 10, true, true), Interval(5, 10, true, false);
            Difference([wide], [n]) == [Interval(1, 5, true, false)]
  {
    var wide: Range, n: Range := Interval(1, 10, true, true), Interval(5, 10, true, false);
    var left: Range := Interval(1, 5, true, false);
    assert [wide][1..] == [] && [n][1..] == [] && [left][1..] == [];
    assert SubFromEach([wide], n) == Sub(wide, n) + SubFromEach([], n);
    assert RemoveAll([wide], [n]) == RemoveAll([left], []) == [left];
    assert Remaining([wide], [n]) == [left] + Remaining([], [n]);
  }

  /** The exception is real.  With pages of two events, a run is cut after the first page of `[5,10]` and leaves
      `[5,10)` stored with one of the two events at 10 recorded.  The next round, over `[1,10]`, finds only
      `[1,5)` missing, ends with one short page, and the other event at 10 stays unrecorded. */
  lemma {:induction false} AnEventCanBeMissed(st: Stream, a: Event, b: Event, c: Event)
    requires a.timestamp == 5 && b.timestamp == 10 && c.timestamp == 10
    requires c.transaction != a.transaction && c.transaction != b.transaction
    ensures var wide: Range := Interval(1, 10, true, true);
            var cut := AfterPage(SyncState(map[], map[], {}), st, [a, b, c], 5, 10, 2);
            && Stored(cut.rows, st) == [Interval(5, 10, true, false)]
            && Difference([wide], Stored(cut.rows, st)) == [Interval(1, 5, true, false)]
            && NextStart([a, b, c], 1, 5, 2).None?
            && c.transaction !in AfterPage(cut, st, [a, b, c], 1, 5, 2).chainTxs
  {
    hide Window, WithRange, Stored, Difference, WithTxs;
    ExamplePages(a, b, c);
    var r: Range := Interval(5, 10, true, false);
    assert PageRange(5, 10, [a, b], 2) == r;
    ExampleStored(st, r);
    ExampleDifference();
    var cut := AfterPage(SyncState(map[], map[], {}), st, [a, b, c], 5, 10, 2);
    assert cut.chainTxs.Keys == Hashes([a, b]);
    assert AfterPage(cut, st, [a, b, c], 1, 5, 2).chainTxs.Keys == cut.chainTxs.Keys + Hashes([a]);
  }
}
