/** The indexer reader as an object over its tables (`src/aleph/chains/indexer_reader.py` and the accessors of
    `src/aleph/db/accessors/chains.py`).  The source's paging loop has no bound of its own; `FetchRange` takes
    the number of pages after which the process is stopped, so that a run may be cut anywhere. */
module IndexerReader {
  import opened Wrappers
  import opened Ranges
  import opened MultiRanges
  import opened SyncRows
  import opened IndexerPages

  const PAGE_LIMIT: nat := 1000

  /** The indexer's account state: the processed intervals as it reports them. */
  type Processed = seq<(Instant, Instant)>

  /** The intervals as ranges closed at both ends; the range constructor refuses a reversed one. */
  function ToRanges(processed: Processed): (r: Result<seq<Range>, RangeError>)
    ensures r.Ok? <==> forall i :: 0 <= i < |processed| ==> processed[i].0 <= processed[i].1
    ensures r.Ok? ==> |r.value| == |processed|
    ensures r.Ok? ==> forall i :: 0 <= i < |processed| ==>
                        r.value[i] == Interval(processed[i].0, processed[i].1, true, true)
    ensures r.Ok? ==> forall m :: m in r.value ==> m.lowerInc && m.upperInc
  {
    if processed == [] then
      Ok([])
    else
      match (MakeRange(processed[0].0, processed[0].1, true, true), ToRanges(processed[1..]))
      case (Ok(r), Ok(rs)) => Ok([r] + rs)
      case (Err(e), _) => Err(e)
      case (_, Err(e)) => Err(e)
  }

  predicate DistinctLowers(rs: seq<Range>) {
    forall i, j :: 0 <= i < j < |rs| ==> rs[i].lower != rs[j].lower
  }

  lemma {:induction false} CanonicalDistinct(rs: seq<Range>)
    requires Canonical(rs)
    ensures DistinctLowers(rs)
  {
  }

  lemma {:induction false} LowersSnoc(rs: seq<Range>, i: nat)
    requires i < |rs|
    ensures Lowers(rs[..i + 1]) == Lowers(rs[..i]) + {rs[i].lower}
    ensures DistinctLowers(rs[..i]) ==> (DistinctLowers(rs[..i + 1]) <==> rs[i].lower !in Lowers(rs[..i]))
  {
    assert rs[..i + 1] == rs[..i] + [rs[i]];
    if rs[i].lower in Lowers(rs[..i]) {
      var r :| r in rs[..i] && r.lower == rs[i].lower;
      var k :| 0 <= k < i && rs[..i][k] == r;
      assert rs[..i + 1][k].lower == rs[..i + 1][i].lower;
    }
    forall k | 0 <= k < i ensures rs[k].lower in Lowers(rs[..i]) {
      assert rs[k] in rs[..i];
    }
  }

  lemma {:induction false} HashesSnoc(page: seq<Event>, i: nat)
    requires i < |page|
    ensures Hashes(page[..i + 1]) == Hashes(page[..i]) + {page[i].transaction}
  {
    assert page[..i + 1] == page[..i] + [page[i]];
  }

  lemma {:induction false} WithTxsStep(txs: map<string, Event>, page: seq<Event>, i: nat)
    requires i < |page|
    ensures WithTxs(txs, page[i..]) ==
            WithTxs(if page[i].transaction in txs then txs else txs[page[i].transaction := page[i]], page[i + 1..])
  {
    assert page[i..][1..] == page[i + 1..];
  }

  class Reader {
    var rows: Rows
    var chainTxs: map<string, Event>
    var pendingTxs: set<string>

    /** What each chain holds, in time order. */
    const history: Stream -> seq<Event>

    constructor (history: Stream -> seq<Event>)
      requires forall st :: InOrder(history(st))
      ensures this.history == history && Valid()
      ensures State() == SyncState(map[], map[], {})
    {
      this.history := history;
      rows, chainTxs, pendingTxs := map[], map[], {};
      new;
      forall st ensures Stored(rows, st) == [] {
        assert Starts(rows, st) == {};
      }
    }

    ghost function State(): SyncState
      reads this
    {
      SyncState(rows, chainTxs, pendingTxs)
    }

    ghost predicate Valid()
      reads this
    {
      (forall st :: InOrder(history(st))) && AllSafe(State(), history)
    }

    /** The starts of a stream's rows in ascending order (`order_by(start_block_datetime)`). */
    method OrderedStarts(st: Stream) returns (starts: seq<Instant>)
      ensures starts == Ascending(Starts(rows, st))
    {
      var left := Starts(rows, st);
      starts := [];
      while left != {}
        invariant left <= Starts(rows, st)
        invariant Ascending(left) + starts == Ascending(Starts(rows, st))
        decreases left
      {
        assert Largest(left) in left;
        var m :| m in left && forall y :: y in left ==> y <= m;
        assert m == Largest(left);
        starts := [m] + starts;
        left := left - {m};
      }
    }

    method GetIndexerMultirange(st: Stream) returns (mr: MultiRange)
      ensures fresh(mr) && mr.ranges == Synced(rows, st)
    {
      mr := new MultiRange([]);
      var starts := OrderedStarts(st);
      ghost var stored := Stored(rows, st);
      AscendingMembers(Starts(rows, st));
      for i := 0 to |starts|
        invariant fresh(mr) && stored == Stored(rows, st)
        invariant InsertAll(mr.ranges, stored[i..]) == Synced(rows, st)
      {
        assert starts[i] in starts;
        assert stored[i..][0] == stored[i] && stored[i..][1..] == stored[i + 1..];
        mr.AddRange(ToRange(rows[RowKey(st, starts[i])]));
      }
    }

    /** Rewrites a stream's rows; a second row with the same start would violate the primary key. */
    method UpdateIndexerMultirange(st: Stream, rs: seq<Range>) returns (ok: bool)
      modifies this`rows
      ensures ok <==> DistinctLowers(rs)
      ensures ok ==> rows == Rewritten(old(rows), st, rs)
    {
      rows := Cleared(rows, st);
      for i := 0 to |rs|
        invariant WithRows(rows, st, rs[i..]) == Rewritten(old(rows), st, rs)
        invariant DistinctLowers(rs[..i])
        invariant forall x :: RowKey(st, x) in rows <==> x in Lowers(rs[..i])
      {
        assert rs[i..][1..] == rs[i + 1..];
        LowersSnoc(rs, i);
        if RowKey(st, rs[i].lower) in rows {
          return false;
        }
        rows := rows[RowKey(st, rs[i].lower) := FromRange(rs[i])];
      }
      assert rs[..|rs|] == rs;
      ok := true;
    }

    method AddIndexerRange(st: Stream, range: Range) returns (ok: bool)
      modifies this`rows
      ensures RowsOk(old(rows)) && range.lowerInc ==> ok
      ensures ok ==> rows == WithRange(old(rows), st, range)
    {
      var mr := GetIndexerMultirange(st);
      ghost var before := mr.ranges;
      mr.AddRange(range);
      if RowsOk(rows) && range.lowerInc {
        SyncedIsStored(rows, st);
        CanonicalDistinct(mr.ranges);
      }
      ok := UpdateIndexerMultirange(st, mr.ranges);
    }

    method AddPendingTxs(page: seq<Event>)
      modifies this`chainTxs, this`pendingTxs
      ensures chainTxs == WithTxs(old(chainTxs), page) && pendingTxs == old(pendingTxs) + Hashes(page)
    {
      for i := 0 to |page|
        invariant WithTxs(chainTxs, page[i..]) == WithTxs(old(chainTxs), page)
        invariant pendingTxs == old(pendingTxs) + Hashes(page[..i])
      {
        HashesSnoc(page, i);
        WithTxsStep(chainTxs, page, i);
        if page[i].transaction !in chainTxs {
          chainTxs := chainTxs[page[i].transaction := page[i]];
        }
        pendingTxs := pendingTxs + {page[i].transaction};
      }
      assert page[..|page|] == page;
    }

    /** One turn of the paging loop: one committed transaction. */
    method FetchPage(c: PageCall) returns (next: Option<Instant>)
      requires Valid() && Legal(c)
      modifies this
      ensures Valid()
      ensures State() ==
              AfterPage(old(State()), c.stream, Visible(history(c.stream), c.processed), c.lo, c.hi, PAGE_LIMIT)
      ensures next == NextStart(history(c.stream), c.lo, c.hi, PAGE_LIMIT)
    {
      hide SafeFor, Window, Visible;
      ghost var before := State();
      var page := Page(Visible(history(c.stream), c.processed), c.lo, c.hi, PAGE_LIMIT);
      PageMembers(Visible(history(c.stream), c.processed), c.lo, c.hi, PAGE_LIMIT);
      AddPendingTxs(page);
      var synced := PageRange(c.lo, c.hi, page, PAGE_LIMIT);
      var ok := AddIndexerRange(c.stream, synced);
      assert ok;
      next := if |page| < PAGE_LIMIT then None else Some(synced.upper);

      PageStaysSafe(before, c, history);
      ghost var p :| p in c.processed && p.lowerInc && p.upperInc && p.lower <= c.lo && c.hi <= p.upper;
      VisibleWindow(history(c.stream), c.processed, p, c.lo, c.hi);
    }

    /** Fetches one missing range, for at most `maxPages` pages.  It finishes exactly when the source's loop
        would end within that many pages, and then its whole closed interval is synced and recorded.  It records
        nothing from outside that interval. */
    method FetchRange(st: Stream, processed: seq<Range>, range: Range, maxPages: nat)
        returns (finished: bool, ghost trace: seq<PageCall>)
      requires Valid() && Inside(range, processed)
      modifies this
      ensures Valid() && Traces(old(State()), trace, State(), history)
      ensures finished <==> EndsWithin(history(st), range.lower, range.upper, PAGE_LIMIT, maxPages)
      ensures finished ==> SyncedThrough(State(), st, history(st), range.lower, range.upper)
      ensures Grows(old(State()), State(), st) && AddsOnly(old(State()), State(), history(st), [range])
      ensures finished ==> Adds(old(State()), State(), history(st), [range])
    {
      hide AfterPage, SyncedThrough, Grows, Traces, NextStart, SafeFor, InOrder, RowsOk, AddsOnly, Adds;
      var start := range.lower;
      var pages := 0;
      trace := [];
      ghost var s0 := State();
      NothingYet(s0, st, history, range.lower);
      NothingAdded(s0, st, history(st), [range]);
      while pages < maxPages
        invariant pages <= maxPages && range.lower <= start <= range.upper
        invariant Valid() && Traces(s0, trace, State(), history)
        invariant EndsWithin(history(st), range.lower, range.upper, PAGE_LIMIT, maxPages) <==>
                  EndsWithin(history(st), start, range.upper, PAGE_LIMIT, maxPages - pages)
        invariant SyncedThrough(State(), st, history(st), range.lower, start - 1)
        invariant Grows(s0, State(), st) && AddsOnly(s0, State(), history(st), [range])
        decreases maxPages - pages
      {
        ghost var before := State();
        var c := PageCall(st, processed, start, range.upper);
        var next := FetchPage(c);
        LegalPage(before, c, history, PAGE_LIMIT);
        TracesSnoc(s0, trace, before, c, history);
        PageEffect(s0, before, c, history, range.lower);
        PageAddsOnly(s0, before, c, history, range);
        trace := trace + [c];
        pages := pages + 1;
        if next.None? {
          AddsAll(s0, State(), st, history(st), range);
          return true, trace;
        }
        start := next.value;
      }
      finished := false;
    }

    /** One synchronisation round.  A missing account state or a reversed interval leaves everything as it was.
        A finished round leaves every instant of the processed ranges in a stored range or at the upper bound
        of one.  What it records beyond the transactions already known is exactly the events in the closed hull of a
        missing range. */
    method FetchNewEvents(st: Stream, account: Option<Processed>, maxPages: nat)
        returns (r: Result<bool, RangeError>, ghost trace: seq<PageCall>)
      requires Valid()
      modifies this
      ensures Valid() && Traces(old(State()), trace, State(), history)
      ensures r.Err? <==> account.Some? && ToRanges(account.value).Err?
      ensures account.None? || r.Err? ==> trace == []
      ensures account.Some? && r == Ok(true) ==>
                RoundComplete(old(State()), State(), st, history(st), ToRanges(account.value).value)
      ensures account.None? ==> r == Ok(true)
      ensures r.Ok? && maxPages > |history(st)| && SparseLog(history(st)) ==> r == Ok(true)
    {
      trace := [];
      ghost var s0 := State();
      if account.None? {
        return Ok(true), trace;
      }
      var ranges := ToRanges(account.value);
      if ranges.Err? {
        return Err(ranges.error), trace;
      }
      var ms := ranges.value;
      var pieces := GetMissingMultirange(st, ms);
      var finished;
      finished, trace := FetchPieces(st, ms, pieces, maxPages);
      if finished {
        RoundCompletes(s0, State(), st, history(st), ms, pieces);
      }
      r := Ok(finished);
    }

    /** What is left to fetch of the given closed ranges (`get_missing_indexer_datetime_multirange`). */
    method GetMissingMultirange(st: Stream, ms: seq<Range>) returns (pieces: seq<Range>)
      requires Valid() && forall m :: m in ms ==> m.lowerInc && m.upperInc
      ensures pieces == Difference(SortByLower(ms), Stored(rows, st))
      ensures forall p :: p in pieces ==> Inside(p, ms)
    {
      var indexer := new MultiRange(ms);
      var db := GetIndexerMultirange(st);
      var missing := indexer.Subtract(db);
      pieces := missing.ranges;
      SyncedIsStored(rows, st);
      MissingInside(ms, indexer.ranges, db.ranges);
    }

    /** Fetches the missing ranges one after the other. */
    method FetchPieces(st: Stream, ms: seq<Range>, pieces: seq<Range>, maxPages: nat)
        returns (finished: bool, ghost trace: seq<PageCall>)
      requires Valid() && forall p :: p in pieces ==> Inside(p, ms)
      modifies this
      ensures Valid() && Traces(old(State()), trace, State(), history)
      ensures Grows(old(State()), State(), st)
      ensures AddsOnly(old(State()), State(), history(st), pieces)
      ensures finished ==>
                PiecesDone(State(), st, history(st), pieces) && Adds(old(State()), State(), history(st), pieces)
      ensures maxPages > |history(st)| && SparseLog(history(st)) ==> finished
    {
      hide AddsOnly, Adds, Traces, Grows, PiecesDone, Inside, SafeFor, InOrder, RowsOk, SparseLog, EndsWithin;
      trace := [];
      ghost var s0 := State();
      NothingYet(s0, st, history, 0);
      NothingAdded(s0, st, history(st), pieces);
      for i := 0 to |pieces|
        invariant Valid() && Traces(s0, trace, State(), history) && Grows(s0, State(), st)
        invariant PiecesDone(State(), st, history(st), pieces[..i]) && Adds(s0, State(), history(st), pieces[..i])
      {
        ghost var before, more := State(), [];
        assert pieces[i] in pieces;
        finished, more := FetchRange(st, ms, pieces[i], maxPages);
        TracesAppend(s0, trace, before, more, State(), history);
        GrowsTwice(s0, before, State(), st);
        trace := trace + more;
        SparseFinishes(history(st), pieces[i].lower, pieces[i].upper, maxPages);
        if !finished {
          MorePieces(s0, before, State(), history(st), pieces, i);
          return false, trace;
        }
        OnePiece(s0, before, State(), history(st), pieces, i);
        PiecesDoneSnoc(before, State(), st, history(st), pieces, i);
      }
      assert pieces[..|pieces|] == pieces;
      AddsIsOnly(s0, State(), history(st), pieces);
      finished := true;
    }
  }

  /** Fewer than a page of events share any one timestamp. */
  ghost predicate SparseLog(log: seq<Event>) {
    forall t :: |Window(log, t, t)| < PAGE_LIMIT
  }

  lemma {:induction false} SparseFinishes(log: seq<Event>, lo: Instant, hi: Instant, maxPages: nat)
    requires InOrder(log) && lo <= hi
    ensures SparseLog(log) && maxPages > |log| ==> EndsWithin(log, lo, hi, PAGE_LIMIT, maxPages)
  {
    if SparseLog(log) && maxPages > |log| {
      WindowSize(log, lo, hi);
      SparseEnds(log, lo, hi, PAGE_LIMIT, maxPages);
    }
  }

  ghost predicate PiecesDone(s: SyncState, st: Stream, log: seq<Event>, pieces: seq<Range>) {
    forall p :: p in pieces ==> SyncedThrough(s, st, log, p.lower, p.upper)
  }

  /** The transactions of the events in the closed hulls of some ranges. */
  ghost function TxsIn(log: seq<Event>, rs: seq<Range>): set<string> {
    set e | e in log && HullCovers(rs, e.timestamp) :: e.transaction
  }

  /** Nothing is recorded from outside the closed hulls. */
  ghost predicate AddsOnly(s0: SyncState, s: SyncState, log: seq<Event>, rs: seq<Range>) {
    s.chainTxs.Keys <= s0.chainTxs.Keys + TxsIn(log, rs)
  }

  /** Exactly the events in the closed hulls are recorded besides what was. */
  ghost predicate Adds(s0: SyncState, s: SyncState, log: seq<Event>, rs: seq<Range>) {
    s.chainTxs.Keys == s0.chainTxs.Keys + TxsIn(log, rs)
  }

  lemma {:induction false} AddsIsOnly(s0: SyncState, s: SyncState, log: seq<Event>, rs: seq<Range>)
    requires Adds(s0, s, log, rs)
    ensures AddsOnly(s0, s, log, rs)
  {
  }

  lemma {:induction false} NothingAdded(s: SyncState, st: Stream, log: seq<Event>, rs: seq<Range>)
    ensures AddsOnly(s, s, log, rs) && Adds(s, s, log, rs[..0]) && PiecesDone(s, st, log, rs[..0])
  {
  }

  lemma {:induction false} GrowsTwice(s0: SyncState, s1: SyncState, s2: SyncState, st: Stream)
    requires Grows(s0, s1, st) && Grows(s1, s2, st)
    ensures Grows(s0, s2, st)
  {
  }

  lemma {:induction false} TxsInOne(log: seq<Event>, r: Range, e: Event)
    ensures e in log && InHull(r, e.timestamp) ==> e.transaction in TxsIn(log, [r])
    ensures HullCovers([r], e.timestamp) <==> InHull(r, e.timestamp)
  {
    assert r in [r];
  }

  lemma {:induction false} TxsInAppend(log: seq<Event>, a: seq<Range>, b: seq<Range>)
    ensures TxsIn(log, a + b) == TxsIn(log, a) + TxsIn(log, b)
  {
    forall tx ensures tx in TxsIn(log, a + b) <==> tx in TxsIn(log, a) + TxsIn(log, b) {
      forall e | e in log ensures HullCovers(a + b, e.timestamp) <==>
        HullCovers(a, e.timestamp) || HullCovers(b, e.timestamp) {
        CoversAppend(a, b, e.timestamp);
      }
      if e :| e in log && HullCovers(a, e.timestamp) && e.transaction == tx {
        assert HullCovers(a + b, e.timestamp);
      }
      if e :| e in log && HullCovers(b, e.timestamp) && e.transaction == tx {
        assert HullCovers(a + b, e.timestamp);
      }
    }
  }

  lemma {:induction false} OnePiece(s0: SyncState, s1: SyncState, s2: SyncState, log: seq<Event>, pieces: seq<Range>,
                                    i: nat)
    requires i < |pieces| && Adds(s0, s1, log, pieces[..i]) && Adds(s1, s2, log, [pieces[i]])
    ensures Adds(s0, s2, log, pieces[..i + 1])
  {
    TxsInAppend(log, pieces[..i], [pieces[i]]);
    assert pieces[..i + 1] == pieces[..i] + [pieces[i]];
  }

  lemma {:induction false} MorePieces(s0: SyncState, s1: SyncState, s2: SyncState, log: seq<Event>, pieces: seq<Range>,
                                      i: nat)
    requires i < |pieces| && Adds(s0, s1, log, pieces[..i]) && AddsOnly(s1, s2, log, [pieces[i]])
    ensures AddsOnly(s0, s2, log, pieces)
  {
    hide TxsIn;
    TxsInAppend(log, pieces[..i], [pieces[i]]);
    TxsInAppend(log, pieces[..i] + [pieces[i]], pieces[i + 1..]);
    assert pieces == pieces[..i] + [pieces[i]] + pieces[i + 1..];
  }

  lemma {:induction false} PageAddsOnly(s0: SyncState, s: SyncState, c: PageCall, history: Stream -> seq<Event>,
                                        range: Range)
    requires Legal(c) && range.lower <= c.lo && c.hi <= range.upper && AddsOnly(s0, s, history(c.stream), [range])
    ensures AddsOnly(s0, AfterPage(s, c.stream, history(c.stream), c.lo, c.hi, PAGE_LIMIT), history(c.stream), [range])
  {
    var log := history(c.stream);
    PageMembers(log, c.lo, c.hi, PAGE_LIMIT);
    forall tx | tx in Hashes(Page(log, c.lo, c.hi, PAGE_LIMIT)) ensures tx in TxsIn(log, [range]) {
      var e :| e in Page(log, c.lo, c.hi, PAGE_LIMIT) && e.transaction == tx;
      TxsInOne(log, range, e);
    }
  }

  lemma {:induction false} AddsAll(s0: SyncState, s: SyncState, st: Stream, log: seq<Event>, range: Range)
    requires AddsOnly(s0, s, log, [range]) && Grows(s0, s, st) && SyncedThrough(s, st, log, range.lower, range.upper)
    ensures Adds(s0, s, log, [range])
  {
    forall tx | tx in TxsIn(log, [range]) ensures tx in s.chainTxs {
      var e :| e in log && HullCovers([range], e.timestamp) && e.transaction == tx;
      TxsInOne(log, range, e);
    }
  }

  /** What a round has to fetch: the processed ranges without the stored ones. */
  ghost function MissingPieces(s: SyncState, st: Stream, processed: seq<Range>): seq<Range> {
    Difference(SortByLower(processed), Stored(s.rows, st))
  }

  /** Every instant of the processed ranges is covered up to closed hulls.  Exactly the events in the closed hull of a
      missing range are recorded besides those that were, and every event of the processed ranges is, but perhaps at
      an open upper bound of a range that was stored before. */
  ghost predicate RoundComplete(s0: SyncState, s: SyncState, st: Stream, log: seq<Event>, processed: seq<Range>) {
    && (forall x :: Covers(processed, x) ==> HullCovers(Stored(s.rows, st), x))
    && (forall e :: e in log && Covers(processed, e.timestamp) ==>
                    e.transaction in s.chainTxs || OpenUpperBound(Stored(s0.rows, st), e.timestamp))
    && Adds(s0, s, log, MissingPieces(s0, st, processed))
  }

  ghost predicate OpenUpperBound(rs: seq<Range>, x: Instant) {
    exists n :: n in rs && n.upper == x && !n.upperInc
  }

  lemma {:induction false} MissingInside(ms: seq<Range>, sorted: seq<Range>, ns: seq<Range>)
    requires forall m :: m in ms ==> m.lowerInc && m.upperInc
    requires multiset(ms) == multiset(sorted)
    ensures forall p :: p in Difference(sorted, ns) ==> Inside(p, ms)
  {
    SameMembers(ms, sorted);
    PiecesInside(sorted, ns);
  }

  lemma {:induction false} PiecesDoneSnoc(before: SyncState, s: SyncState, st: Stream, log: seq<Event>,
                                          pieces: seq<Range>, i: nat)
    requires i < |pieces| && Grows(before, s, st) && PiecesDone(before, st, log, pieces[..i])
    requires SyncedThrough(s, st, log, pieces[i].lower, pieces[i].upper)
    ensures PiecesDone(s, st, log, pieces[..i + 1])
  {
    assert pieces[..i + 1] == pieces[..i] + [pieces[i]];
    forall p | p in pieces[..i + 1] ensures SyncedThrough(s, st, log, p.lower, p.upper) {
      if p in pieces[..i] {
        assert SyncedThrough(before, st, log, p.lower, p.upper);
      }
    }
  }

  lemma {:induction false} RoundCompletes(s0: SyncState, s: SyncState, st: Stream, log: seq<Event>, ms: seq<Range>,
                                          pieces: seq<Range>)
    requires RowsOk(s0.rows) && SafeFor(s0, st, log) && Grows(s0, s, st)
    requires pieces == Difference(SortByLower(ms), Stored(s0.rows, st))
    requires PiecesDone(s, st, log, pieces) && Adds(s0, s, log, pieces)
    ensures RoundComplete(s0, s, st, log, ms)
  {
    hide Adds, Difference, Stored, HullCovers;
    var stored := Stored(s0.rows, st);
    forall x | Covers(ms, x) && !HullCovers(stored, x) ensures HullCovers(pieces, x) {
      OutsideIsMissing(ms, stored, x);
    }
    forall p, x | p in pieces && InHull(p, x) ensures HullCovers(Stored(s.rows, st), x) {
      assert SyncedThrough(s, st, log, p.lower, p.upper);
    }
    forall x | Covers(ms, x) ensures HullCovers(Stored(s.rows, st), x) {
      if !HullCovers(stored, x) {
        var p := HullMember(pieces, x);
      }
    }
    forall e | e in log && Covers(ms, e.timestamp)
      ensures e.transaction in s.chainTxs || OpenUpperBound(stored, e.timestamp)
    {
      if HullCovers(stored, e.timestamp) {
        StoredOrBound(s0, st, log, e);
      } else {
        var p := HullMember(pieces, e.timestamp);
        assert SyncedThrough(s, st, log, p.lower, p.upper);
      }
    }
  }

  lemma {:induction false} HullMember(rs: seq<Range>, x: Instant) returns (p: Range)
    requires HullCovers(rs, x)
    ensures p in rs && InHull(p, x)
  {
    p :| p in rs && InHull(p, x);
  }

  lemma {:induction false} OutsideIsMissing(ms: seq<Range>, stored: seq<Range>, x: Instant)
    requires Covers(ms, x) && !HullCovers(stored, x)
    ensures HullCovers(Difference(SortByLower(ms), stored), x)
  {
    hide Difference;
    SameMembers(ms, SortByLower(ms));
    DifferenceKeepsOutside(SortByLower(ms), stored, x);
    var p :| p in Difference(SortByLower(ms), stored) && Contains(p, x);
    assert InHull(p, x);
  }

  lemma {:induction false} StoredOrBound(s: SyncState, st: Stream, log: seq<Event>, e: Event)
    requires RowsOk(s.rows) && SafeFor(s, st, log) && e in log && HullCovers(Stored(s.rows, st), e.timestamp)
    ensures e.transaction in s.chainTxs || OpenUpperBound(Stored(s.rows, st), e.timestamp)
  {
    hide Stored;
    var n :| n in Stored(s.rows, st) && InHull(n, e.timestamp);
    assert Contains(n, e.timestamp) || (n.upper == e.timestamp && !n.upperInc);
  }

  /** After a finished round an event of the stream is missing if and only if its transaction was and no event with
      that transaction lies in the closed hull of a missing range. */
  lemma {:induction false} MissedIff(s0: SyncState, s: SyncState, st: Stream, log: seq<Event>, processed: seq<Range>,
                                     e: Event)
    requires RoundComplete(s0, s, st, log, processed) && e in log
    ensures e.transaction !in s.chainTxs <==>
            && e.transaction !in s0.chainTxs
            && forall o :: o in log && o.transaction == e.transaction ==>
                           !HullCovers(MissingPieces(s0, st, processed), o.timestamp)
  {
    var pieces := MissingPieces(s0, st, processed);
    hide MissingPieces, HullCovers;
    if o :| o in log && o.transaction == e.transaction && HullCovers(pieces, o.timestamp) {
      assert e.transaction in TxsIn(log, pieces);
    }
    if e.transaction in TxsIn(log, pieces) {
      var o :| o in log && HullCovers(pieces, o.timestamp) && o.transaction == e.transaction;
    }
  }

  /** An open upper bound of a stored range is fetched again if and only if some processed range holds it, and reaches
      past it or starts inside the stored range.  The ordinary resume after an interruption is such a case. */
  lemma {:induction false} RefetchedIff(s: SyncState, st: Stream, processed: seq<Range>, n: Range)
    requires RowsOk(s.rows) && AllNonEmpty(Stored(s.rows, st)) && n in Stored(s.rows, st) && !n.upperInc
    requires forall m :: m in processed ==> m.lowerInc && m.upperInc
    ensures HullCovers(MissingPieces(s, st, processed), n.upper) <==>
            exists m :: m in processed && Contains(m, n.upper) && (n.upper < m.upper || n.lower <= m.lower)
  {
    hide Difference, Stored;
    SameMembers(processed, SortByLower(processed));
    BoundLeftIff(SortByLower(processed), Stored(s.rows, st), n);
  }

  lemma {:induction false} RunAppend(s: SyncState, t0: seq<PageCall>, t1: seq<PageCall>, history: Stream -> seq<Event>)
    requires (forall c :: c in t0 ==> Legal(c)) && (forall c :: c in t1 ==> Legal(c))
    ensures forall c :: c in t0 + t1 ==> Legal(c)
    ensures Run(s, t0 + t1, history, PAGE_LIMIT) == Run(Run(s, t0, history, PAGE_LIMIT), t1, history, PAGE_LIMIT)
    decreases |t1|
  {
    hide AfterPage, Visible;
    if t1 == [] {
      assert t0 + t1 == t0;
    } else {
      var n := |t1| - 1;
      RunAppend(s, t0, t1[..n], history);
      assert (t0 + t1)[..|t0 + t1| - 1] == t0 + t1[..n];
      assert (t0 + t1)[|t0 + t1| - 1] == t1[n];
    }
  }

  lemma {:induction false} TracesAppend(s0: SyncState, t0: seq<PageCall>, s1: SyncState, t1: seq<PageCall>,
                                        s2: SyncState, history: Stream -> seq<Event>)
    requires Traces(s0, t0, s1, history) && Traces(s1, t1, s2, history)
    ensures Traces(s0, t0 + t1, s2, history)
  {
    RunAppend(s0, t0, t1, history);
  }

  ghost predicate Inside(range: Range, processed: seq<Range>) {
    exists p :: p in processed && p.lowerInc && p.upperInc && p.lower <= range.lower && range.upper <= p.upper
  }

  /** The second state is reached from the first by the given legal pages. */
  ghost predicate Traces(s0: SyncState, trace: seq<PageCall>, s: SyncState, history: Stream -> seq<Event>) {
    (forall c :: c in trace ==> Legal(c)) && s == Run(s0, trace, history, PAGE_LIMIT)
  }

  /** Every instant from `lo` to `hi` is in the closed hull of the stored ranges, and every event there is recorded. */
  ghost predicate SyncedThrough(s: SyncState, st: Stream, log: seq<Event>, lo: Instant, hi: Instant) {
    && (forall x :: lo <= x <= hi ==> HullCovers(Stored(s.rows, st), x))
    && (forall e :: e in log && lo <= e.timestamp <= hi ==> e.transaction in s.chainTxs)
  }

  ghost predicate Grows(s0: SyncState, s: SyncState, st: Stream) {
    && (forall x :: HullCovers(Stored(s0.rows, st), x) ==> HullCovers(Stored(s.rows, st), x))
    && s0.chainTxs.Keys <= s.chainTxs.Keys
  }

  lemma {:induction false} TracesSnoc(s0: SyncState, trace: seq<PageCall>, s: SyncState, c: PageCall,
                                      history: Stream -> seq<Event>)
    requires Traces(s0, trace, s, history) && Legal(c)
    ensures Traces(s0, trace + [c],
                   AfterPage(s, c.stream, Visible(history(c.stream), c.processed), c.lo, c.hi, PAGE_LIMIT), history)
  {
    assert (trace + [c])[..|trace|] == trace;
  }

  lemma {:induction false} PageStaysSafe(s: SyncState, c: PageCall, history: Stream -> seq<Event>)
    requires AllSafe(s, history) && Legal(c) && forall st :: InOrder(history(st))
    ensures AllSafe(AfterPage(s, c.stream, Visible(history(c.stream), c.processed), c.lo, c.hi, PAGE_LIMIT), history)
  {
    hide AfterPage, AllSafe, InOrder, Visible;
    RunIsSafe(s, [c], history, PAGE_LIMIT);
    assert [c][..0] == [];
    assert Run(s, [], history, PAGE_LIMIT) == s;
  }

  lemma {:induction false} NothingYet(s: SyncState, st: Stream, history: Stream -> seq<Event>, lo: Instant)
    ensures Traces(s, [], s, history) && SyncedThrough(s, st, history(st), lo, lo - 1) && Grows(s, s, st)
  {
  }

  /** What one page adds to what the paging loop has done so far. */
  lemma {:induction false} PageEffect(s0: SyncState, s: SyncState, c: PageCall, history: Stream -> seq<Event>,
                                      lo: Instant)
    requires RowsOk(s.rows) && Legal(c) && InOrder(history(c.stream)) && lo <= c.lo
    requires SyncedThrough(s, c.stream, history(c.stream), lo, c.lo - 1) && Grows(s0, s, c.stream)
    ensures var log := history(c.stream);
            var s', next := AfterPage(s, c.stream, log, c.lo, c.hi, PAGE_LIMIT), NextStart(log, c.lo, c.hi, PAGE_LIMIT);
            && (next.Some? ==> c.lo <= next.value <= c.hi)
            && SyncedThrough(s', c.stream, log, lo, if next.Some? then next.value - 1 else c.hi)
            && Grows(s0, s', c.stream)
  {
    var log := history(c.stream);
    var s', next := AfterPage(s, c.stream, log, c.lo, c.hi, PAGE_LIMIT), NextStart(log, c.lo, c.hi, PAGE_LIMIT);
    PageMembers(log, c.lo, c.hi, PAGE_LIMIT);
    PageRangeShape(log, c.lo, c.hi, PAGE_LIMIT);
    AfterPageKeepsTxs(s, c.stream, log, c.lo, c.hi, PAGE_LIMIT);
    forall x
      ensures HullCovers(Stored(s'.rows, c.stream), x) <==>
              HullCovers(Stored(s.rows, c.stream), x) || c.lo <= x <= next.GetOr(c.hi)
    {
      AfterPageHull(s, c.stream, log, c.lo, c.hi, PAGE_LIMIT, x);
    }
    forall e | e in log && c.lo <= e.timestamp <= (if next.Some? then next.value - 1 else c.hi)
      ensures e.transaction in s'.chainTxs
    {
      AfterPageRecords(s, c.stream, log, c.lo, c.hi, PAGE_LIMIT, e);
    }
  }
}
