/** The `indexer_sync_status` table (`src/aleph/db/accessors/chains.py`): the synced ranges of each stream, one
    row a range, deleted and rewritten on every update and rebuilt range by range on every read. */
module SyncRows {
  import opened Wrappers
  import opened Ranges
  import opened MultiRanges

  datatype EventType = Message | Sync

  datatype Stream = Stream(chain: string, eventType: EventType)

  /** The primary key: chain, event type and start. */
  datatype RowKey = RowKey(stream: Stream, start: Instant)

  datatype RawRow = Row(startDatetime: Instant, endDatetime: Instant, startIncluded: bool, endIncluded: bool)

  /** A row is only ever written from a range, which has no end before its start. */
  type Row = r: RawRow | r.startDatetime <= r.endDatetime witness Row(0, 0, true, false)

  type Rows = map<RowKey, Row>

  function ToRange(row: Row): Range {
    Interval(row.startDatetime, row.endDatetime, row.startIncluded, row.endIncluded)
  }

  function FromRange(r: Range): Row {
    Row(r.lower, r.upper, r.lowerInc, r.upperInc)
  }

  // ----- reading in order of start

  ghost function Largest(s: set<Instant>): (m: Instant)
    requires s != {}
    ensures m in s && forall y :: y in s ==> y <= m
  {
    var x := PickOne(s);
    if s == {x} then
      x
    else
      assert s - {x} != {};
      assert forall y :: y in s ==> y == x || y in s - {x};
      Max(x, Largest(s - {x}))
  }

  ghost function Ascending(s: set<Instant>): seq<Instant> {
    if s == {} then [] else Ascending(s - {Largest(s)}) + [Largest(s)]
  }

  lemma {:induction false} AscendingMembers(s: set<Instant>)
    ensures forall x :: x in Ascending(s) <==> x in s
  {
    if s != {} {
      AscendingMembers(s - {Largest(s)});
    }
  }

  function Starts(rows: Rows, st: Stream): set<Instant> {
    set k | k in rows && k.stream == st :: k.start
  }

  /** The stored ranges of one stream, ordered by start. */
  ghost function Stored(rows: Rows, st: Stream): seq<Range> {
    var starts := Ascending(Starts(rows, st));
    AscendingMembers(Starts(rows, st));
    seq(|starts|, i requires 0 <= i < |starts| =>
      assert starts[i] in starts;
      ToRange(rows[RowKey(st, starts[i])]))
  }

  /** The multirange a read rebuilds. */
  ghost function Synced(rows: Rows, st: Stream): seq<Range> {
    Rebuilt(Stored(rows, st))
  }

  // ----- rewriting

  function Cleared(rows: Rows, st: Stream): Rows {
    map k | k in rows && k.stream != st :: rows[k]
  }

  function WithRows(rows: Rows, st: Stream, rs: seq<Range>): Rows
    decreases |rs|
  {
    if rs == [] then rows else WithRows(rows[RowKey(st, rs[0].lower) := FromRange(rs[0])], st, rs[1..])
  }

  function Rewritten(rows: Rows, st: Stream, rs: seq<Range>): Rows {
    WithRows(Cleared(rows, st), st, rs)
  }

  function Lowers(rs: seq<Range>): set<Instant> {
    set r | r in rs :: r.lower
  }

  lemma {:induction false} LowersCons(rs: seq<Range>)
    requires Canonical(rs) && rs != []
    ensures Canonical(rs[1..]) && Lowers(rs) == {rs[0].lower} + Lowers(rs[1..]) && rs[0].lower !in Lowers(rs[1..])
  {
    TailCanonical(rs);
    assert rs == [rs[0]] + rs[1..];
    assert rs[0] in rs;
  }

  lemma {:induction false} WithRowsLookup(rows: Rows, st: Stream, rs: seq<Range>)
    requires Canonical(rs)
    ensures forall k :: k in WithRows(rows, st, rs) <==> k in rows || (k.stream == st && k.start in Lowers(rs))
    ensures forall r :: r in rs ==> var k := RowKey(st, r.lower);
                                    k in WithRows(rows, st, rs) && WithRows(rows, st, rs)[k] == FromRange(r)
    ensures forall k :: k in rows && !(k.stream == st && k.start in Lowers(rs)) ==> WithRows(rows, st, rs)[k] == rows[k]
    decreases |rs|
  {
    if rs != [] {
      var rows' := rows[RowKey(st, rs[0].lower) := FromRange(rs[0])];
      LowersCons(rs);
      WithRowsLookup(rows', st, rs[1..]);
      hide Lowers, Canonical;
      forall r | r in rs
        ensures var k := RowKey(st, r.lower);
                k in WithRows(rows, st, rs) && WithRows(rows, st, rs)[k] == FromRange(r)
      {
        assert r == rs[0] || r in rs[1..];
      }
    }
  }

  predicate StrictlyAscending(xs: seq<Instant>) {
    forall i, j :: 0 <= i < j < |xs| ==> xs[i] < xs[j]
  }

  lemma {:induction false} AscendingOfList(xs: seq<Instant>, s: set<Instant>)
    requires StrictlyAscending(xs) && forall x :: x in s <==> x in xs
    ensures Ascending(s) == xs
    decreases |xs|
  {
    if xs == [] {
      assert s == {};
    } else {
      var n := |xs| - 1;
      assert xs[n] in xs;
      assert Largest(s) in xs;
      assert Largest(s) == xs[n];
      assert xs == xs[..n] + [xs[n]];
      AscendingOfList(xs[..n], s - {xs[n]});
    }
  }

  lemma {:induction false} StartsRewritten(rows: Rows, st: Stream, rs: seq<Range>)
    requires Canonical(rs)
    ensures Starts(Rewritten(rows, st, rs), st) == Lowers(rs)
  {
    var rows' := Rewritten(rows, st, rs);
    WithRowsLookup(Cleared(rows, st), st, rs);
    forall x ensures x in Starts(rows', st) <==> x in Lowers(rs) {
      assert RowKey(st, x) in rows' <==> x in Lowers(rs);
    }
  }

  lemma {:induction false} AscendingLowers(rs: seq<Range>)
    requires Canonical(rs)
    ensures Ascending(Lowers(rs)) == seq(|rs|, i requires 0 <= i < |rs| => rs[i].lower)
  {
    var lowers := seq(|rs|, i requires 0 <= i < |rs| => rs[i].lower);
    forall x ensures x in Lowers(rs) <==> x in lowers {
      if x in Lowers(rs) {
        var r :| r in rs && r.lower == x;
        var i :| 0 <= i < |rs| && rs[i] == r;
        assert lowers[i] == x;
      }
      if x in lowers {
        var i :| 0 <= i < |lowers| && lowers[i] == x;
        assert rs[i] in rs;
      }
    }
    AscendingOfList(lowers, Lowers(rs));
  }

  /** Writing a canonical list and reading it back is the identity, with one row a range. */
  lemma {:induction false} RewriteThenRead(rows: Rows, st: Stream, rs: seq<Range>)
    requires Canonical(rs)
    ensures Stored(Rewritten(rows, st, rs), st) == rs
    ensures Synced(Rewritten(rows, st, rs), st) == rs
    ensures |Starts(Rewritten(rows, st, rs), st)| == |rs|
  {
    var rows' := Rewritten(rows, st, rs);
    StartsRewritten(rows, st, rs);
    AscendingLowers(rs);
    WithRowsLookup(Cleared(rows, st), st, rs);
    forall i | 0 <= i < |rs| ensures Stored(rows', st)[i] == rs[i] {
      assert rs[i] in rs;
    }
    assert Stored(rows', st) == rs;
    assert [] + rs == rs;
    RebuildIsIdentity([], rs);
    AscendingSize(Starts(rows', st));
  }

  lemma {:induction false} AscendingSize(s: set<Instant>)
    ensures |Ascending(s)| == |s|
  {
    if s != {} {
      AscendingSize(s - {Largest(s)});
    }
  }

  /** A rewrite of one stream leaves every other stream as it was. */
  lemma {:induction false} RewriteFrame(rows: Rows, st: Stream, rs: seq<Range>, other: Stream)
    requires Canonical(rs) && other != st
    ensures Stored(Rewritten(rows, st, rs), other) == Stored(rows, other)
  {
    var rows' := Rewritten(rows, st, rs);
    WithRowsLookup(Cleared(rows, st), st, rs);
    forall x ensures x in Starts(rows', other) <==> x in Starts(rows, other) {
      assert RowKey(other, x) in rows' <==> RowKey(other, x) in rows;
      assert x in Starts(rows', other) <==> RowKey(other, x) in rows';
      assert x in Starts(rows, other) <==> RowKey(other, x) in rows;
    }
    assert Starts(rows', other) == Starts(rows, other);
    AscendingMembers(Starts(rows, other));
    var starts := Ascending(Starts(rows, other));
    forall i | 0 <= i < |starts| ensures Stored(rows', other)[i] == Stored(rows, other)[i] {
      assert starts[i] in starts;
      assert RowKey(other, starts[i]) in rows;
    }
  }

  // ----- adding one synced range

  ghost function WithRange(rows: Rows, st: Stream, r: Range): Rows {
    Rewritten(rows, st, Insert(Synced(rows, st), r))
  }

  /** Every stream's stored ranges are canonical. */
  ghost predicate RowsOk(rows: Rows) {
    forall st :: Canonical(Stored(rows, st))
  }

  lemma {:induction false} SyncedIsStored(rows: Rows, st: Stream)
    requires RowsOk(rows)
    ensures Synced(rows, st) == Stored(rows, st)
  {
    assert [] + Stored(rows, st) == Stored(rows, st);
    RebuildIsIdentity([], Stored(rows, st));
  }

  /** Adding a range to the table is an insertion into that stream's stored list, and nothing else. */
  lemma {:induction false} WithRangeStores(rows: Rows, st: Stream, r: Range)
    requires RowsOk(rows) && r.lowerInc
    ensures RowsOk(WithRange(rows, st, r))
    ensures Stored(WithRange(rows, st, r), st) == Insert(Stored(rows, st), r)
    ensures forall other :: other != st ==> Stored(WithRange(rows, st, r), other) == Stored(rows, other)
  {
    SyncedIsStored(rows, st);
    var rs := Insert(Stored(rows, st), r);
    InsertCanonical(Stored(rows, st), r);
    RewriteThenRead(rows, st, rs);
    forall other | other != st ensures Stored(WithRange(rows, st, r), other) == Stored(rows, other) {
      RewriteFrame(rows, st, rs, other);
    }
  }
}
