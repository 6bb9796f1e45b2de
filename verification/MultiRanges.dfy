/** Ordered collections of ranges (`MultiRange` of `src/aleph/toolkit/range.py`): inserting a range with
    merging, and subtracting one collection from another. */
module MultiRanges {
  import opened Ranges

  // ----- denotation and canonical form

  predicate Covers(rs: seq<Range>, x: Instant) {
    exists r :: r in rs && Contains(r, x)
  }

  predicate HullCovers(rs: seq<Range>, x: Instant) {
    exists r :: r in rs && InHull(r, x)
  }

  predicate Separated(rs: seq<Range>) {
    forall i, j :: 0 <= i < j < |rs| ==> rs[i].upper < rs[j].lower
  }

  predicate LowerClosed(rs: seq<Range>) {
    forall r :: r in rs ==> r.lowerInc
  }

  /** In order, closed below, and with a gap between neighbours. */
  predicate Canonical(rs: seq<Range>) {
    Separated(rs) && LowerClosed(rs)
  }

  predicate HalfOpen(r: Range) {
    r.lowerInc && !r.upperInc && r.lower < r.upper
  }

  predicate AllHalfOpen(rs: seq<Range>) {
    forall r :: r in rs ==> HalfOpen(r)
  }

  predicate StartsAfter(rs: seq<Range>, b: Instant) {
    forall r :: r in rs ==> b < r.lower
  }

  lemma {:induction false} TailCanonical(rs: seq<Range>)
    requires Canonical(rs) && rs != []
    ensures Canonical(rs[1..]) && StartsAfter(rs[1..], rs[0].upper)
  {
  }

  lemma {:induction false} ConsCanonical(r: Range, rs: seq<Range>)
    requires Canonical(rs) && r.lowerInc && StartsAfter(rs, r.upper)
    ensures Canonical([r] + rs)
  {
  }

  lemma {:induction false} CoversCons(rs: seq<Range>, x: Instant)
    requires rs != []
    ensures Covers(rs, x) <==> Contains(rs[0], x) || Covers(rs[1..], x)
    ensures HullCovers(rs, x) <==> InHull(rs[0], x) || HullCovers(rs[1..], x)
  {
    assert rs == [rs[0]] + rs[1..];
    if Covers(rs[1..], x) {
      var r :| r in rs[1..] && Contains(r, x);
      assert r in rs;
    }
    if HullCovers(rs[1..], x) {
      var r :| r in rs[1..] && InHull(r, x);
      assert r in rs;
    }
  }

  lemma {:induction false} CoversAppend(a: seq<Range>, b: seq<Range>, x: Instant)
    ensures Covers(a + b, x) <==> Covers(a, x) || Covers(b, x)
    ensures HullCovers(a + b, x) <==> HullCovers(a, x) || HullCovers(b, x)
  {
    if Covers(a, x) { var r :| r in a && Contains(r, x); assert r in a + b; }
    if Covers(b, x) { var r :| r in b && Contains(r, x); assert r in a + b; }
    if HullCovers(a, x) { var r :| r in a && InHull(r, x); assert r in a + b; }
    if HullCovers(b, x) { var r :| r in b && InHull(r, x); assert r in a + b; }
  }

  // ----- insertion

  /** What the inserted range has grown to after meeting `rs` in order. */
  function Absorbed(rs: seq<Range>, o: Range): Range {
    if rs == [] then o else Absorbed(rs[1..], Add(o, rs[0]))
  }

  /** The ranges found on one side of the inserted range as it grows. */
  function Kept(rs: seq<Range>, o: Range, left: bool): seq<Range> {
    if rs == [] then []
    else if Overlaps(o, rs[0]) then Kept(rs[1..], Add(o, rs[0]), left)
    else if IsStrictlyLeftOf(rs[0], o) == left then [rs[0]] + Kept(rs[1..], o, left)
    else Kept(rs[1..], o, left)
  }

  function Insert(rs: seq<Range>, o: Range): seq<Range> {
    Kept(rs, o, true) + [Absorbed(rs, o)] + Kept(rs, o, false)
  }

  predicate Merges(rs: seq<Range>, o: Range) {
    exists r :: r in rs && HullsMeet(o, r)
  }

  lemma {:induction false} InsertBeforeAll(rs: seq<Range>, o: Range)
    requires Canonical(rs) && o.lowerInc && StartsAfter(rs, o.upper)
    ensures Absorbed(rs, o) == o && Kept(rs, o, true) == [] && Kept(rs, o, false) == rs
  {
    if rs != [] {
      OverlapsIsHullsMeet(o, rs[0]);
      TailCanonical(rs);
      InsertBeforeAll(rs[1..], o);
      assert rs == [rs[0]] + rs[1..];
    }
  }

  lemma {:induction false} ConsAssociates<T>(x: T, a: seq<T>, b: seq<T>, c: seq<T>)
    ensures [x] + a + b + c == [x] + (a + b + c)
  {
  }

  lemma {:induction false} InsertPast(rs: seq<Range>, o: Range)
    requires rs != [] && rs[0].lowerInc && o.lowerInc && rs[0].upper < o.lower
    ensures Insert(rs, o) == [rs[0]] + Insert(rs[1..], o)
  {
    OverlapsIsHullsMeet(o, rs[0]);
    assert Kept(rs, o, true) == [rs[0]] + Kept(rs[1..], o, true);
    assert Kept(rs, o, false) == Kept(rs[1..], o, false);
    assert Absorbed(rs, o) == Absorbed(rs[1..], o);
    hide Kept, Absorbed;
    ConsAssociates(rs[0], Kept(rs[1..], o, true), [Absorbed(rs[1..], o)], Kept(rs[1..], o, false));
  }

  lemma {:induction false} InsertMeeting(rs: seq<Range>, o: Range)
    requires rs != [] && rs[0].lowerInc && o.lowerInc && HullsMeet(o, rs[0])
    ensures Insert(rs, o) == Insert(rs[1..], Add(o, rs[0]))
  {
    OverlapsIsHullsMeet(o, rs[0]);
  }

  /** One step of the insertion, by where the first range lies. */
  lemma {:induction false} InsertStep(rs: seq<Range>, o: Range)
    requires Canonical(rs) && o.lowerInc && rs != []
    ensures rs[0].upper < o.lower ==> Insert(rs, o) == [rs[0]] + Insert(rs[1..], o)
    ensures HullsMeet(o, rs[0]) ==> Insert(rs, o) == Insert(rs[1..], Add(o, rs[0]))
    ensures o.upper < rs[0].lower ==> Insert(rs, o) == [o] + rs
    ensures rs[0].upper < o.lower || HullsMeet(o, rs[0]) || o.upper < rs[0].lower
  {
    hide Kept, Absorbed, Add;
    assert rs[0] in rs;
    if rs[0].upper < o.lower {
      InsertPast(rs, o);
    } else if o.upper < rs[0].lower {
      InsertBeforeAll(rs, o);
      assert [] + [o] + rs == [o] + rs;
    } else {
      InsertMeeting(rs, o);
    }
  }

  lemma {:induction false} InsertStartsAfter(rs: seq<Range>, o: Range, b: Instant)
    requires Canonical(rs) && o.lowerInc && StartsAfter(rs, b) && b < o.lower
    ensures StartsAfter(Insert(rs, o), b)
  {
    if rs == [] {
      assert Insert(rs, o) == [o];
    } else {
      InsertStep(rs, o);
      TailCanonical(rs);
      OverlapsIsHullsMeet(o, rs[0]);
      InsertStartsAfter(rs[1..], Add(o, rs[0]), b);
    }
  }

  /** Insertion keeps the canonical form. */
  lemma {:induction false} InsertCanonical(rs: seq<Range>, o: Range)
    requires Canonical(rs) && o.lowerInc
    ensures Canonical(Insert(rs, o))
  {
    if rs == [] {
      assert Insert(rs, o) == [o];
    } else {
      InsertStep(rs, o);
      TailCanonical(rs);
      OverlapsIsHullsMeet(o, rs[0]);
      InsertCanonical(rs[1..], Add(o, rs[0]));
      if rs[0].upper < o.lower {
        InsertStartsAfter(rs[1..], o, rs[0].upper);
        ConsCanonical(rs[0], Insert(rs[1..], o));
      } else if o.upper < rs[0].lower {
        assert StartsAfter(rs, o.upper);
        ConsCanonical(o, rs);
      }
    }
  }

  /** The closed hull of the result is the union of the closed hulls. */
  lemma {:induction false} InsertHull(rs: seq<Range>, o: Range, x: Instant)
    requires Canonical(rs) && o.lowerInc
    ensures HullCovers(Insert(rs, o), x) <==> HullCovers(rs, x) || InHull(o, x)
  {
    if rs == [] {
      assert Insert(rs, o) == [o];
      assert o in [o];
    } else {
      InsertStep(rs, o);
      TailCanonical(rs);
      OverlapsIsHullsMeet(o, rs[0]);
      CoversCons(rs, x);
      InsertHull(rs[1..], Add(o, rs[0]), x);
      if rs[0].upper < o.lower {
        CoversCons(Insert(rs, o), x);
        assert Insert(rs, o)[1..] == Insert(rs[1..], o);
      } else if o.upper < rs[0].lower {
        CoversCons([o] + rs, x);
        assert ([o] + rs)[1..] == rs;
      }
    }
  }

  lemma {:induction false} AbsorbedBounds(rs: seq<Range>, o: Range)
    requires Canonical(rs) && o.lowerInc
    ensures Absorbed(rs, o).upper >= o.upper
    ensures !Merges(rs, o) ==> Absorbed(rs, o) == o
    ensures Merges(rs, o) ==> !Absorbed(rs, o).upperInc
    ensures || Absorbed(rs, o).upper == o.upper
            || exists r :: r in rs && HullsMeet(o, r) && r.upper == Absorbed(rs, o).upper
  {
    if rs != [] {
      TailCanonical(rs);
      OverlapsIsHullsMeet(o, rs[0]);
      var o' := Add(o, rs[0]);
      AbsorbedBounds(rs[1..], o');
      assert forall r :: r in rs[1..] ==> r in rs;
      assert forall r :: r in rs ==> r == rs[0] || r in rs[1..];
      if HullsMeet(o, rs[0]) {
        assert forall r :: r in rs[1..] ==> (HullsMeet(o', r) <==> HullsMeet(o, r));
        assert rs[0] in rs;
      }
    }
  }

  /** The result covers exactly the union, except the upper bound of the merged group when something merged. */
  lemma {:induction false} InsertCovers(rs: seq<Range>, o: Range, x: Instant)
    requires Canonical(rs) && o.lowerInc
    ensures Covers(Insert(rs, o), x) <==>
            (Covers(rs, x) || Contains(o, x)) && !(Merges(rs, o) && x == Absorbed(rs, o).upper)
  {
    if rs == [] {
      assert Insert(rs, o) == [o];
      assert o in [o];
    } else {
      InsertStep(rs, o);
      TailCanonical(rs);
      OverlapsIsHullsMeet(o, rs[0]);
      CoversCons(rs, x);
      hide Insert, Canonical, Covers;
      var o' := Add(o, rs[0]);
      InsertCovers(rs[1..], o', x);
      AbsorbedBounds(rs, o);
      assert rs[0] in rs;
      assert forall r :: r in rs[1..] ==> r in rs;
      assert forall r :: r in rs ==> r == rs[0] || r in rs[1..];
      if rs[0].upper < o.lower {
        CoversCons(Insert(rs, o), x);
        assert Insert(rs, o)[1..] == Insert(rs[1..], o);
      } else if o.upper < rs[0].lower {
        CoversCons([o] + rs, x);
        assert ([o] + rs)[1..] == rs;
        assert !Merges(rs, o);
      } else {
        AbsorbedBounds(rs[1..], o');
        InsertCoversMerging(rs, o, x);
      }
    }
  }

  lemma {:induction false} CoveredBoundMerges(rs: seq<Range>, o: Range)
    ensures Covers(rs, o.upper) ==> Merges(rs, o)
  {
    if Covers(rs, o.upper) {
      var r :| r in rs && Contains(r, o.upper);
      assert HullsMeet(o, r);
    }
  }

  lemma {:induction false} InsertCoversMerging(rs: seq<Range>, o: Range, x: Instant)
    requires Canonical(rs) && o.lowerInc && rs != [] && HullsMeet(o, rs[0])
    ensures var o' := Add(o, rs[0]);
            ((Covers(rs[1..], x) || Contains(o', x)) && !(Merges(rs[1..], o') && x == Absorbed(rs[1..], o').upper)) <==>
            ((Covers(rs, x) || Contains(o, x)) && x != Absorbed(rs, o).upper)
  {
    var o' := Add(o, rs[0]);
    var rest := rs[1..];
    OverlapsIsHullsMeet(o, rs[0]);
    TailCanonical(rs);
    CoversCons(rs, x);
    AbsorbedBounds(rest, o');
    assert Absorbed(rs, o) == Absorbed(rest, o');
    if x == o'.upper && Absorbed(rest, o').upper > o'.upper {
      var r :| r in rest && HullsMeet(o', r) && r.upper == Absorbed(rest, o').upper;
      assert Contains(r, x);
    }
    CoveredBoundMerges(rest, o');
  }

  // ----- rebuilding

  function InsertAll(acc: seq<Range>, rs: seq<Range>): seq<Range>
    decreases |rs|
  {
    if rs == [] then acc else InsertAll(Insert(acc, rs[0]), rs[1..])
  }

  /** The multirange that a loop of `+=` over `rs` builds from the empty one. */
  function Rebuilt(rs: seq<Range>): seq<Range> {
    InsertAll([], rs)
  }

  lemma {:induction false} EndOfCanonical(rs: seq<Range>, o: Range)
    requires Canonical(rs + [o])
    ensures o.lowerInc && (rs != [] ==> rs[0].lowerInc && rs[0].upper < o.lower && Canonical(rs[1..] + [o]))
  {
    assert (rs + [o])[|rs|] == o;
    assert o in rs + [o];
    if rs != [] {
      assert (rs + [o])[0] == rs[0] && rs[0] in rs + [o];
      assert (rs + [o])[1..] == rs[1..] + [o];
      TailCanonical(rs + [o]);
    }
  }

  lemma {:induction false} InsertAtEnd(rs: seq<Range>, o: Range)
    requires Canonical(rs + [o])
    ensures Insert(rs, o) == rs + [o]
  {
    EndOfCanonical(rs, o);
    if rs == [] {
      assert [] + [o] + [] == [] + [o];
    } else {
      hide Canonical, Insert;
      InsertPast(rs, o);
      InsertAtEnd(rs[1..], o);
      assert [rs[0]] + (rs[1..] + [o]) == rs + [o];
    }
  }

  /** Reading back a canonical list range by range is the identity. */
  lemma {:induction false} RebuildIsIdentity(done: seq<Range>, rs: seq<Range>)
    requires Canonical(done + rs)
    ensures InsertAll(done, rs) == done + rs
    decreases |rs|
  {
    if rs == [] {
      assert done + rs == done;
    } else {
      assert (done + [rs[0]]) + rs[1..] == done + rs;
      var prefix := done + [rs[0]];
      assert forall i :: 0 <= i < |prefix| ==> prefix[i] == (done + rs)[i];
      assert forall r :: r in prefix ==> r in done + rs;
      InsertAtEnd(done, rs[0]);
      RebuildIsIdentity(prefix, rs[1..]);
    }
  }

  // ----- order independence

  lemma {:induction false} UpperUncovered(rs: seq<Range>, s: Range, r: Range)
    requires Separated(rs) && s in rs && r in rs && HalfOpen(s) && HalfOpen(r)
    ensures !Contains(r, s.upper)
  {
    var i :| 0 <= i < |rs| && rs[i] == s;
    var j :| 0 <= j < |rs| && rs[j] == r;
    assert i == j || rs[i].upper < rs[j].lower || rs[j].upper < rs[i].lower;
  }

  /** The upper bound of the merged group belongs to no range. */
  lemma {:induction false} AbsorbedUpperUncovered(rs: seq<Range>, o: Range, r: Range)
    requires Canonical(rs) && AllHalfOpen(rs) && HalfOpen(o) && r in rs
    ensures !Contains(r, Absorbed(rs, o).upper)
  {
    hide Absorbed, Canonical;
    AbsorbedBounds(rs, o);
    if HullsMeet(o, r) {
      AbsorbedAtLeast(rs, o, r);
    } else if Absorbed(rs, o).upper != o.upper {
      var s :| s in rs && HullsMeet(o, s) && s.upper == Absorbed(rs, o).upper;
      assert Separated(rs) by { assert Canonical(rs); CanonicalSeparated(rs); }
      UpperUncovered(rs, s, r);
    }
  }

  lemma {:induction false} CanonicalSeparated(rs: seq<Range>)
    requires Canonical(rs)
    ensures Separated(rs)
  {
  }

  lemma {:induction false} InsertHalfOpen(rs: seq<Range>, o: Range)
    requires Canonical(rs) && AllHalfOpen(rs) && HalfOpen(o)
    ensures Canonical(Insert(rs, o)) && AllHalfOpen(Insert(rs, o))
    ensures forall x :: Covers(Insert(rs, o), x) <==> Covers(rs, x) || Contains(o, x)
  {
    hide Insert, Absorbed, Canonical, AllHalfOpen;
    InsertCanonical(rs, o);
    InsertKeepsHalfOpen(rs, o);
    AbsorbedBounds(rs, o);
    forall r | r in rs ensures !Contains(r, Absorbed(rs, o).upper) {
      AbsorbedUpperUncovered(rs, o, r);
    }
    forall x ensures Covers(Insert(rs, o), x) <==> Covers(rs, x) || Contains(o, x) {
      InsertCovers(rs, o, x);
    }
  }

  lemma {:induction false} AbsorbedAtLeast(rs: seq<Range>, o: Range, r: Range)
    requires Canonical(rs) && o.lowerInc && r in rs && HullsMeet(o, r)
    ensures Absorbed(rs, o).upper >= r.upper
  {
    TailCanonical(rs);
    OverlapsIsHullsMeet(o, rs[0]);
    var o' := Add(o, rs[0]);
    if r == rs[0] {
      AbsorbedBounds(rs[1..], o');
    } else {
      AbsorbedAtLeast(rs[1..], o', r);
    }
  }

  lemma {:induction false} InsertKeepsHalfOpen(rs: seq<Range>, o: Range)
    requires Canonical(rs) && AllHalfOpen(rs) && HalfOpen(o)
    ensures AllHalfOpen(Insert(rs, o))
  {
    if rs == [] {
      assert Insert(rs, o) == [o];
    } else {
      InsertStep(rs, o);
      TailCanonical(rs);
      OverlapsIsHullsMeet(o, rs[0]);
      assert rs[0] in rs;
      InsertKeepsHalfOpen(rs[1..], Add(o, rs[0]));
    }
  }

  lemma {:induction false} InsertAllHalfOpen(acc: seq<Range>, rs: seq<Range>)
    requires Canonical(acc) && AllHalfOpen(acc) && AllHalfOpen(rs)
    ensures Canonical(InsertAll(acc, rs)) && AllHalfOpen(InsertAll(acc, rs))
    ensures forall x :: Covers(InsertAll(acc, rs), x) <==> Covers(acc, x) || Covers(rs, x)
    decreases |rs|
  {
    if rs != [] {
      assert rs[0] in rs;
      InsertHalfOpen(acc, rs[0]);
      InsertAllHalfOpen(Insert(acc, rs[0]), rs[1..]);
      forall x
        ensures Covers(InsertAll(acc, rs), x) <==> Covers(acc, x) || Covers(rs, x)
      {
        CoversCons(rs, x);
      }
    }
  }

  ghost predicate SameCover(rs: seq<Range>, ts: seq<Range>) {
    forall x :: Covers(rs, x) <==> Covers(ts, x)
  }

  lemma {:induction false} SameFirst(rs: seq<Range>, ts: seq<Range>)
    requires Canonical(rs) && AllHalfOpen(rs) && Canonical(ts) && AllHalfOpen(ts) && SameCover(rs, ts) && rs != []
             && ts != []
    ensures rs[0] == ts[0]
  {
    hide Covers, Canonical;
    FirstRange(rs);
    FirstRange(ts);
    assert HalfOpen(rs[0]) && HalfOpen(ts[0]);
    assert rs[0].lower == ts[0].lower;
    assert rs[0].upper == ts[0].upper;
  }

  lemma {:induction false} SameRest(rs: seq<Range>, ts: seq<Range>)
    requires Canonical(rs) && Canonical(ts) && SameCover(rs, ts) && rs != [] && ts != [] && rs[0] == ts[0]
    ensures SameCover(rs[1..], ts[1..])
  {
    TailCanonical(rs);
    TailCanonical(ts);
    forall x ensures Covers(rs[1..], x) <==> Covers(ts[1..], x) {
      CoversCons(rs, x);
      CoversCons(ts, x);
    }
  }

  /** A set of instants has at most one canonical list of non-empty half-open ranges. */
  lemma {:induction false} CanonicalIsUnique(rs: seq<Range>, ts: seq<Range>)
    requires Canonical(rs) && AllHalfOpen(rs) && Canonical(ts) && AllHalfOpen(ts)
    requires SameCover(rs, ts)
    ensures rs == ts
  {
    CoversSomething(rs);
    CoversSomething(ts);
    if rs != [] && ts != [] {
      hide SameCover, Canonical, HalfOpen;
      SameFirst(rs, ts);
      SameRest(rs, ts);
      TailCanonical(rs);
      TailCanonical(ts);
      CanonicalIsUnique(rs[1..], ts[1..]);
      assert rs == [rs[0]] + rs[1..] && ts == [ts[0]] + ts[1..];
    }
  }

  lemma {:induction false} CoversSomething(rs: seq<Range>)
    requires AllHalfOpen(rs)
    ensures rs != [] <==> exists x :: Covers(rs, x)
  {
    if rs != [] {
      assert rs[0] in rs && Contains(rs[0], rs[0].lower);
      assert Covers(rs, rs[0].lower);
    }
  }

  /** The first range's bounds, read off the covered set. */
  lemma {:induction false} FirstRange(rs: seq<Range>)
    requires Canonical(rs) && AllHalfOpen(rs) && rs != []
    ensures Covers(rs, rs[0].lower) && !Covers(rs, rs[0].upper)
    ensures forall x :: Covers(rs, x) ==> rs[0].lower <= x
    ensures forall x :: rs[0].lower <= x < rs[0].upper ==> Covers(rs, x)
  {
    assert rs[0] in rs && Contains(rs[0], rs[0].lower);
    forall x | rs[0].lower <= x < rs[0].upper ensures Covers(rs, x) {
      assert Contains(rs[0], x);
    }
    forall r | r in rs ensures rs[0].lower <= r.lower && !Contains(r, rs[0].upper) {
      var i :| 0 <= i < |rs| && rs[i] == r;
    }
  }

  /** Adding non-empty half-open ranges to the empty multirange gives the same list in any order: the
      canonical list that denotes their union. */
  lemma {:induction false} OrderIndependence(rs: seq<Range>, ts: seq<Range>)
    requires AllHalfOpen(rs) && multiset(rs) == multiset(ts)
    ensures Rebuilt(rs) == Rebuilt(ts)
    ensures Canonical(Rebuilt(rs)) && forall x :: Covers(Rebuilt(rs), x) <==> Covers(rs, x)
  {
    forall r | r in rs ensures r in ts { assert r in multiset(rs); }
    forall r | r in ts ensures r in rs { assert r in multiset(ts); }
    assert Canonical([]) && AllHalfOpen([]);
    InsertAllHalfOpen([], rs);
    InsertAllHalfOpen([], ts);
    CanonicalIsUnique(Rebuilt(rs), Rebuilt(ts));
  }

  // ----- difference

  function SubFromEach(ps: seq<Range>, n: Range): seq<Range> {
    if ps == [] then [] else Sub(ps[0], n) + SubFromEach(ps[1..], n)
  }

  function RemoveAll(ps: seq<Range>, ns: seq<Range>): seq<Range>
    decreases |ns|
  {
    if ns == [] then ps else RemoveAll(SubFromEach(ps, ns[0]), ns[1..])
  }

  /** What is left of the ranges `ms`, in their order, once every range of `ns` is taken away. */
  function Remaining(ms: seq<Range>, ns: seq<Range>): seq<Range> {
    if ms == [] then [] else RemoveAll([ms[0]], ns) + Remaining(ms[1..], ns)
  }

  function InsertByLower(r: Range, rs: seq<Range>): (s: seq<Range>)
    ensures multiset(s) == multiset([r] + rs)
  {
    if rs == [] || r.lower <= rs[0].lower then
      [r] + rs
    else
      assert rs == [rs[0]] + rs[1..];
      [rs[0]] + InsertByLower(r, rs[1..])
  }

  /** A stable sort on the lower bound. */
  function SortByLower(rs: seq<Range>): (s: seq<Range>)
    ensures multiset(s) == multiset(rs)
  {
    if rs == [] then
      []
    else
      assert rs == [rs[0]] + rs[1..];
      InsertByLower(rs[0], SortByLower(rs[1..]))
  }

  predicate SortedByLower(rs: seq<Range>) {
    forall i, j :: 0 <= i < j < |rs| ==> rs[i].lower <= rs[j].lower
  }

  lemma {:induction false} ConsSorted(r: Range, rs: seq<Range>)
    requires SortedByLower(rs) && forall q :: q in rs ==> r.lower <= q.lower
    ensures SortedByLower([r] + rs)
  {
  }

  lemma {:induction false} InsertByLowerSorts(r: Range, rs: seq<Range>)
    requires SortedByLower(rs)
    ensures SortedByLower(InsertByLower(r, rs))
  {
    if rs != [] && r.lower > rs[0].lower {
      InsertByLowerSorts(r, rs[1..]);
      var s := InsertByLower(r, rs[1..]);
      forall q | q in s ensures rs[0].lower <= q.lower {
        assert q in multiset(s);
        assert q in [r] + rs[1..];
      }
      ConsSorted(rs[0], s);
    }
  }

  lemma {:induction false} SortByLowerSorts(rs: seq<Range>)
    ensures SortedByLower(SortByLower(rs))
  {
    if rs != [] {
      SortByLowerSorts(rs[1..]);
      InsertByLowerSorts(rs[0], SortByLower(rs[1..]));
    }
  }

  function Difference(ms: seq<Range>, ns: seq<Range>): seq<Range> {
    SortByLower(Remaining(ms, ns))
  }

  predicate AllNonEmpty(rs: seq<Range>) {
    forall r :: r in rs ==> NonEmpty(r)
  }

  /** The one instant the subtraction forgets: an upper bound that some subtrahend starting later shares. */
  predicate Lost(m: Range, ns: seq<Range>, x: Instant) {
    x == m.upper && exists n :: n in ns && n.upper == x && m.lower < n.lower
  }

  predicate Survives(m: Range, ns: seq<Range>, x: Instant) {
    Contains(m, x) && !Covers(ns, x) && !Lost(m, ns, x)
  }

  lemma {:induction false} SubFromEachCovers(ps: seq<Range>, n: Range, x: Instant)
    ensures Covers(SubFromEach(ps, n), x) <==> exists p :: p in ps && Covers(Sub(p, n), x)
  {
    if ps != [] {
      CoversAppend(Sub(ps[0], n), SubFromEach(ps[1..], n), x);
      SubFromEachCovers(ps[1..], n, x);
      assert ps == [ps[0]] + ps[1..];
    }
  }

  /** A piece keeps its bounds from the minuend, or starts where the subtrahend ends; a closed upper bound is
      the minuend's own. */
  lemma {:induction false} PieceShape(p: Range, n: Range, q: Range)
    requires n.lowerInc && q in Sub(p, n)
    ensures p.lower <= q.lower && q.upper <= p.upper
    ensures q.upperInc ==> p.upperInc && q.upper == p.upper
    ensures q.lower == p.lower || q.lower == n.upper
  {
  }

  lemma {:induction false} PieceSurvives(p: Range, ns: seq<Range>, q: Range, x: Instant)
    requires Canonical(ns) && AllNonEmpty(ns) && ns != [] && q in Sub(p, ns[0]) && Contains(q, x)
    ensures Survives(p, ns, x) <==> Survives(q, ns[1..], x)
  {
    var n, rest := ns[0], ns[1..];
    assert n in ns;
    PieceShape(p, n, q);
    SubExact(p, n, x);
    CoversCons(ns, x);
    TailCanonical(ns);
    if Lost(q, rest, x) {
      var s :| s in rest && s.upper == x && q.lower < s.lower;
      assert s in ns && p.lower < s.lower;
    }
    if Lost(p, ns, x) {
      var s :| s in ns && s.upper == x && p.lower < s.lower;
      assert s != n;
      assert s in rest && q.lower < s.lower;
    }
  }

  /** Taking one subtrahend away agrees with taking it away first. */
  lemma {:induction false} SurvivesStep(p: Range, ns: seq<Range>, x: Instant)
    requires Canonical(ns) && AllNonEmpty(ns) && ns != []
    ensures Survives(p, ns, x) <==> exists q :: q in Sub(p, ns[0]) && Survives(q, ns[1..], x)
  {
    assert ns[0] in ns;
    SubExact(p, ns[0], x);
    CoversCons(ns, x);
    forall q | q in Sub(p, ns[0]) && Contains(q, x)
      ensures Survives(p, ns, x) <==> Survives(q, ns[1..], x)
    {
      PieceSurvives(p, ns, q, x);
    }
  }

  lemma {:induction false} RemoveAllCovers(ps: seq<Range>, ns: seq<Range>, x: Instant)
    requires Canonical(ns) && AllNonEmpty(ns)
    ensures Covers(RemoveAll(ps, ns), x) <==> exists p :: p in ps && Survives(p, ns, x)
    decreases |ns|
  {
    if ns == [] {
      if Covers(ps, x) {
        var p :| p in ps && Contains(p, x);
        assert Survives(p, ns, x);
      }
    } else {
      TailCanonical(ns);
      assert forall s :: s in ns[1..] ==> s in ns;
      RemoveAllCovers(SubFromEach(ps, ns[0]), ns[1..], x);
      SubFromEachMembers(ps, ns[0]);
      forall p | p in ps ensures Survives(p, ns, x) <==> exists q :: q in Sub(p, ns[0]) && Survives(q, ns[1..], x) {
        SurvivesStep(p, ns, x);
      }
    }
  }

  lemma {:induction false} SubFromEachMembers(ps: seq<Range>, n: Range)
    ensures forall q :: q in SubFromEach(ps, n) <==> exists p :: p in ps && q in Sub(p, n)
  {
    if ps != [] {
      SubFromEachMembers(ps[1..], n);
      assert ps == [ps[0]] + ps[1..];
    }
  }

  lemma {:induction false} RemainingCovers(ms: seq<Range>, ns: seq<Range>, x: Instant)
    requires Canonical(ns) && AllNonEmpty(ns)
    ensures Covers(Remaining(ms, ns), x) <==> exists m :: m in ms && Survives(m, ns, x)
  {
    if ms != [] {
      CoversAppend(RemoveAll([ms[0]], ns), Remaining(ms[1..], ns), x);
      RemoveAllCovers([ms[0]], ns, x);
      RemainingCovers(ms[1..], ns, x);
      assert ms == [ms[0]] + ms[1..];
      assert ms[0] in [ms[0]];
    }
  }

  /** Exact meaning of the difference: an instant is in `M - N` if and only if some range of `M` holds it, no
      range of `N` does, and it is not an upper bound shared with a range of `N` that starts later. */
  lemma {:induction false} DifferenceExact(ms: seq<Range>, ns: seq<Range>, x: Instant)
    requires Canonical(ns) && AllNonEmpty(ns)
    ensures Covers(Difference(ms, ns), x) <==> exists m :: m in ms && Survives(m, ns, x)
  {
    RemainingCovers(ms, ns, x);
    SameMembers(Difference(ms, ns), Remaining(ms, ns));
  }

  lemma {:induction false} SameMembers(a: seq<Range>, b: seq<Range>)
    requires multiset(a) == multiset(b)
    ensures forall r :: r in a <==> r in b
    ensures forall x :: Covers(a, x) <==> Covers(b, x)
  {
    forall r ensures r in a <==> r in b {
      assert r in a <==> r in multiset(a);
      assert r in b <==> r in multiset(b);
    }
  }

  /** A closed upper bound of one list that is an open upper bound of the other. */
  ghost predicate BoundLost(ms: seq<Range>, ns: seq<Range>, x: Instant) {
    exists m, n :: m in ms && n in ns && x == m.upper == n.upper && m.upperInc && !n.upperInc
  }

  /** One subtrahend taken from every piece. */
  lemma {:induction false} SubFromEachMeaning(ps: seq<Range>, n: Range, x: Instant)
    requires n.lowerInc && NonEmpty(n)
    ensures Covers(SubFromEach(ps, n), x) ==> Covers(ps, x) && !Contains(n, x)
    ensures Covers(ps, x) && !Contains(n, x) && !Covers(SubFromEach(ps, n), x) ==> BoundLost(ps, [n], x)
  {
    SubFromEachCovers(ps, n, x);
    forall p | p in ps
      ensures Covers(Sub(p, n), x) <==>
              Contains(p, x) && !Contains(n, x) && !(x == p.upper && x == n.upper && p.lower < n.lower)
    {
      SubExact(p, n, x);
    }
    if Covers(ps, x) && !Contains(n, x) && !Covers(SubFromEach(ps, n), x) {
      var p :| p in ps && Contains(p, x);
      assert n in [n] && x == p.upper == n.upper && p.upperInc && !n.upperInc;
    }
  }

  lemma {:induction false} BoundLostStep(ps: seq<Range>, ns: seq<Range>, x: Instant)
    requires ns != [] && ns[0].lowerInc
    ensures BoundLost(ps, [ns[0]], x) ==> BoundLost(ps, ns, x)
    ensures BoundLost(SubFromEach(ps, ns[0]), ns[1..], x) ==> BoundLost(ps, ns, x)
  {
    if BoundLost(ps, [ns[0]], x) {
      var m :| m in ps && x == m.upper == ns[0].upper && m.upperInc;
      assert ns[0] in ns;
    }
    if BoundLost(SubFromEach(ps, ns[0]), ns[1..], x) {
      var q, n :| q in SubFromEach(ps, ns[0]) && n in ns[1..] && x == q.upper == n.upper && q.upperInc && !n.upperInc;
      SubFromEachMembers(ps, ns[0]);
      var p :| p in ps && q in Sub(p, ns[0]);
      PieceShape(p, ns[0], q);
      assert n in ns;
    }
  }

  lemma {:induction false} RemoveAllMeaning(ps: seq<Range>, ns: seq<Range>, x: Instant)
    requires LowerClosed(ns) && AllNonEmpty(ns)
    ensures Covers(RemoveAll(ps, ns), x) ==> Covers(ps, x) && !Covers(ns, x)
    ensures Covers(ps, x) && !Covers(ns, x) && !Covers(RemoveAll(ps, ns), x) ==> BoundLost(ps, ns, x)
    decreases |ns|
  {
    if ns != [] {
      hide Covers, BoundLost, NonEmpty, SubFromEach;
      assert ns[0] in ns;
      CoversCons(ns, x);
      SubFromEachMeaning(ps, ns[0], x);
      BoundLostStep(ps, ns, x);
      RemoveAllMeaning(SubFromEach(ps, ns[0]), ns[1..], x);
    }
  }

  lemma {:induction false} RemainingMeaning(ms: seq<Range>, ns: seq<Range>, x: Instant)
    requires LowerClosed(ns) && AllNonEmpty(ns)
    ensures Covers(Remaining(ms, ns), x) ==> Covers(ms, x) && !Covers(ns, x)
    ensures Covers(ms, x) && !Covers(ns, x) && !Covers(Remaining(ms, ns), x) ==> BoundLost(ms, ns, x)
  {
    if ms != [] {
      hide Covers, RemoveAll, AllNonEmpty, LowerClosed;
      CoversCons(ms, x);
      OneRange(ms[0], x);
      CoversAppend(RemoveAll([ms[0]], ns), Remaining(ms[1..], ns), x);
      RemoveAllMeaning([ms[0]], ns, x);
      RemainingMeaning(ms[1..], ns, x);
    }
  }

  lemma {:induction false} OneRange(m: Range, x: Instant)
    ensures Covers([m], x) <==> Contains(m, x)
  {
    assert m in [m];
  }

  /** For any subtrahend of non-empty ranges closed below, the difference stays inside `M \ N`, and an instant of
      `M \ N` it misses is a closed upper bound of `M` that is an open upper bound of `N`. */
  lemma {:induction false} DifferenceMeaning(ms: seq<Range>, ns: seq<Range>, x: Instant)
    requires LowerClosed(ns) && AllNonEmpty(ns)
    ensures Covers(Difference(ms, ns), x) ==> Covers(ms, x) && !Covers(ns, x)
    ensures Covers(ms, x) && !Covers(ns, x) && !Covers(Difference(ms, ns), x) ==>
              exists m, n :: m in ms && n in ns && x == m.upper == n.upper && m.upperInc && !n.upperInc
  {
    RemainingMeaning(ms, ns, x);
    SameMembers(Difference(ms, ns), Remaining(ms, ns));
  }

  /** The instant really is lost: `[1,10] - [5,10)` is `[1,5)`, without 10. */
  lemma {:induction false} DifferenceLosesAnInstant()
    ensures var m: Range, n: Range := Interval(1, 10, true, true), Interval(5, 10, true, false);
            Covers([m], 10) && !Covers([n], 10) && !Covers(Difference([m], [n]), 10)
  {
    var m: Range, n: Range := Interval(1, 10, true, true), Interval(5, 10, true, false);
    assert m in [m] && n in [n] && Contains(m, 10);
    DifferenceExact([m], [n], 10);
    assert n.upper == 10 && m.lower < n.lower;
  }

  /** Every remaining piece lies inside the closed hull of one of the ranges it was cut from. */
  lemma {:induction false} PiecesInside(ms: seq<Range>, ns: seq<Range>)
    ensures forall p :: p in Difference(ms, ns) ==> exists m :: m in ms && m.lower <= p.lower && p.upper <= m.upper
  {
    RemainingInside(ms, ns);
    SameMembers(Difference(ms, ns), Remaining(ms, ns));
  }

  lemma {:induction false} RemainingInside(ms: seq<Range>, ns: seq<Range>)
    ensures forall p :: p in Remaining(ms, ns) ==> exists m :: m in ms && m.lower <= p.lower && p.upper <= m.upper
  {
    if ms != [] {
      RemoveAllInside([ms[0]], ns, ms[0].lower, ms[0].upper);
      RemainingInside(ms[1..], ns);
      assert ms == [ms[0]] + ms[1..];
    }
  }

  lemma {:induction false} RemoveAllInside(ps: seq<Range>, ns: seq<Range>, lo: Instant, hi: Instant)
    requires forall p :: p in ps ==> lo <= p.lower && p.upper <= hi
    ensures forall p :: p in RemoveAll(ps, ns) ==> lo <= p.lower && p.upper <= hi
    decreases |ns|
  {
    if ns != [] {
      SubFromEachMembers(ps, ns[0]);
      RemoveAllInside(SubFromEach(ps, ns[0]), ns[1..], lo, hi);
    }
  }

  /** Whatever the subtrahend, nothing outside its closed hull is lost. */
  lemma {:induction false} SubKeepsOutside(p: Range, n: Range, x: Instant)
    requires Contains(p, x) && !InHull(n, x)
    ensures Covers(Sub(p, n), x)
  {
    if !Overlaps(p, n) {
      assert p in Sub(p, n);
    } else if x < n.lower {
      var left: Range := Interval(p.lower, n.lower, p.lowerInc, !n.lowerInc);
      assert left in Sub(p, n) && Contains(left, x);
    } else {
      var right: Range := Interval(n.upper, p.upper, !n.upperInc, p.upperInc);
      assert right in Sub(p, n) && Contains(right, x);
    }
  }

  lemma {:induction false} RemoveAllKeepsOutside(ps: seq<Range>, ns: seq<Range>, x: Instant)
    requires Covers(ps, x) && !HullCovers(ns, x)
    ensures Covers(RemoveAll(ps, ns), x)
    decreases |ns|
  {
    if ns != [] {
      CoversCons(ns, x);
      var p :| p in ps && Contains(p, x);
      SubKeepsOutside(p, ns[0], x);
      SubFromEachCovers(ps, ns[0], x);
      RemoveAllKeepsOutside(SubFromEach(ps, ns[0]), ns[1..], x);
    }
  }

  lemma {:induction false} RemainingKeepsOutside(ms: seq<Range>, ns: seq<Range>, x: Instant)
    requires Covers(ms, x) && !HullCovers(ns, x)
    ensures Covers(Remaining(ms, ns), x)
  {
    CoversCons(ms, x);
    CoversAppend(RemoveAll([ms[0]], ns), Remaining(ms[1..], ns), x);
    if Contains(ms[0], x) {
      assert ms[0] in [ms[0]];
      RemoveAllKeepsOutside([ms[0]], ns, x);
    } else {
      RemainingKeepsOutside(ms[1..], ns, x);
    }
  }

  /** For every two collections: an instant of `M` outside the closed hull of `N` is in `M - N`. */
  lemma {:induction false} DifferenceKeepsOutside(ms: seq<Range>, ns: seq<Range>, x: Instant)
    requires Covers(ms, x) && !HullCovers(ns, x)
    ensures Covers(Difference(ms, ns), x)
  {
    RemainingKeepsOutside(ms, ns, x);
    SameMembers(Difference(ms, ns), Remaining(ms, ns));
  }

  // ----- open upper bounds

  /** An open end of a piece is where some range of `ns` cut it off. */
  ghost predicate EndsCut(q: Range, ns: seq<Range>) {
    && (q.upperInc || exists n :: n in ns && q.upper == n.lower)
    && (q.lowerInc || exists n :: n in ns && q.lower == n.upper && n.upperInc)
  }

  lemma {:induction false} SubEndsCut(p: Range, n: Range, q: Range, ns: seq<Range>)
    requires n in ns && n.lowerInc && EndsCut(p, ns) && q in Sub(p, n)
    ensures EndsCut(q, ns)
  {
  }

  lemma {:induction false} RemoveAllEndsCut(ps: seq<Range>, rest: seq<Range>, ns: seq<Range>)
    requires (forall n :: n in rest ==> n in ns) && LowerClosed(ns) && forall p :: p in ps ==> EndsCut(p, ns)
    ensures forall q :: q in RemoveAll(ps, rest) ==> EndsCut(q, ns)
    decreases |rest|
  {
    if rest != [] {
      hide EndsCut;
      SubFromEachMembers(ps, rest[0]);
      forall q | q in SubFromEach(ps, rest[0]) ensures EndsCut(q, ns) {
        var p :| p in ps && q in Sub(p, rest[0]);
        SubEndsCut(p, rest[0], q, ns);
      }
      RemoveAllEndsCut(SubFromEach(ps, rest[0]), rest[1..], ns);
    }
  }

  lemma {:induction false} RemainingEndsCut(ms: seq<Range>, ns: seq<Range>)
    requires LowerClosed(ns) && forall m :: m in ms ==> m.lowerInc && m.upperInc
    ensures forall q :: q in Remaining(ms, ns) ==> EndsCut(q, ns)
  {
    if ms != [] {
      RemoveAllEndsCut([ms[0]], ns, ns);
      RemainingEndsCut(ms[1..], ns);
    }
  }

  /** At an open upper bound of a canonical list, a piece that comes near holds the bound. */
  lemma {:induction false} BoundHeld(q: Range, ns: seq<Range>, n: Range)
    requires Canonical(ns) && AllNonEmpty(ns) && n in ns && !n.upperInc && EndsCut(q, ns) && InHull(q, n.upper)
    ensures Contains(q, n.upper)
  {
    if q.upper == n.upper && !q.upperInc {
      var k :| k in ns && q.upper == k.lower;
      OnlyBound(ns, n, k);
    }
    if q.lower == n.upper && !q.lowerInc {
      var k :| k in ns && q.lower == k.upper && k.upperInc;
      OnlyBound(ns, n, k);
    }
  }

  lemma {:induction false} OnlyBound(ns: seq<Range>, n: Range, k: Range)
    requires Separated(ns) && LowerClosed(ns) && AllNonEmpty(ns) && n in ns && k in ns && !n.upperInc
    ensures k.lower != n.upper && (k.upper == n.upper ==> k == n) && !Contains(k, n.upper)
  {
    var i :| 0 <= i < |ns| && ns[i] == n;
    var j :| 0 <= j < |ns| && ns[j] == k;
    assert NonEmpty(n);
    assert i < j ==> ns[i].upper < ns[j].lower;
    assert j < i ==> ns[j].upper < ns[i].lower;
  }

  /** Whether an open upper bound of `N` is left, for `M` closed at both ends: some range of `M` holds it, and reaches
      past it or starts inside the range of `N`. */
  lemma {:induction false} BoundLeftIff(ms: seq<Range>, ns: seq<Range>, n: Range)
    requires Canonical(ns) && AllNonEmpty(ns) && n in ns && !n.upperInc
    requires forall m :: m in ms ==> m.lowerInc && m.upperInc
    ensures HullCovers(Difference(ms, ns), n.upper) <==>
            exists m :: m in ms && Contains(m, n.upper) && (n.upper < m.upper || n.lower <= m.lower)
  {
    var x := n.upper;
    DifferenceExact(ms, ns, x);
    SameMembers(Difference(ms, ns), Remaining(ms, ns));
    RemainingEndsCut(ms, ns);
    forall q | q in Difference(ms, ns) && InHull(q, x) ensures Contains(q, x) {
      BoundHeld(q, ns, n);
    }
    forall k | k in ns ensures !Contains(k, x) && (k.upper == x ==> k == n) {
      OnlyBound(ns, n, k);
    }
    assert HullCovers(Difference(ms, ns), x) <==> Covers(Difference(ms, ns), x);
    forall m | m in ms ensures Survives(m, ns, x) <==> Contains(m, x) && (x < m.upper || n.lower <= m.lower) { }
  }

  lemma {:induction false} RemainingAt(ms: seq<Range>, ns: seq<Range>, i: nat)
    requires i < |ms|
    ensures Remaining(ms[i..], ns) == RemoveAll([ms[i]], ns) + Remaining(ms[i + 1..], ns)
  {
    assert ms[i..][1..] == ms[i + 1..];
  }

  // ----- the mutable object

  method RemoveMultirange(r: Range, ns: seq<Range>) returns (missing: seq<Range>)
    ensures missing == RemoveAll([r], ns)
  {
    missing := [r];
    for i := 0 to |ns|
      invariant RemoveAll(missing, ns[i..]) == RemoveAll([r], ns)
    {
      var next := [];
      for j := 0 to |missing|
        invariant next + SubFromEach(missing[j..], ns[i]) == SubFromEach(missing, ns[i])
      {
        assert missing[j..][1..] == missing[j + 1..];
        next := next + Sub(missing[j], ns[i]);
      }
      assert next == SubFromEach(missing, ns[i]);
      assert ns[i..][1..] == ns[i + 1..];
      missing := next;
    }
  }

  class MultiRange {
    var ranges: seq<Range>

    constructor (rs: seq<Range>)
      ensures multiset(ranges) == multiset(rs) && SortedByLower(ranges)
      ensures ranges == SortByLower(rs)
    {
      ranges := SortByLower(rs);
      SortByLowerSorts(rs);
    }

    method AddRange(range: Range)
      modifies this
      ensures ranges == Insert(old(ranges), range)
      ensures Canonical(old(ranges)) && range.lowerInc ==> Canonical(ranges)
    {
      var other, left, right := range, [], [];
      for i := 0 to |ranges|
        invariant ranges == old(ranges)
        invariant left + Kept(ranges[i..], other, true) == Kept(ranges, range, true)
        invariant right + Kept(ranges[i..], other, false) == Kept(ranges, range, false)
        invariant Absorbed(ranges[i..], other) == Absorbed(ranges, range)
      {
        var rng := ranges[i];
        assert ranges[i..][0] == rng && ranges[i..][1..] == ranges[i + 1..];
        if Overlaps(other, rng) {
          other := Add(other, rng);
        } else if IsStrictlyLeftOf(rng, other) {
          left := left + [rng];
        } else {
          right := right + [rng];
        }
      }
      ranges := left + [other] + right;
      if Canonical(old(ranges)) && range.lowerInc {
        InsertCanonical(old(ranges), range);
      }
    }

    method Subtract(other: MultiRange) returns (d: MultiRange)
      ensures fresh(d) && d.ranges == Difference(ranges, other.ranges)
    {
      var missing, ms, ns := [], ranges, other.ranges;
      for i := 0 to |ms|
        invariant missing + Remaining(ms[i..], ns) == Remaining(ms, ns)
      {
        var pieces := RemoveMultirange(ms[i], ns);
        RemainingAt(ms, ns, i);
        assert missing + pieces + Remaining(ms[i + 1..], ns) == missing + (pieces + Remaining(ms[i + 1..], ns));
        missing := missing + pieces;
      }
      assert missing == Remaining(ms, ns);
      d := new MultiRange(missing);
    }
  }
}
