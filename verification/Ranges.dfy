/** Ranges of instants with open or closed ends, as `src/aleph/toolkit/range.py` builds,
    joins and subtracts them.  An instant is an integer. */
module Ranges {
  import opened Wrappers

  type Instant = int

  datatype Interval = Interval(lower: Instant, upper: Instant, lowerInc: bool, upperInc: bool)

  /** The constructor refuses an upper bound below the lower one, so every range has this shape. */
  type Range = r: Interval | r.lower <= r.upper witness Interval(0, 0, true, false)

  datatype RangeError = UpperBelowLower

  function MakeRange(lower: Instant, upper: Instant, lowerInc: bool := true, upperInc: bool := false)
      : (r: Result<Range, RangeError>)
    ensures r.Ok? <==> lower <= upper
    ensures r.Ok? ==> forall x :: Contains(r.value, x) <==>
                                    (lower < x < upper || (x == lower && lowerInc && (lower < upper || upperInc))
                                     || (x == upper && upperInc && (lower < upper || lowerInc)))
  {
    if upper < lower then Err(UpperBelowLower) else Ok(Interval(lower, upper, lowerInc, upperInc))
  }

  /** The instants a range denotes. */
  predicate Contains(r: Range, x: Instant) {
    (if r.lowerInc then r.lower <= x else r.lower < x) && (if r.upperInc then x <= r.upper else x < r.upper)
  }

  /** The closed hull: the instants between the two bounds, whether or not the bounds are included. */
  predicate InHull(r: Range, x: Instant) {
    r.lower <= x <= r.upper
  }

  predicate HullsMeet(a: Range, b: Range) {
    a.lower <= b.upper && b.lower <= a.upper
  }

  predicate NonEmpty(r: Range) {
    r.lower < r.upper || (r.lowerInc && r.upperInc)
  }

  // ----- the operations

  function Max(a: Instant, b: Instant): Instant { if a >= b then a else b }

  function Min(a: Instant, b: Instant): Instant { if a <= b then a else b }

  predicate IsStrictlyLeftOf(a: Range, b: Range) {
    if a.upperInc || b.lowerInc then a.upper < b.lower else a.upper <= b.lower
  }

  predicate Overlaps(a: Range, b: Range) {
    if a.lower > b.upper || a.upper < b.lower then
      false
    else if a.lower < b.lower then
      a.upper > b.lower || (a.upper == b.lower && (a.upperInc || b.lowerInc))
    else if a.lower == b.lower && (a.lowerInc || b.lowerInc) then
      true
    else
      a.lower < b.upper || (a.lower == b.upper && (a.lowerInc || b.upperInc))
  }

  /** Joins two overlapping ranges.  The result is always closed below and open above. */
  function Add(a: Range, b: Range): Range {
    if Overlaps(a, b) then Interval(Min(a.lower, b.lower), Max(a.upper, b.upper), true, false) else a
  }

  function Sub(a: Range, b: Range): (ps: seq<Range>) {
    if !Overlaps(a, b) then
      [a]
    else if a.lower < b.lower then
      if a.upper <= b.upper then
        [Interval(a.lower, b.lower, a.lowerInc, !b.lowerInc)]
      else
        [Interval(a.lower, b.lower, a.lowerInc, !b.lowerInc), Interval(b.upper, a.upper, !b.upperInc, a.upperInc)]
    else if a.upper > b.upper then
      [Interval(b.upper, a.upper, !b.upperInc, a.upperInc)]
    else if a.upper == b.upper && a.upperInc && !b.upperInc then
      [Interval(b.upper, a.upper, !b.upperInc, a.upperInc)]
    else
      []
  }

  // ----- what they mean

  /** Between ranges closed below, overlapping is exactly meeting of the closed hulls, hence symmetric. */
  lemma {:induction false} OverlapsIsHullsMeet(a: Range, b: Range)
    requires a.lowerInc && b.lowerInc
    ensures Overlaps(a, b) <==> HullsMeet(a, b)
    ensures Overlaps(a, b) == Overlaps(b, a)
    ensures !Overlaps(a, b) ==> (IsStrictlyLeftOf(b, a) <==> b.upper < a.lower)
  {
  }

  /** A range is strictly left of another if and only if no instant is at most the end of the one and at least the start
      of the other, but for a common bound that both leave out. */
  lemma {:induction false} StrictlyLeftIff(a: Range, b: Range)
    ensures IsStrictlyLeftOf(a, b) <==>
            forall x :: NotPast(a, b, x) ==> x == b.lower == a.upper && !a.upperInc && !b.lowerInc
  {
    assert NotPast(a, b, a.upper) <==> b.lower <= a.upper;
    assert NotPast(a, b, b.lower) <==> b.lower <= a.upper;
  }

  /** The instant is at most the end of the one range and at least the start of the other. */
  predicate NotPast(a: Range, b: Range, x: Instant) {
    b.lower <= x <= a.upper
  }

  /** Whether a range reaches past its lower bound, or includes its upper one. */
  predicate Reaches(r: Range) {
    r.lower < r.upper || r.upperInc
  }

  /** Overlapping is symmetric if and only if the two ranges do not both start open at one instant, or both reach or
      neither. */
  lemma {:induction false} OverlapsSymmetricIff(a: Range, b: Range)
    ensures Overlaps(a, b) == Overlaps(b, a) <==>
            a.lower != b.lower || a.lowerInc || b.lowerInc || Reaches(a) == Reaches(b)
  {
  }

  /** An input where it is not: a range open on both sides against an empty one at its lower end. */
  lemma {:induction false} OverlapsNotSymmetric()
    ensures var a: Range, b: Range := Interval(5, 10, false, false), Interval(5, 5, false, false);
            !Overlaps(a, b) && Overlaps(b, a)
  {
  }

  /** Subtracting a non-empty range closed below is exact but for one instant: a closed upper bound of the
      minuend that the subtrahend shares without including it, when the minuend starts first. */
  lemma {:induction false} SubExact(a: Range, b: Range, x: Instant)
    requires b.lowerInc && NonEmpty(b)
    ensures (exists p :: p in Sub(a, b) && Contains(p, x)) <==>
            Contains(a, x) && !Contains(b, x) && !(x == a.upper && x == b.upper && a.lower < b.lower)
  {
    if Overlaps(a, b) && a.upper > b.upper {
      var right: Range := Interval(b.upper, a.upper, !b.upperInc, a.upperInc);
      assert right in Sub(a, b);
    }
    if !Overlaps(a, b) {
      assert a in Sub(a, b);
    }
    if Overlaps(a, b) && a.lower < b.lower {
      var left: Range := Interval(a.lower, b.lower, a.lowerInc, !b.lowerInc);
      assert left in Sub(a, b);
    }
    if Overlaps(a, b) && a.lower >= b.lower && a.upper == b.upper && a.upperInc && !b.upperInc {
      var last: Range := Interval(b.upper, a.upper, !b.upperInc, a.upperInc);
      assert last in Sub(a, b);
    }
  }

  /** Some piece of the difference holds an instant that the minuend does not. */
  ghost predicate SubAdds(a: Range, b: Range, x: Instant) {
    !Contains(a, x) && exists p :: p in Sub(a, b) && Contains(p, x)
  }

  /** A subtraction adds an instant if and only if it takes the empty range closed below at the open lower bound of a
      range that reaches past it, and then the instant is that bound. */
  lemma {:induction false} SubAddsIff(a: Range, b: Range, x: Instant)
    ensures SubAdds(a, b, x) <==> x == a.lower && !a.lowerInc && Reaches(a) && b == Interval(x, x, true, false)
  {
    var right: Range := if a.upper >= b.upper then Interval(b.upper, a.upper, !b.upperInc, a.upperInc) else a;
    if x == a.lower && !a.lowerInc && Reaches(a) && b == Interval(x, x, true, false) {
      assert right in Sub(a, b) && Contains(right, x);
    }
    if SubAdds(a, b, x) {
      var p :| p in Sub(a, b) && Contains(p, x);
    }
  }

  /** An input where it does. */
  lemma {:induction false} SubOfEmptyAddsAnInstant()
    ensures var a: Range, b: Range := Interval(5, 9, false, false), Interval(5, 5, true, false);
            !Contains(a, 5) && |Sub(a, b)| == 1 && Contains(Sub(a, b)[0], 5)
  {
  }
}
