/** Positional notation, most significant digit first: the arithmetic under base conversion. */
module Radix {

  predicate InBase(ds: seq<nat>, base: nat) {
    forall i :: 0 <= i < |ds| ==> ds[i] < base
  }

  function Value(ds: seq<nat>, base: nat): nat {
    if ds == [] then 0 else Value(ds[..|ds| - 1], base) * base + ds[|ds| - 1]
  }

  /** The digits of a number, without leading zeros; none for zero. */
  function DigitsOf(n: nat, base: nat): (ds: seq<nat>)
    requires base >= 2
    ensures InBase(ds, base)
    ensures ds == [] <==> n == 0
    ensures ds != [] ==> ds[0] != 0
  {
    if n == 0 then
      []
    else
      DivSmaller(n, base);
      DigitsOf(n / base, base) + [n % base]
  }

  lemma {:induction false} DivSmaller(n: nat, base: nat)
    requires base >= 2 && n > 0
    ensures 0 <= n / base < n && n == (n / base) * base + n % base
    ensures n / base == 0 ==> n % base == n
  {
    assert n == base * (n / base) + n % base;
    assert base * (n / base) >= 2 * (n / base);
  }

  lemma {:induction false} MulGap(base: nat, d: int)
    ensures d >= 1 ==> base * d >= base
    ensures d <= -1 ==> base * d <= 0 - base
  {
    if d >= 1 {
      assert base * d == base + base * (d - 1);
      assert base * (d - 1) >= 0;
    } else if d <= -1 {
      assert base * d == 0 - base + base * (d + 1);
      assert base * (-(d + 1)) >= 0;
    }
  }

  lemma {:induction false} DivModUnique(q: nat, r: nat, base: nat)
    requires r < base
    ensures (q * base + r) / base == q && (q * base + r) % base == r
  {
    var n := q * base + r;
    var q', r' := n / base, n % base;
    assert n == base * q' + r';
    assert base * (q - q') == r' - r;
    MulGap(base, q - q');
  }

  /** The digits of a number denote it. */
  lemma {:induction false} ValueOfDigits(n: nat, base: nat)
    requires base >= 2
    ensures Value(DigitsOf(n, base), base) == n
  {
    if n > 0 {
      DivSmaller(n, base);
      ValueOfDigits(n / base, base);
      var ds := DigitsOf(n, base);
      assert ds[..|ds| - 1] == DigitsOf(n / base, base);
    }
  }

  function Power(base: nat, k: nat): nat {
    if k == 0 then 1 else base * Power(base, k - 1)
  }

  /** The first digit weighs most: as much as the base to the number of digits after it. */
  lemma {:induction false} FirstDigitWeighsMost(d: nat, ds: seq<nat>, base: nat)
    ensures Value([d] + ds, base) == d * Power(base, |ds|) + Value(ds, base)
    decreases |ds|
  {
    var all := [d] + ds;
    if ds == [] {
      assert all[..0] == [];
    } else {
      var init, last, p := ds[..|ds| - 1], ds[|ds| - 1], Power(base, |ds| - 1);
      assert all[..|all| - 1] == [d] + init;
      FirstDigitWeighsMost(d, init, base);
      assert (d * p + Value(init, base)) * base == d * (base * p) + Value(init, base) * base;
    }
  }

  lemma {:induction false} ValuePositive(ds: seq<nat>, base: nat)
    requires base >= 2 && ds != [] && ds[0] != 0
    ensures Value(ds, base) > 0
  {
    if |ds| > 1 {
      ValuePositive(ds[..|ds| - 1], base);
      assert Value(ds[..|ds| - 1], base) * base >= 1;
    }
  }

  /** Digits without a leading zero are determined by their value. */
  lemma {:induction false} DigitsOfValue(ds: seq<nat>, base: nat)
    requires base >= 2 && InBase(ds, base) && (ds != [] ==> ds[0] != 0)
    ensures DigitsOf(Value(ds, base), base) == ds
  {
    if ds != [] {
      var init, last := ds[..|ds| - 1], ds[|ds| - 1];
      ValuePositive(ds, base);
      DigitsOfValue(init, base);
      DivModUnique(Value(init, base), last, base);
      assert ds == init + [last];
    }
  }

  function Zeros(k: nat): (z: seq<nat>)
    ensures |z| == k && forall i :: 0 <= i < k ==> z[i] == 0
  {
    seq(k, i => 0)
  }

  lemma {:induction false} LeadingZerosAddNothing(k: nat, ds: seq<nat>, base: nat)
    ensures Value(Zeros(k) + ds, base) == Value(ds, base)
    decreases k + |ds|
  {
    var all := Zeros(k) + ds;
    if ds != [] {
      assert all[..|all| - 1] == Zeros(k) + ds[..|ds| - 1];
      LeadingZerosAddNothing(k, ds[..|ds| - 1], base);
    } else if k > 0 {
      assert all[..|all| - 1] == Zeros(k - 1) + [];
      LeadingZerosAddNothing(k - 1, [], base);
    }
  }

  /** How many zeros a digit string starts with. */
  function LeadingZeros(ds: seq<nat>): (k: nat)
    ensures k <= |ds| && forall i :: 0 <= i < k ==> ds[i] == 0
    ensures k < |ds| ==> ds[k] != 0
  {
    if ds == [] || ds[0] != 0 then 0 else 1 + LeadingZeros(ds[1..])
  }

  /** Every digit string is its leading zeros followed by the digits of its value. */
  lemma {:induction false} Decompose(ds: seq<nat>, base: nat)
    requires base >= 2 && InBase(ds, base)
    ensures ds == Zeros(LeadingZeros(ds)) + DigitsOf(Value(ds, base), base)
  {
    var k := LeadingZeros(ds);
    var rest := ds[k..];
    assert ds == Zeros(k) + rest;
    LeadingZerosAddNothing(k, rest, base);
    DigitsOfValue(rest, base);
  }

  lemma {:induction false} LeadingZerosOf(k: nat, ds: seq<nat>)
    requires ds != [] ==> ds[0] != 0
    ensures LeadingZeros(Zeros(k) + ds) == k
  {
    if k == 0 {
      assert Zeros(k) + ds == ds;
    } else {
      assert (Zeros(k) + ds)[1..] == Zeros(k - 1) + ds;
      LeadingZerosOf(k - 1, ds);
    }
  }

  lemma {:induction false} ZeroIsAllZeros(ds: seq<nat>, base: nat)
    requires base >= 2 && InBase(ds, base)
    ensures Value(ds, base) == 0 <==> LeadingZeros(ds) == |ds|
  {
    Decompose(ds, base);
    assert |ds| == LeadingZeros(ds) + |DigitsOf(Value(ds, base), base)|;
  }
}
