/** Base58 and the addresses built on it (`src/aleph/chains/nuls_aleph_sdk.py`), after sections 3 and 4 of
    draft-msporny-base58. */
module Base58 {
  import opened Wrappers
  import opened Radix

  type byte = x: nat | x < 256

  const B58_DIGITS: string := "123456789" + "ABCDEFGH" + "JKLMN" + "PQRSTUVWXYZ" + "abcdefghijk" + "mnopqrstuvwxyz"

  datatype DecodeError = InvalidCharacter(c: char)

  // ----- the alphabet

  /** The position of a character in a string, if any. */
  function IndexIn(s: string, c: char): (i: Option<nat>)
    ensures i.Some? ==> i.value < |s| && s[i.value] == c
    ensures i.None? ==> c !in s
  {
    if s == [] then None
    else if s[0] == c then Some(0)
    else match IndexIn(s[1..], c)
      case Some(i) => Some(i + 1)
      case None => None
  }

  function DigitOf(c: char): Option<nat> {
    IndexIn(B58_DIGITS, c)
  }

  predicate OverAlphabet(s: string) {
    forall c :: c in s ==> c in B58_DIGITS
  }

  function ToChars(ds: seq<nat>): (s: string)
    requires InBase(ds, 58)
    ensures |s| == |ds| && forall i :: 0 <= i < |ds| ==> s[i] == B58_DIGITS[ds[i]]
  {
    seq(|ds|, i requires 0 <= i < |ds| => B58_DIGITS[ds[i]])
  }

  function ToDigits(s: string): (ds: seq<nat>)
    requires OverAlphabet(s)
    ensures |ds| == |s| && InBase(ds, 58)
    ensures forall i :: 0 <= i < |s| ==> B58_DIGITS[ds[i]] == s[i]
  {
    seq(|s|, i requires 0 <= i < |s| => assert s[i] in s; DigitOf(s[i]).value)
  }

  lemma {:induction false} DigitCode(i: nat)
    requires i < 9
    ensures "123456789"[i] as int == 49 + i
  {
  }

  lemma {:induction false} UpperCode(i: nat)
    requires i < 11
    ensures i < 8 ==> "ABCDEFGH"[i] as int == 65 + i
    ensures i < 5 ==> "JKLMN"[i] as int == 74 + i
    ensures "PQRSTUVWXYZ"[i] as int == 80 + i
  {
  }

  lemma {:induction false} LowerCode(i: nat)
    requires i < 14
    ensures i < 11 ==> "abcdefghijk"[i] as int == 97 + i
    ensures "mnopqrstuvwxyz"[i] as int == 109 + i
  {
  }

  /** The code of each character of the alphabet. */
  lemma {:induction false} CharacterCode(i: nat)
    requires i < 58
    ensures B58_DIGITS[i] as int ==
            if i < 9 then 49 + i else if i < 17 then 56 + i else if i < 22 then 57 + i
            else if i < 33 then 58 + i else if i < 44 then 64 + i else 65 + i
  {
    var s := B58_DIGITS;
    if i < 9 {
      assert s[i] == "123456789"[i];
      DigitCode(i);
    } else if i < 17 {
      assert s[i] == "ABCDEFGH"[i - 9];
      UpperCode(i - 9);
    } else if i < 22 {
      assert s[i] == "JKLMN"[i - 17];
      UpperCode(i - 17);
    } else if i < 33 {
      assert s[i] == "PQRSTUVWXYZ"[i - 22];
      UpperCode(i - 22);
    } else if i < 44 {
      assert s[i] == "abcdefghijk"[i - 33];
      LowerCode(i - 33);
    } else {
      assert s[i] == "mnopqrstuvwxyz"[i - 44];
      LowerCode(i - 44);
    }
  }

  lemma {:induction false} AlphabetLength()
    ensures |B58_DIGITS| == 58
  {
  }

  /** The codes ascend, so no character occurs twice. */
  lemma {:induction false} SameCharacter(i: nat, j: nat)
    requires i < 58 && j < 58 && B58_DIGITS[i] == B58_DIGITS[j]
    ensures i == j
  {
    hide B58_DIGITS;
    AlphabetLength();
    CharacterCode(i);
    CharacterCode(j);
  }

  lemma {:induction false} DigitOfCharacter(i: nat)
    requires i < 58
    ensures DigitOf(B58_DIGITS[i]) == Some(i)
  {
    hide IndexIn, B58_DIGITS;
    AlphabetLength();
    assert B58_DIGITS[i] in B58_DIGITS;
    SameCharacter(i, DigitOf(B58_DIGITS[i]).value);
  }

  lemma {:induction false} DigitsOfChars(ds: seq<nat>)
    requires InBase(ds, 58)
    ensures OverAlphabet(ToChars(ds)) && ToDigits(ToChars(ds)) == ds
  {
    forall i | 0 <= i < |ds| ensures ToChars(ds)[i] in B58_DIGITS && DigitOf(ToChars(ds)[i]) == Some(ds[i]) {
      DigitOfCharacter(ds[i]);
    }
  }

  lemma {:induction false} CharsOfDigits(s: string)
    requires OverAlphabet(s)
    ensures ToChars(ToDigits(s)) == s
  {
  }

  // ----- bytes and hexadecimal digits

  function Hexlify(b: seq<byte>): (h: seq<nat>)
    ensures |h| == 2 * |b| && InBase(h, 16)
  {
    if b == [] then [] else Hexlify(b[..|b| - 1]) + [b[|b| - 1] / 16, b[|b| - 1] % 16]
  }

  function Unhexlify(h: seq<nat>): (b: seq<byte>)
    requires InBase(h, 16) && |h| % 2 == 0
    ensures 2 * |b| == |h|
  {
    if h == [] then [] else Unhexlify(h[..|h| - 2]) + [h[|h| - 2] * 16 + h[|h| - 1]]
  }

  /** The hexadecimal spelling of a byte string has the byte string's value. */
  lemma {:induction false} HexlifyValue(b: seq<byte>)
    ensures Value(Hexlify(b), 16) == Value(b, 256)
  {
    if b != [] {
      var init, last := b[..|b| - 1], b[|b| - 1];
      HexlifyValue(init);
      var h := Hexlify(b);
      assert h[..|h| - 1] == Hexlify(init) + [last / 16];
      assert h[..|h| - 1][..|h| - 2] == Hexlify(init);
    }
  }

  lemma {:induction false} UnhexlifyValue(h: seq<nat>)
    requires InBase(h, 16) && |h| % 2 == 0
    ensures Value(Unhexlify(h), 256) == Value(h, 16)
    ensures h != [] ==> Unhexlify(h)[0] == 16 * h[0] + h[1]
  {
    if h != [] {
      UnhexlifyValue(h[..|h| - 2]);
      var b := Unhexlify(h);
      assert b[..|b| - 1] == Unhexlify(h[..|h| - 2]);
      assert h[..|h| - 1][..|h| - 2] == h[..|h| - 2];
    }
  }

  /** `"%x" % n`, made even in length: zero is spelled with one digit. */
  function EvenHex(n: nat): (h: seq<nat>)
    ensures InBase(h, 16) && |h| % 2 == 0
  {
    var h := if n == 0 then [0] else DigitsOf(n, 16);
    if |h| % 2 == 1 then [0] + h else h
  }

  lemma {:induction false} BytesOfNumber(n: nat)
    ensures Unhexlify(EvenHex(n)) == if n == 0 then [0] else DigitsOf(n, 256)
  {
    var digits := if n == 0 then [0] else DigitsOf(n, 16);
    var h := EvenHex(n);
    ValueOfDigits(n, 16);
    LeadingZerosAddNothing(1, digits, 16);
    assert Zeros(1) == [0];
    assert Value(h, 16) == n by {
      if n == 0 {
        assert Value(digits, 16) == 0;
      }
    }
    UnhexlifyValue(h);
    if n > 0 {
      DigitsOfValue(Unhexlify(h), 256);
    }
  }

  // ----- encoding and decoding

  function Ones(k: nat): (s: string)
    ensures |s| == k && forall i :: 0 <= i < k ==> s[i] == '1'
  {
    seq(k, i => '1')
  }

  function Encode(b: seq<byte>): string {
    Ones(LeadingZeros(b)) + ToChars(DigitsOf(Value(Hexlify(b), 16), 58))
  }

  function LeadingOnes(s: string): (k: nat)
    ensures k <= |s| && forall i :: 0 <= i < k ==> s[i] == '1'
    ensures k < |s| ==> s[k] != '1'
  {
    if s == [] || s[0] != '1' then 0 else 1 + LeadingOnes(s[1..])
  }

  function ZeroBytes(k: nat): seq<byte> {
    seq(k, i => 0)
  }

  function FirstInvalid(s: string): (c: Option<char>)
    ensures c.None? <==> OverAlphabet(s)
    ensures c.Some? ==> c.value in s && c.value !in B58_DIGITS
  {
    if s == [] then None
    else if DigitOf(s[0]).None? then Some(s[0])
    else FirstInvalid(s[1..])
  }

  function Decode(s: string): Result<seq<byte>, DecodeError> {
    if s == [] then Ok([])
    else match FirstInvalid(s)
      case Some(c) => Err(InvalidCharacter(c))
      case None =>
        Ok(ZeroBytes(LeadingOnes(s[..|s| - 1])) + Unhexlify(EvenHex(Value(ToDigits(s), 58))))
  }

  lemma {:induction false} OnesAreZeros(s: string)
    requires OverAlphabet(s)
    ensures LeadingZeros(ToDigits(s)) == LeadingOnes(s)
  {
    DigitOfCharacter(0);
    CharacterCode(0);
    if s != [] {
      assert s[0] in s;
      assert ToDigits(s)[1..] == ToDigits(s[1..]);
      OnesAreZeros(s[1..]);
    }
  }

  lemma {:induction false} AllOnesIsZero(s: string)
    requires OverAlphabet(s)
    ensures Value(ToDigits(s), 58) == 0 <==> LeadingOnes(s) == |s|
  {
    OnesAreZeros(s);
    ZeroIsAllZeros(ToDigits(s), 58);
  }

  /** Decoding is one zero byte a leading one, then the bytes of the number. */
  lemma {:induction false} DecodeShape(s: string)
    requires OverAlphabet(s)
    ensures Decode(s) == Ok(ZeroBytes(LeadingOnes(s)) + DigitsOf(Value(ToDigits(s), 58), 256))
  {
    var n := Value(ToDigits(s), 58);
    AllOnesIsZero(s);
    if s == [] {
      assert ZeroBytes(0) + DigitsOf(0, 256) == [];
    } else {
      InitOnes(s);
      BytesOfNumber(n);
      if n == 0 {
        assert ZeroBytes(|s| - 1) + [0] == ZeroBytes(|s|) + DigitsOf(0, 256);
      }
    }
  }

  lemma {:induction false} InitOnes(s: string)
    requires s != []
    ensures LeadingOnes(s[..|s| - 1]) == if LeadingOnes(s) == |s| then |s| - 1 else LeadingOnes(s)
  {
    if s[0] == '1' && |s| > 1 {
      assert s[..|s| - 1][1..] == s[1..][..|s| - 2];
      InitOnes(s[1..]);
    }
  }

  lemma {:induction false} OnesThenChars(k: nat, ds: seq<nat>)
    requires InBase(ds, 58)
    ensures Ones(k) + ToChars(ds) == ToChars(Zeros(k) + ds)
  {
    CharacterCode(0);
  }

  /** Encoding keeps the number that the bytes spell, and the leading zeros as leading ones. */
  lemma {:induction false} EncodeMeans(b: seq<byte>)
    ensures OverAlphabet(Encode(b)) && Value(ToDigits(Encode(b)), 58) == Value(b, 256)
    ensures LeadingOnes(Encode(b)) == LeadingZeros(b)
  {
    var k, n := LeadingZeros(b), Value(b, 256);
    Decompose(b, 256);
    EncodeShape(k, n);
    var ds := Zeros(k) + DigitsOf(n, 58);
    DigitsOfChars(ds);
    LeadingZerosAddNothing(k, DigitsOf(n, 58), 58);
    ValueOfDigits(n, 58);
    LeadingZerosOf(k, DigitsOf(n, 58));
    OnesAreZeros(Encode(b));
  }

  /** Decoding undoes encoding, on every byte string. */
  lemma {:induction false} DecodeEncode(b: seq<byte>)
    ensures Decode(Encode(b)) == Ok(b)
  {
    var k, n := LeadingZeros(b), Value(b, 256);
    HexlifyValue(b);
    var ds := DigitsOf(n, 58);
    var s := Encode(b);
    var padded := Zeros(k) + ds;
    OnesThenChars(k, ds);
    DigitsOfChars(padded);
    DecodeShape(s);
    OnesAreZeros(s);
    LeadingZerosOf(k, ds);
    LeadingZerosAddNothing(k, ds, 58);
    ValueOfDigits(n, 58);
    Decompose(b, 256);
    assert Zeros(k) == ZeroBytes(k);
  }

  /** Encoding a byte string given as zeros and a number. */
  lemma {:induction false} EncodeShape(k: nat, n: nat)
    ensures Encode(Zeros(k) + DigitsOf(n, 256)) == ToChars(Zeros(k) + DigitsOf(n, 58))
  {
    var tail := DigitsOf(n, 256);
    LeadingZerosOf(k, tail);
    LeadingZerosAddNothing(k, tail, 256);
    ValueOfDigits(n, 256);
    var b: seq<byte> := Zeros(k) + tail;
    HexlifyValue(b);
    OnesThenChars(k, DigitsOf(n, 58));
  }

  /** Encoding undoes decoding, on every string over the alphabet. */
  lemma {:induction false} EncodeDecode(s: string)
    requires OverAlphabet(s)
    ensures Decode(s).Ok? && Encode(Decode(s).value) == s
  {
    var k, n := LeadingOnes(s), Value(ToDigits(s), 58);
    DecodeShape(s);
    assert ZeroBytes(k) == Zeros(k);
    EncodeShape(k, n);
    OnesAreZeros(s);
    Decompose(ToDigits(s), 58);
    CharsOfDigits(s);
  }

  // ----- the loops

  function Reversed<T>(s: seq<T>): (r: seq<T>)
    ensures |r| == |s| && forall i :: 0 <= i < |s| ==> r[i] == s[|s| - 1 - i]
  {
    seq(|s|, i requires 0 <= i < |s| => s[|s| - 1 - i])
  }

  method B58Encode(b: seq<byte>) returns (r: string)
    ensures r == Encode(b)
  {
    var n := Value(Hexlify(b), 16);
    var res: string := [];
    while n > 0
      invariant ToChars(DigitsOf(n, 58)) + Reversed(res) == ToChars(DigitsOf(Value(Hexlify(b), 16), 58))
    {
      DivSmaller(n, 58);
      ToCharsSnoc(DigitsOf(n / 58, 58), n % 58);
      ReversedSnoc(ToChars(DigitsOf(n / 58, 58)), res, B58_DIGITS[n % 58]);
      res := res + [B58_DIGITS[n % 58]];
      n := n / 58;
    }
    var pad := 0;
    while pad < |b| && b[pad] == 0
      invariant pad <= |b| && pad + LeadingZeros(b[pad..]) == LeadingZeros(b)
    {
      assert b[pad..][1..] == b[pad + 1..];
      pad := pad + 1;
    }
    r := Ones(pad) + Reversed(res);
  }

  lemma {:induction false} ToCharsSnoc(ds: seq<nat>, d: nat)
    requires InBase(ds, 58) && d < 58
    ensures InBase(ds + [d], 58) && ToChars(ds + [d]) == ToChars(ds) + [B58_DIGITS[d]]
  {
  }

  lemma {:induction false} ReversedSnoc<T>(a: seq<T>, res: seq<T>, c: T)
    ensures a + Reversed(res + [c]) == (a + [c]) + Reversed(res)
  {
    assert Reversed(res + [c]) == [c] + Reversed(res);
  }

  method B58Decode(s: string) returns (r: Result<seq<byte>, DecodeError>)
    ensures r == Decode(s)
    ensures r.Ok? <==> OverAlphabet(s)
  {
    hide IndexIn, B58_DIGITS, ToDigits, Unhexlify, EvenHex, ZeroBytes;
    if s == [] {
      return Ok([]);
    }
    var n := 0;
    for i := 0 to |s|
      invariant OverAlphabet(s[..i]) && n == Value(ToDigits(s[..i]), 58)
      invariant FirstInvalid(s) == FirstInvalid(s[i..])
    {
      assert s[i..][0] == s[i] && s[i..][1..] == s[i + 1..];
      var digit := DigitOf(s[i]);
      if digit.None? {
        return Err(InvalidCharacter(s[i]));
      }
      assert s[..i + 1] == s[..i] + [s[i]];
      AppendDigit(s[..i], s[i]);
      n := n * 58 + digit.value;
    }
    assert s[..|s|] == s;
    var pad := 0;
    while pad < |s| - 1 && s[pad] == '1'
      invariant pad <= |s| - 1 && pad + LeadingOnes(s[..|s| - 1][pad..]) == LeadingOnes(s[..|s| - 1])
    {
      assert s[..|s| - 1][pad..][1..] == s[..|s| - 1][pad + 1..];
      pad := pad + 1;
    }
    r := Ok(ZeroBytes(pad) + Unhexlify(EvenHex(n)));
  }

  lemma {:induction false} AppendDigit(s: string, c: char)
    requires OverAlphabet(s) && DigitOf(c).Some?
    ensures OverAlphabet(s + [c]) && ToDigits(s + [c]) == ToDigits(s) + [DigitOf(c).value]
    ensures Value(ToDigits(s + [c]), 58) == Value(ToDigits(s), 58) * 58 + DigitOf(c).value
  {
    assert OverAlphabet(s + [c]);
    assert ToDigits(s + [c]) == ToDigits(s) + [DigitOf(c).value];
    assert (ToDigits(s) + [DigitOf(c).value])[..|s|] == ToDigits(s);
  }

  // ----- addresses

  function Pow2(n: nat): nat {
    if n == 0 then 1 else 2 * Pow2(n - 1)
  }

  /** The exclusive or of the lowest `n` bits. */
  function XorBelow(a: nat, b: nat, n: nat): (r: nat)
    ensures r < Pow2(n)
    decreases n
  {
    if n == 0 then 0 else (if a % 2 == b % 2 then 0 else 1) + 2 * XorBelow(a / 2, b / 2, n - 1)
  }

  function Xor(a: byte, b: byte): byte {
    assert Pow2(8) == 256 by { assert Pow2(4) == 16; }
    XorBelow(a, b, 8)
  }

  function XorOf(body: seq<byte>): byte {
    if body == [] then 0 else Xor(XorOf(body[..|body| - 1]), body[|body| - 1])
  }

  method GetXor(body: seq<byte>) returns (x: byte)
    ensures x == XorOf(body)
  {
    x := 0;
    for i := 0 to |body|
      invariant x == XorOf(body[..i])
    {
      assert body[..i + 1][..i] == body[..i];
      x := Xor(x, body[i]);
    }
    assert body[..|body|] == body;
  }

  /** A hash followed by its checksum byte, in base 58. */
  function AddressFromHash(hash: seq<byte>): string {
    Encode(hash + [XorOf(hash)])
  }

  /** Everything but the last byte of what the address decodes to. */
  function HashFromAddress(address: string): Result<seq<byte>, DecodeError> {
    match Decode(address)
    case Ok(b) => Ok(if b == [] then [] else b[..|b| - 1])
    case Err(e) => Err(e)
  }

  /** The hash comes back from its address.  The bytes of an address are the hash and a last one that cancels them under
      exclusive or. */
  lemma {:induction false} AddressRoundTrip(hash: seq<byte>)
    ensures HashFromAddress(AddressFromHash(hash)) == Ok(hash)
    ensures Decode(AddressFromHash(hash)) == Ok(hash + [XorOf(hash)]) && XorOf(hash + [XorOf(hash)]) == 0
  {
    var body := hash + [XorOf(hash)];
    DecodeEncode(body);
    assert body[..|body| - 1] == hash;
    XorLaws(XorOf(hash), 0, 0);
  }

  /** Whether a bit of a number is set. */
  predicate Bit(x: nat, i: nat)
    decreases i
  {
    if i == 0 then x % 2 == 1 else Bit(x / 2, i - 1)
  }

  lemma {:induction false} XorBelowBits(a: nat, b: nat, n: nat, i: nat)
    requires i < n
    ensures Bit(XorBelow(a, b, n), i) <==> Bit(a, i) != Bit(b, i)
    decreases n
  {
    var rest := XorBelow(a / 2, b / 2, n - 1);
    assert XorBelow(a, b, n) / 2 == rest;
    if i > 0 {
      XorBelowBits(a / 2, b / 2, n - 1, i - 1);
    }
  }

  /** Each bit of the exclusive or is set if and only if it is set in exactly one operand. */
  lemma {:induction false} XorBits(a: byte, b: byte, i: nat)
    requires i < 8
    ensures Bit(Xor(a, b), i) <==> Bit(a, i) != Bit(b, i)
  {
    XorBelowBits(a, b, 8, i);
  }

  lemma {:induction false} XorBelowLaws(a: nat, b: nat, c: nat, n: nat)
    requires a < Pow2(n)
    ensures XorBelow(XorBelow(a, b, n), c, n) == XorBelow(a, XorBelow(b, c, n), n)
    ensures XorBelow(a, 0, n) == a && XorBelow(a, a, n) == 0 && XorBelow(a, b, n) == XorBelow(b, a, n)
    decreases n
  {
    if n > 0 {
      XorBelowLaws(a / 2, b / 2, c / 2, n - 1);
      assert XorBelow(a, b, n) / 2 == XorBelow(a / 2, b / 2, n - 1);
      assert XorBelow(b, c, n) / 2 == XorBelow(b / 2, c / 2, n - 1);
    }
  }

  lemma {:induction false} XorLaws(a: byte, b: byte, c: byte)
    ensures Xor(Xor(a, b), c) == Xor(a, Xor(b, c))
    ensures Xor(a, 0) == a && Xor(a, a) == 0 && Xor(a, b) == Xor(b, a)
  {
    assert Pow2(8) == 256 by { assert Pow2(4) == 16; }
    XorBelowLaws(a, b, c, 8);
  }

  /** The checksum of two parts is the exclusive or of their checksums, and that of one byte is the byte. */
  lemma {:induction false} XorOfParts(a: seq<byte>, b: seq<byte>)
    ensures XorOf(a + b) == Xor(XorOf(a), XorOf(b))
    ensures |a| == 1 ==> XorOf(a) == a[0]
    decreases |b|
  {
    hide Xor;
    if b == [] {
      assert a + b == a;
      XorLaws(XorOf(a), 0, 0);
    } else {
      var n := |b| - 1;
      assert (a + b)[..|a + b| - 1] == a + b[..n] && (a + b)[|a + b| - 1] == b[n];
      XorOfParts(a, b[..n]);
      XorLaws(XorOf(a), XorOf(b[..n]), b[n]);
    }
    if |a| == 1 {
      assert a[..0] == [];
      XorLaws(a[0], 0, 0);
    }
  }
}
