/** Variable-length integers, length-prefixed fields and the signature record of
    `src/aleph/chains/nuls_aleph_sdk.py`. */
module NulsFraming {
  import opened Wrappers
  import opened Base58

  /** The exceptions: an index out of range, too few bytes or too large a number for `struct`, a missing field. */
  datatype FramingError = IndexError | StructError | TypeError

  // ----- little-endian numbers

  function Pow256(k: nat): nat {
    if k == 0 then 1 else 256 * Pow256(k - 1)
  }

  function LittleEndian(n: nat, k: nat): (b: seq<byte>)
    ensures |b| == k
    decreases k
  {
    if k == 0 then [] else [n % 256] + LittleEndian(n / 256, k - 1)
  }

  function FromLittleEndian(b: seq<byte>): nat {
    if b == [] then 0 else b[0] + 256 * FromLittleEndian(b[1..])
  }

  lemma {:induction false} LittleEndianRoundTrip(n: nat, k: nat)
    requires n < Pow256(k)
    ensures FromLittleEndian(LittleEndian(n, k)) == n
    decreases k
  {
    if k > 0 {
      LittleEndianRoundTrip(n / 256, k - 1);
      assert LittleEndian(n, k)[1..] == LittleEndian(n / 256, k - 1);
    }
  }

  lemma {:induction false} LittleEndianUnique(b: seq<byte>)
    ensures LittleEndian(FromLittleEndian(b), |b|) == b && FromLittleEndian(b) < Pow256(|b|)
  {
    if b != [] {
      LittleEndianUnique(b[1..]);
      var n := FromLittleEndian(b);
      assert n / 256 == FromLittleEndian(b[1..]) && n % 256 == b[0];
      assert b == [b[0]] + b[1..];
    }
  }

  /** Later bytes weigh more: each is worth 256 times the one before. */
  lemma {:induction false} LaterBytesWeighMore(b: seq<byte>, x: byte)
    ensures FromLittleEndian(b + [x]) == FromLittleEndian(b) + x * Pow256(|b|)
    ensures FromLittleEndian([x]) == x
  {
    if b == [] {
      assert b + [x] == [x];
    } else {
      LaterBytesWeighMore(b[1..], x);
      assert (b + [x])[1..] == b[1..] + [x];
    }
  }

  lemma {:induction false} Powers()
    ensures Pow256(1) == 0x100 && Pow256(2) == 0x1_0000 && Pow256(4) == 0x1_0000_0000
    ensures Pow256(8) == 0x1_0000_0000_0000_0000
  {
    assert Pow256(3) == 0x100_0000;
    assert Pow256(5) == 0x100_0000_0000;
    assert Pow256(6) == 0x1_0000_0000_0000;
    assert Pow256(7) == 0x100_0000_0000_0000;
  }

  // ----- variable-length integers

  function SizeOf(value: int): nat {
    if value < 0 then 9
    else if value < 253 then 1
    else if value <= 0xFFFF then 3
    else if value <= 0xFFFF_FFFF then 5
    else 9
  }

  const MAX_U64: nat := 0xFFFF_FFFF_FFFF_FFFF

  /** One byte, or a marker and a little-endian number; `struct` refuses what does not fit in 64 bits. */
  function EncodeVarInt(value: int): Result<seq<byte>, FramingError> {
    var size := SizeOf(value);
    if size == 1 then Ok([value])
    else if size == 3 then Ok([253, value % 256, value / 256])
    else if size == 5 then Ok([254] + LittleEndian(value, 4))
    else if value < 0 || value > MAX_U64 then Err(StructError)
    else Ok([255] + LittleEndian(value, 8))
  }

  /** A Python slice with non-negative bounds: whatever part of it exists. */
  function Slice(b: seq<byte>, from: nat, to: nat): seq<byte> {
    if from >= |b| || to <= from then [] else if to <= |b| then b[from..to] else b[from..]
  }

  function Unpack(b: seq<byte>, from: nat, k: nat): Result<nat, FramingError> {
    if |Slice(b, from, from + k)| == k then Ok(FromLittleEndian(Slice(b, from, from + k))) else Err(StructError)
  }

  /** The value at an offset and the number of bytes it takes. */
  function ParseVarInt(buf: seq<byte>, offset: nat): Result<(nat, nat), FramingError> {
    if offset >= |buf| then
      Err(IndexError)
    else if buf[offset] < 253 then
      Ok((buf[offset], 1))
    else if buf[offset] == 253 then
      if offset + 2 < |buf| then Ok((buf[offset + 1] as nat + 256 * (buf[offset + 2] as nat), 3)) else Err(IndexError)
    else
      var k := if buf[offset] == 254 then 4 else 8;
      match Unpack(buf, offset + 1, k)
      case Ok(v) => Ok((v, k + 1))
      case Err(e) => Err(e)
  }

  lemma {:induction false} EncodeVarIntOkIff(value: int)
    ensures EncodeVarInt(value).Ok? <==> 0 <= value <= MAX_U64
    ensures EncodeVarInt(value).Ok? ==> |EncodeVarInt(value).value| == SizeOf(value)
  {
  }

  lemma {:induction false} UnpackMiddle(prefix: seq<byte>, marker: byte, b: seq<byte>, suffix: seq<byte>)
    requires b != []
    ensures Unpack(prefix + ([marker] + b) + suffix, |prefix| + 1, |b|) == Ok(FromLittleEndian(b))
  {
    var all := prefix + ([marker] + b) + suffix;
    assert all[|prefix| + 1..|prefix| + 1 + |b|] == b;
  }

  /** A 64-bit value parses back at any offset, with the size `SizeOf` announces. */
  lemma {:induction false} VarIntRoundTrip(value: nat, prefix: seq<byte>, suffix: seq<byte>)
    requires value <= MAX_U64
    ensures EncodeVarInt(value).Ok?
    ensures ParseVarInt(prefix + EncodeVarInt(value).value + suffix, |prefix|) == Ok((value, SizeOf(value)))
  {
    EncodeVarIntOkIff(value);
    Powers();
    var code := EncodeVarInt(value).value;
    var all := prefix + code + suffix;
    assert all[|prefix|] == code[0];
    if SizeOf(value) == 3 {
      assert all[|prefix| + 1] == code[1] && all[|prefix| + 2] == code[2];
    } else if SizeOf(value) == 5 {
      LittleEndianRoundTrip(value, 4);
      UnpackMiddle(prefix, 254, LittleEndian(value, 4), suffix);
    } else if SizeOf(value) == 9 {
      LittleEndianRoundTrip(value, 8);
      UnpackMiddle(prefix, 255, LittleEndian(value, 8), suffix);
    }
  }

  /** The layout: a value below 253 is its own byte; otherwise a marker, 253, 254 or 255, says that two, four or eight
      bytes follow, and those hold the value, least significant first. */
  lemma {:induction false} VarIntLayout(value: nat)
    requires value <= MAX_U64
    ensures EncodeVarInt(value).Ok?
    ensures var code := EncodeVarInt(value).value;
            if value < 253 then code == [value]
            else
              && |code| == (if value <= 0xFFFF then 3 else if value <= 0xFFFF_FFFF then 5 else 9)
              && code[0] == (if value <= 0xFFFF then 253 else if value <= 0xFFFF_FFFF then 254 else 255)
              && FromLittleEndian(code[1..]) == value
  {
    EncodeVarIntOkIff(value);
    Powers();
    var code := EncodeVarInt(value).value;
    if SizeOf(value) == 3 {
      LaterBytesWeighMore([code[1]], code[2]);
      assert code[1..] == [code[1]] + [code[2]];
    } else if SizeOf(value) == 5 {
      LittleEndianRoundTrip(value, 4);
      assert code[1..] == LittleEndian(value, 4);
    } else if SizeOf(value) == 9 {
      LittleEndianRoundTrip(value, 8);
      assert code[1..] == LittleEndian(value, 8);
    }
  }

  /** Whatever parses to a value takes at least `SizeOf` bytes, and exactly that many only as its encoding. */
  lemma {:induction false} VarIntMinimal(buf: seq<byte>, offset: nat)
    requires ParseVarInt(buf, offset).Ok?
    ensures var (value, size) := ParseVarInt(buf, offset).value;
            && value <= MAX_U64 && SizeOf(value) <= size && offset + size <= |buf|
            && (size == SizeOf(value) ==> EncodeVarInt(value) == Ok(buf[offset..offset + size]))
  {
    var (value, size) := ParseVarInt(buf, offset).value;
    if size >= 5 {
      WideMinimal(buf, offset, size - 1);
    } else if size == 3 {
      assert buf[offset..offset + 3] == [253, buf[offset + 1], buf[offset + 2]];
    } else {
      assert buf[offset..offset + 1] == [buf[offset]];
    }
  }

  lemma {:induction false} FirstAndRest<T>(s: seq<T>, from: nat, k: nat)
    requires from + k < |s|
    ensures s[from..from + k + 1] == [s[from]] + s[from + 1..from + 1 + k]
  {
  }

  lemma {:induction false} WideMinimal(buf: seq<byte>, offset: nat, k: nat)
    requires k == 4 || k == 8
    requires offset < |buf| && buf[offset] == (if k == 4 then 254 else 255) && Unpack(buf, offset + 1, k).Ok?
    ensures var value := Unpack(buf, offset + 1, k).value;
            && value < Pow256(k) && offset + k + 1 <= |buf|
            && buf[offset..offset + k + 1] == [buf[offset]] + LittleEndian(value, k)
            && value <= MAX_U64 && SizeOf(value) <= k + 1
            && (k + 1 == SizeOf(value) ==> EncodeVarInt(value) == Ok(buf[offset..offset + k + 1]))
  {
    hide LittleEndian, FromLittleEndian, Pow256;
    var b := Slice(buf, offset + 1, offset + 1 + k);
    LittleEndianUnique(b);
    Powers();
    FirstAndRest(buf, offset, k);
  }

  // ----- length-prefixed fields

  /** The bytes consumed and the field; without the size check the length is a single byte.  A field cut short
      by the end of the buffer is returned as far as it goes. */
  function ReadByLength(buffer: seq<byte>, cursor: nat, checkSize: bool): Result<(nat, seq<byte>), FramingError> {
    if checkSize then
      match ParseVarInt(buffer, cursor)
      case Ok((length, size)) => Ok((size + length, Slice(buffer, cursor + size, cursor + size + length)))
      case Err(e) => Err(e)
    else if cursor >= |buffer| then
      Err(IndexError)
    else
      Ok((1 + buffer[cursor] as nat, Slice(buffer, cursor + 1, cursor + 1 + buffer[cursor] as nat)))
  }

  function WriteWithLength(field: seq<byte>): Result<seq<byte>, FramingError> {
    if |field| < 253 then
      Ok([|field|] + field)
    else
      match EncodeVarInt(|field|)
      case Ok(code) => Ok(code + field)
      case Err(e) => Err(e)
  }

  lemma {:induction false} FieldWithin(prefix: seq<byte>, code: seq<byte>, field: seq<byte>, suffix: seq<byte>)
    requires code != []
    ensures var all := prefix + (code + field) + suffix;
            && all == prefix + code + (field + suffix) && all[|prefix|] == code[0]
            && Slice(all, |prefix| + |code|, |prefix| + |code| + |field|) == field
  {
    var all := prefix + (code + field) + suffix;
    assert field != [] ==> all[|prefix| + |code|..|prefix| + |code| + |field|] == field;
  }

  /** A field reads back from any position, consuming exactly what was written; a one-byte length reads it back
      exactly when the field is shorter than 253 bytes. */
  lemma {:induction false} FieldRoundTrip(field: seq<byte>, prefix: seq<byte>, suffix: seq<byte>)
    ensures WriteWithLength(field).Ok? <==> |field| <= MAX_U64
    ensures WriteWithLength(field).Ok? ==>
              var w := WriteWithLength(field).value;
              && ReadByLength(prefix + w + suffix, |prefix|, true) == Ok((|w|, field))
              && (ReadByLength(prefix + w + suffix, |prefix|, false) == Ok((|w|, field)) <==> |field| < 253)
  {
    hide Slice, ParseVarInt;
    EncodeVarIntOkIff(|field|);
    if |field| <= MAX_U64 {
      var code := EncodeVarInt(|field|).value;
      VarIntRoundTrip(|field|, prefix, field + suffix);
      FieldWithin(prefix, code, field, suffix);
      assert WriteWithLength(field).value == code + field;
      if |field| >= 253 {
        assert code[0] as nat + 1 < |code + field|;
      }
    }
  }

  /** A field that the end of the buffer cuts short is returned as far as it goes, with the length it should have. */
  lemma {:induction false} FieldCutShort(length: nat, part: seq<byte>, prefix: seq<byte>)
    requires |part| < length <= MAX_U64
    ensures EncodeVarInt(length).Ok?
    ensures ReadByLength(prefix + EncodeVarInt(length).value + part, |prefix|, true) ==
            Ok((SizeOf(length) + length, part))
  {
    hide ParseVarInt;
    EncodeVarIntOkIff(length);
    VarIntRoundTrip(length, prefix, part);
    var code := EncodeVarInt(length).value;
    assert part != [] ==> (prefix + code + part)[|prefix| + |code|..] == part;
  }

  /** A length that the end of the buffer cuts short does not parse. */
  lemma {:induction false} VarIntCutShort(value: nat, n: nat, prefix: seq<byte>)
    requires value <= MAX_U64 && n < SizeOf(value)
    ensures EncodeVarInt(value).Ok? && SizeOf(value) == |EncodeVarInt(value).value|
    ensures ParseVarInt(prefix + EncodeVarInt(value).value[..n], |prefix|) ==
            Err(if n == 0 || SizeOf(value) == 3 then IndexError else StructError)
  {
    EncodeVarIntOkIff(value);
    var buf := prefix + EncodeVarInt(value).value[..n];
    assert |buf| == |prefix| + n;
    if n > 0 {
      assert buf[|prefix|] == EncodeVarInt(value).value[0];
    }
  }

  // ----- the objects

  class VarInt {
    var value: Option<int>
    var originallyEncodedSize: nat

    constructor (v: Option<int>)
      ensures value == v && originallyEncodedSize == if v.Some? then SizeOf(v.value) else 1
    {
      value := v;
      originallyEncodedSize := if v.Some? then SizeOf(v.value) else 1;
    }

    /** Sets both fields from the buffer; on an error neither changes. */
    method Parse(buf: seq<byte>, offset: nat) returns (error: Option<FramingError>)
      modifies this
      ensures match ParseVarInt(buf, offset)
              case Ok((v, size)) => error.None? && value == Some(v) && originallyEncodedSize == size
              case Err(e) =>
                error == Some(e) && value == old(value)
                && originallyEncodedSize == old(originallyEncodedSize)
    {
      if offset >= |buf| {
        return Some(IndexError);
      }
      var first := buf[offset];
      if first < 253 {
        value, originallyEncodedSize := Some(first), 1;
      } else if first == 253 {
        if offset + 2 >= |buf| {
          return Some(IndexError);
        }
        value, originallyEncodedSize := Some(buf[offset + 1] as int + 256 * (buf[offset + 2] as int)), 3;
      } else {
        var k := if first == 254 then 4 else 8;
        var v := Unpack(buf, offset + 1, k);
        if v.Err? {
          return Some(v.error);
        }
        value, originallyEncodedSize := Some(v.value), k + 1;
      }
      error := None;
    }
  }

  /** A serialized signature record: public key, algorithm byte 0, signature. */
  function SerializeRecord(pubKey: seq<byte>, sigSer: seq<byte>): Result<seq<byte>, FramingError> {
    match (WriteWithLength(pubKey), WriteWithLength(sigSer))
    case (Ok(p), Ok(s)) => Ok(p + [0] + s)
    case (Err(e), _) => Err(e)
    case (_, Err(e)) => Err(e)
  }

  datatype Record = Record(pubKey: seq<byte>, eccType: byte, sigSer: seq<byte>, end: nat)

  function ParseRecord(buffer: seq<byte>, cursor: nat): Result<Record, FramingError> {
    match ReadByLength(buffer, cursor, true)
    case Err(e) => Err(e)
    case Ok((n, pubKey)) =>
      if cursor + n >= |buffer| then Err(IndexError)
      else
        match ReadByLength(buffer, cursor + n + 1, true)
        case Err(e) => Err(e)
        case Ok((m, sigSer)) => Ok(Record(pubKey, buffer[cursor + n], sigSer, cursor + n + 1 + m))
  }

  /** The order of a record: the public key as a field, one zero byte, the signature as a field, and nothing more. */
  lemma {:induction false} RecordFields(pubKey: seq<byte>, sigSer: seq<byte>)
    requires SerializeRecord(pubKey, sigSer).Ok?
    ensures var r := SerializeRecord(pubKey, sigSer).value;
            exists n, k :: && ReadByLength(r, 0, true) == Ok((n, pubKey)) && n < |r| && r[n] == 0
                           && ReadByLength(r, n + 1, true) == Ok((k, sigSer)) && |r| == n + 1 + k
  {
    var p, s := WriteWithLength(pubKey).value, WriteWithLength(sigSer).value;
    var r := SerializeRecord(pubKey, sigSer).value;
    hide WriteWithLength, ReadByLength;
    FieldRoundTrip(pubKey, [], [0] + s);
    FieldRoundTrip(sigSer, p + [0], []);
    SplitRecord(p, s);
    assert r[|p|] == 0;
    var n, k := |p|, |s|;
    assert ReadByLength(r, 0, true) == Ok((n, pubKey)) && ReadByLength(r, n + 1, true) == Ok((k, sigSer));
  }

  lemma {:induction false} SplitRecord(p: seq<byte>, s: seq<byte>)
    ensures var zero: seq<byte> := [0]; [] + p + (zero + s) == p + zero + s && (p + zero) + s + [] == p + zero + s
  {
  }

  /** Parsing at any position of a buffer recovers both fields and stops exactly at the end of the record. */
  lemma {:induction false} RecordRoundTrip(pubKey: seq<byte>, sigSer: seq<byte>, prefix: seq<byte>, suffix: seq<byte>)
    ensures SerializeRecord(pubKey, sigSer).Ok? <==> |pubKey| <= MAX_U64 && |sigSer| <= MAX_U64
    ensures SerializeRecord(pubKey, sigSer).Ok? ==>
              var r := SerializeRecord(pubKey, sigSer).value;
              ParseRecord(prefix + r + suffix, |prefix|) == Ok(Record(pubKey, 0, sigSer, |prefix| + |r|))
  {
    WriteOkIff(pubKey);
    WriteOkIff(sigSer);
    if |pubKey| <= MAX_U64 && |sigSer| <= MAX_U64 {
      FieldsParse(pubKey, WriteWithLength(pubKey).value, sigSer, WriteWithLength(sigSer).value, prefix, suffix);
    }
  }

  lemma {:induction false} FieldsParse(pubKey: seq<byte>, p: seq<byte>, sigSer: seq<byte>, s: seq<byte>,
                                       prefix: seq<byte>, suffix: seq<byte>)
    requires WriteWithLength(pubKey) == Ok(p) && WriteWithLength(sigSer) == Ok(s)
    ensures ParseRecord(prefix + (p + [0] + s) + suffix, |prefix|) ==
            Ok(Record(pubKey, 0, sigSer, |prefix| + |p + [0] + s|))
  {
    var buffer := prefix + (p + [0] + s) + suffix;
    RecordLayout(prefix, p, s, suffix);
    ReadAt(pubKey, p, buffer, |prefix|);
    ReadAt(sigSer, s, buffer, |prefix| + |p| + 1);
    ParseFromReads(buffer, |prefix|, |p|, pubKey, |s|, sigSer);
  }

  lemma {:induction false} RecordLayout(prefix: seq<byte>, p: seq<byte>, s: seq<byte>, suffix: seq<byte>)
    ensures var buffer := prefix + (p + [0] + s) + suffix;
            && |buffer| >= |prefix| + |p| + 1 + |s|
            && buffer[|prefix|..|prefix| + |p|] == p
            && buffer[|prefix| + |p|] == 0
            && buffer[|prefix| + |p| + 1..|prefix| + |p| + 1 + |s|] == s
  {
  }

  lemma {:induction false} ParseFromReads(buffer: seq<byte>, cursor: nat, n: nat, pubKey: seq<byte>, m: nat,
                                          sigSer: seq<byte>)
    requires ReadByLength(buffer, cursor, true) == Ok((n, pubKey)) && cursor + n < |buffer|
    requires ReadByLength(buffer, cursor + n + 1, true) == Ok((m, sigSer))
    ensures ParseRecord(buffer, cursor) == Ok(Record(pubKey, buffer[cursor + n], sigSer, cursor + n + 1 + m))
  {
  }

  lemma {:induction false} WriteOkIff(field: seq<byte>)
    ensures WriteWithLength(field).Ok? <==> |field| <= MAX_U64
  {
    EncodeVarIntOkIff(|field|);
  }

  lemma {:induction false} ReadAt(field: seq<byte>, w: seq<byte>, buffer: seq<byte>, cursor: nat)
    requires WriteWithLength(field) == Ok(w) && cursor + |w| <= |buffer| && buffer[cursor..cursor + |w|] == w
    ensures ReadByLength(buffer, cursor, true) == Ok((|w|, field))
  {
    FieldRoundTrip(field, buffer[..cursor], buffer[cursor + |w|..]);
    assert buffer == buffer[..cursor] + w + buffer[cursor + |w|..];
  }

  class NulsSignature {
    var pubKey: Option<seq<byte>>
    var eccType: Option<byte>
    var sigSer: Option<seq<byte>>

    constructor ()
      ensures pubKey == None && eccType == None && sigSer == None
    {
      pubKey, eccType, sigSer := None, None, None;
    }

    /** Fills the fields one after the other and returns the position after the record.  A failure leaves the
        fields read before it set. */
    method Parse(buffer: seq<byte>, start: nat) returns (r: Result<nat, FramingError>)
      modifies this
      ensures match ParseRecord(buffer, start)
              case Ok(rec) => r == Ok(rec.end) && pubKey == Some(rec.pubKey) && eccType == Some(rec.eccType)
                && sigSer == Some(rec.sigSer)
              case Err(e) => r == Err(e) && sigSer == old(sigSer)
      ensures match ReadByLength(buffer, start, true)
              case Ok((n, field)) => pubKey == Some(field)
                && eccType == if start + n < |buffer| then Some(buffer[start + n]) else old(eccType)
              case Err(_) => pubKey == old(pubKey) && eccType == old(eccType)
    {
      var key := ReadByLength(buffer, start, true);
      if key.Err? {
        return Err(key.error);
      }
      pubKey := Some(key.value.1);
      var cursor := start + key.value.0;
      if cursor >= |buffer| {
        return Err(IndexError);
      }
      eccType := Some(buffer[cursor]);
      cursor := cursor + 1;
      var sig := ReadByLength(buffer, cursor, true);
      if sig.Err? {
        return Err(sig.error);
      }
      sigSer := Some(sig.value.1);
      r := Ok(cursor + sig.value.0);
    }

    /** Refuses a signature with a missing field; `withLength` frames the record once more. */
    method Serialize(withLength: bool) returns (r: Result<seq<byte>, FramingError>)
      ensures pubKey.None? || sigSer.None? ==> r.Err?
      ensures pubKey.Some? && sigSer.Some? ==>
                match SerializeRecord(pubKey.value, sigSer.value)
                case Ok(rec) => r == if withLength then WriteWithLength(rec) else Ok(rec)
                case Err(e) => r == Err(e)
    {
      if pubKey.None? {
        return Err(TypeError);
      }
      var output := [];
      var key := WriteWithLength(pubKey.value);
      if key.Err? {
        return key;
      }
      output := output + key.value;
      output := output + [0];
      if sigSer.None? {
        return Err(TypeError);
      }
      var sig := WriteWithLength(sigSer.value);
      if sig.Err? {
        return sig;
      }
      output := output + sig.value;
      assert output == key.value + [0] + sig.value;
      r := if withLength then WriteWithLength(output) else Ok(output);
    }
  }

  /** The framed form is one field whose content is the record. */
  lemma {:induction false} FramedRecordRoundTrip(pubKey: seq<byte>, sigSer: seq<byte>, prefix: seq<byte>,
                                                 suffix: seq<byte>)
    requires SerializeRecord(pubKey, sigSer).Ok? && WriteWithLength(SerializeRecord(pubKey, sigSer).value).Ok?
    ensures var framed := WriteWithLength(SerializeRecord(pubKey, sigSer).value).value;
            match ReadByLength(prefix + framed + suffix, |prefix|, true)
            case Err(_) => false
            case Ok((n, content)) =>
              n == |framed| && ParseRecord(content, 0) == Ok(Record(pubKey, 0, sigSer, |content|))
  {
    var rec := SerializeRecord(pubKey, sigSer).value;
    FieldRoundTrip(rec, prefix, suffix);
    RecordRoundTrip(pubKey, sigSer, [], []);
    assert [] + rec + [] == rec;
  }
}
