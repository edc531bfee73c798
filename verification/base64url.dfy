/**
 Unpadded base64url with strict trailing bits (sections 3.2, 3.5 and 5 of RFC
 4648), as Go's base64.RawURLEncoding and its Strict variant compute it.
 */
module Base64Url {
  import opened Wrappers

  type Byte = b: int | 0 <= b < 256
  type Bytes = seq<Byte>
  type Sextet = v: int | 0 <= v < 64

  const LF: Byte := 10
  const CR: Byte := 13

  /** The URL- and filename-safe alphabet: A-Z a-z 0-9 - _ */
  function Symbol(v: Sextet): Byte {
    if v < 26 then v + 65
    else if v < 52 then v + 71
    else if v < 62 then v - 4
    else if v == 62 then 45
    else 95
  }

  function Value(c: Byte): Option<Sextet> {
    if 65 <= c <= 90 then Some(c - 65)
    else if 97 <= c <= 122 then Some(c - 71)
    else if 48 <= c <= 57 then Some(c + 4)
    else if c == 45 then Some(62)
    else if c == 95 then Some(63)
    else None
  }

  function Encode(b: Bytes): Bytes {
    if |b| == 0 then []
    else if |b| == 1 then
      [Symbol(b[0] / 4), Symbol(b[0] % 4 * 16)]
    else if |b| == 2 then
      [Symbol(b[0] / 4), Symbol(b[0] % 4 * 16 + b[1] / 16), Symbol(b[1] % 16 * 4)]
    else
      [Symbol(b[0] / 4), Symbol(b[0] % 4 * 16 + b[1] / 16), Symbol(b[1] % 16 * 4 + b[2] / 64), Symbol(b[2] % 64)]
      + Encode(b[3..])
  }

  /** The decoder passes over CR and LF wherever they stand, strict or not. */
  function StripLineBreaks(t: Bytes): Bytes {
    if t == [] then []
    else if t[0] == CR || t[0] == LF then StripLineBreaks(t[1..])
    else [t[0]] + StripLineBreaks(t[1..])
  }

  function Sextets(t: Bytes): Option<seq<Sextet>> {
    if t == [] then Some([])
    else
      match (Value(t[0]), Sextets(t[1..]))
      case (Some(v), Some(rest)) => Some([v] + rest)
      case _ => None
  }

  function Quantum(a: int, b: int, c: int, d: int): (r: Bytes)
    requires 0 <= a < 64 && 0 <= b < 64 && 0 <= c < 64 && 0 <= d < 64
    ensures |r| == 3
  {
    [a * 4 + b / 16, b % 16 * 16 + c / 4, c % 4 * 64 + d]
  }

  /**
   Full quanta, then a final one of two or three symbols.  Strict: the bits such
   a final quantum does not use must be zero.
   */
  function FromSextets(v: seq<Sextet>): Option<Bytes> {
    if |v| == 0 then Some([])
    else if |v| == 1 then None
    else if |v| == 2 then
      var q := Quantum(v[0], v[1], 0, 0);
      if q[1] == 0 then Some(q[..1]) else None
    else if |v| == 3 then
      var q := Quantum(v[0], v[1], v[2], 0);
      if q[2] == 0 then Some(q[..2]) else None
    else
      match FromSextets(v[4..])
      case None => None
      case Some(rest) => Some(Quantum(v[0], v[1], v[2], v[3]) + rest)
  }

  function DecodeStrict(t: Bytes): Option<Bytes> {
    match Sextets(StripLineBreaks(t))
    case None => None
    case Some(v) => FromSextets(v)
  }

  // ----- what is written -----

  /** The alphabet of section 5 of RFC 4648, in its order. */
  lemma SymbolsAreTheAlphabet(v: Sextet)
    ensures v < 26 ==> Symbol(v) == 'A' as int + v
    ensures 26 <= v < 52 ==> Symbol(v) == 'a' as int + (v - 26)
    ensures 52 <= v < 62 ==> Symbol(v) == '0' as int + (v - 52)
    ensures v == 62 ==> Symbol(v) == '-' as int
    ensures v == 63 ==> Symbol(v) == '_' as int
  {
  }

  /** Every CR and every LF is passed over, and nothing else. */
  lemma {:induction false} StripJoin(s: Bytes, t: Bytes)
    ensures StripLineBreaks(s + t) == StripLineBreaks(s) + StripLineBreaks(t)
    ensures |s| == 1 ==> StripLineBreaks(s) == if s[0] == '\r' as int || s[0] == '\n' as int then [] else s
  {
    if s == [] {
      assert [] + t == t;
    } else {
      assert (s + t)[1..] == s[1..] + t;
      StripJoin(s[1..], t);
    }
  }

  // ----- round trips -----

  lemma SymbolValue(v: Sextet)
    ensures Value(Symbol(v)) == Some(v)
    ensures Symbol(v) != CR && Symbol(v) != LF
  {
  }

  lemma ValueSymbol(c: Byte)
    requires Value(c).Some?
    ensures Symbol(Value(c).value) == c
  {
  }

  function Symbols(v: seq<Sextet>): Bytes {
    seq(|v|, i requires 0 <= i < |v| => Symbol(v[i]))
  }

  lemma {:induction false} SextetsOfSymbols(v: seq<Sextet>)
    ensures Sextets(Symbols(v)) == Some(v)
    ensures StripLineBreaks(Symbols(v)) == Symbols(v)
  {
    if v != [] {
      SymbolValue(v[0]);
      SextetsOfSymbols(v[1..]);
      assert Symbols(v)[1..] == Symbols(v[1..]);
      assert [v[0]] + v[1..] == v;
    } else {
      assert Symbols(v) == [];
    }
  }

  lemma {:induction false} SymbolsOfSextets(t: Bytes)
    requires Sextets(t).Some?
    ensures Symbols(Sextets(t).value) == t
  {
    if t != [] {
      ValueSymbol(t[0]);
      SymbolsOfSextets(t[1..]);
      assert Sextets(t).value[1..] == Sextets(t[1..]).value;
    }
  }

  /** The sextets Encode writes: a quantum of three bytes is four sextets. */
  function ToSextets(b: Bytes): seq<Sextet> {
    if |b| == 0 then []
    else if |b| == 1 then [b[0] / 4, b[0] % 4 * 16]
    else if |b| == 2 then [b[0] / 4, b[0] % 4 * 16 + b[1] / 16, b[1] % 16 * 4]
    else [b[0] / 4, b[0] % 4 * 16 + b[1] / 16, b[1] % 16 * 4 + b[2] / 64, b[2] % 64] + ToSextets(b[3..])
  }

  lemma {:induction false} EncodeIsSymbols(b: Bytes)
    ensures Encode(b) == Symbols(ToSextets(b))
  {
    if |b| >= 3 {
      EncodeIsSymbols(b[3..]);
    }
  }

  /** The number with these base-64 digits, and the number with these bytes. */
  function OfSextets(a: int, b: int, c: int, d: int): int {
    a * 262144 + b * 4096 + c * 64 + d
  }

  function OfBytes(x: int, y: int, z: int): int {
    x * 65536 + y * 256 + z
  }

  lemma SextetsOfNumber(x: int, y: int, z: int)
    requires 0 <= x < 256 && 0 <= y < 256 && 0 <= z < 256
    ensures OfSextets(x / 4, x % 4 * 16 + y / 16, y % 16 * 4 + z / 64, z % 64) == OfBytes(x, y, z)
  {
  }

  /**
   Three bytes are one 24-bit number whose base-64 digits, most significant first,
   are the four symbols.  A last quantum is padded with zero bits and written without
   the symbols that hold only padding.
   */
  lemma QuantumsAreNumbers(b: Bytes)
    ensures Encode(b) == Symbols(ToSextets(b))
    ensures var v := ToSextets(b);
            && (|b| >= 3 ==>
                  && |v| >= 4 && v[4..] == ToSextets(b[3..])
                  && OfSextets(v[0], v[1], v[2], v[3]) == OfBytes(b[0], b[1], b[2]))
            && (|b| == 2 ==> |v| == 3 && OfSextets(v[0], v[1], v[2], 0) == OfBytes(b[0], b[1], 0))
            && (|b| == 1 ==> |v| == 2 && OfSextets(v[0], v[1], 0, 0) == OfBytes(b[0], 0, 0))
            && (b == [] ==> v == [])
  {
    EncodeIsSymbols(b);
    ToSextetsIs(b);
    if |b| == 1 {
      SextetsOfNumber(b[0], 0, 0);
    } else if |b| == 2 {
      SextetsOfNumber(b[0], b[1], 0);
    } else if |b| >= 3 {
      SextetsOfNumber(b[0], b[1], b[2]);
    }
  }

  lemma QuantumKeepsBytes(x: Byte, y: Byte, z: Byte)
    ensures Quantum(x / 4, x % 4 * 16 + y / 16, y % 16 * 4 + z / 64, z % 64) == [x, y, z]
  {
  }

  /** A last quantum of one byte. */
  lemma OneByte(x: Byte)
    ensures FromSextets([x / 4, x % 4 * 16]) == Some([x])
  {
    var q := Quantum(x / 4, x % 4 * 16, 0, 0);
    assert q[0] == x && q[1] == 0;
    assert q[..1] == [x];
  }

  /** A last quantum of two bytes. */
  lemma TwoBytes(x: Byte, y: Byte)
    ensures FromSextets([x / 4, x % 4 * 16 + y / 16, y % 16 * 4]) == Some([x, y])
  {
    var q := Quantum(x / 4, x % 4 * 16 + y / 16, y % 16 * 4, 0);
    assert q[0] == x && q[1] == y && q[2] == 0;
    assert q[..2] == [x, y];
  }

  /** A whole quantum before the rest. */
  lemma ThreeBytes(x: Byte, y: Byte, z: Byte, v: seq<Sextet>, rest: Bytes)
    requires FromSextets(v) == Some(rest)
    ensures FromSextets([x / 4, x % 4 * 16 + y / 16, y % 16 * 4 + z / 64, z % 64] + v) == Some([x, y, z] + rest)
  {
    var head: seq<Sextet> := [x / 4, x % 4 * 16 + y / 16, y % 16 * 4 + z / 64, z % 64];
    QuantumKeepsBytes(x, y, z);
    assert (head + v)[4..] == v;
  }

  predicate RoundTrips(b: Bytes) {
    FromSextets(ToSextets(b)) == Some(b)
  }

  lemma RoundTripsVia(b: Bytes, v: seq<Sextet>)
    requires ToSextets(b) == v && FromSextets(v) == Some(b)
    ensures RoundTrips(b)
  {
  }

  /** What ToSextets writes for each length, with the quantum's values left unexamined. */
  lemma ToSextetsIs(b: Bytes)
    ensures |b| == 1 ==> ToSextets(b) == [b[0] / 4, b[0] % 4 * 16]
    ensures |b| == 2 ==> ToSextets(b) == [b[0] / 4, b[0] % 4 * 16 + b[1] / 16, b[1] % 16 * 4]
    ensures |b| >= 3 ==> ToSextets(b) ==
                         [b[0] / 4, b[0] % 4 * 16 + b[1] / 16, b[1] % 16 * 4 + b[2] / 64, b[2] % 64] + ToSextets(b[3..])
  {
  }

  lemma OneByteRoundTrips(b: Bytes)
    requires |b| == 1
    ensures RoundTrips(b)
  {
    ToSextetsIs(b);
    OneByte(b[0]);
    assert b == [b[0]];
    RoundTripsVia(b, [b[0] / 4, b[0] % 4 * 16]);
  }

  lemma TwoBytesRoundTrip(b: Bytes)
    requires |b| == 2
    ensures RoundTrips(b)
  {
    ToSextetsIs(b);
    TwoBytes(b[0], b[1]);
    assert b == [b[0], b[1]];
    RoundTripsVia(b, [b[0] / 4, b[0] % 4 * 16 + b[1] / 16, b[1] % 16 * 4]);
  }

  lemma LongerRoundTrips(b: Bytes)
    requires |b| >= 3 && RoundTrips(b[3..])
    ensures RoundTrips(b)
  {
    var v := ToSextets(b[3..]);
    ToSextetsIs(b);
    ThreeBytes(b[0], b[1], b[2], v, b[3..]);
    assert b == [b[0], b[1], b[2]] + b[3..];
    RoundTripsVia(b, [b[0] / 4, b[0] % 4 * 16 + b[1] / 16, b[1] % 16 * 4 + b[2] / 64, b[2] % 64] + v);
  }

  lemma {:induction false} FromToSextets(b: Bytes)
    ensures RoundTrips(b)
  {
    if |b| == 0 {
    } else if |b| == 1 {
      OneByteRoundTrips(b);
    } else if |b| == 2 {
      TwoBytesRoundTrip(b);
    } else {
      FromToSextets(b[3..]);
      LongerRoundTrips(b);
    }
  }

  lemma QuantumKeepsSextets(a: Sextet, b: Sextet, c: Sextet, d: Sextet)
    ensures var q := Quantum(a, b, c, d);
            && q[0] / 4 == a
            && q[0] % 4 * 16 + q[1] / 16 == b
            && q[1] % 16 * 4 + q[2] / 64 == c
            && q[2] % 64 == d
  {
  }

  lemma {:induction false} ToFromSextets(v: seq<Sextet>)
    requires FromSextets(v).Some?
    ensures ToSextets(FromSextets(v).value) == v
  {
    var b := FromSextets(v).value;
    if |v| >= 4 {
      ToFromSextets(v[4..]);
      QuantumKeepsSextets(v[0], v[1], v[2], v[3]);
      assert b[3..] == FromSextets(v[4..]).value;
      assert v == [v[0], v[1], v[2], v[3]] + v[4..];
    } else if |v| == 3 {
      QuantumKeepsSextets(v[0], v[1], v[2], 0);
    } else if |v| == 2 {
      QuantumKeepsSextets(v[0], v[1], 0, 0);
    }
  }

  lemma DecodeEncode(b: Bytes)
    ensures DecodeStrict(Encode(b)) == Some(b)
  {
    EncodeIsSymbols(b);
    SextetsOfSymbols(ToSextets(b));
    FromToSextets(b);
  }

  /** An accepted text is, line breaks aside, the encoding of what it decodes to. */
  lemma EncodeDecode(t: Bytes)
    requires DecodeStrict(t).Some?
    ensures Encode(DecodeStrict(t).value) == StripLineBreaks(t)
  {
    var v := Sextets(StripLineBreaks(t)).value;
    SymbolsOfSextets(StripLineBreaks(t));
    ToFromSextets(v);
    EncodeIsSymbols(DecodeStrict(t).value);
  }

  lemma {:induction false} StripIsIdentity(t: Bytes)
    ensures StripLineBreaks(t) == t <==> CR !in t && LF !in t
    ensures |StripLineBreaks(t)| <= |t|
  {
    if t != [] {
      StripIsIdentity(t[1..]);
    }
  }
}
