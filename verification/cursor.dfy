/**
 The pagination token of the message lists: base64url of
 "v1.<unix microseconds>.<message id>", with the time arithmetic of Go's time
 package and the integer syntax of its strconv package.
 */
module Cursor {
  import opened Sequences
  import opened Wrappers
  import opened Base64Url

  const DOT: Byte := 46
  const PLUS: Byte := 43
  const MINUS: Byte := 45
  const VERSION: Bytes := [118, 49]

  // ----- signed 64-bit integers -----

  const TWO_63: int := 0x8000_0000_0000_0000
  const TWO_64: int := 0x1_0000_0000_0000_0000

  predicate Int64(n: int) {
    -TWO_63 <= n < TWO_63
  }

  /** Go's int64 arithmetic wraps around. */
  function Wrapped(n: int): (r: int)
    ensures Int64(r) && (r == n <==> Int64(n))
  {
    (n + TWO_63) % TWO_64 - TWO_63
  }

  function FormatNat(n: nat): (s: Bytes)
    ensures |s| > 0 && DOT !in s && s[0] != PLUS && s[0] != MINUS
  {
    if n < 10 then [48 + n] else FormatNat(n / 10) + [48 + n % 10]
  }

  function FormatInt(n: int): (s: Bytes)
    ensures DOT !in s
  {
    if n < 0 then [MINUS] + FormatNat(-n) else FormatNat(n)
  }

  function Digits(s: Bytes): Option<nat> {
    if s == [] then Some(0)
    else
      var last := s[|s| - 1];
      match Digits(s[..|s| - 1])
      case Some(n) => if 48 <= last <= 57 then Some(n * 10 + (last - 48)) else None
      case None => None
  }

  /** strconv.ParseInt(s, 10, 64): an optional sign, digits, and the range of int64. */
  function ParseInt(s: Bytes): Option<int> {
    if s == [] then None
    else
      var signed := s[0] == PLUS || s[0] == MINUS;
      var digits := if signed then s[1..] else s;
      match if digits == [] then None else Digits(digits)
      case None => None
      case Some(n) =>
        var value: int := if s[0] == MINUS then -(n as int) else n;
        if Int64(value) then Some(value) else None
  }

  lemma {:induction false} DigitsOfFormat(n: nat)
    ensures Digits(FormatNat(n)) == Some(n)
  {
    var s := FormatNat(n);
    if n >= 10 {
      DigitsOfFormat(n / 10);
      assert s[..|s| - 1] == FormatNat(n / 10);
    } else {
      assert s[..0] == [];
    }
  }

  lemma ParseFormat(n: int)
    ensures ParseInt(FormatInt(n)) == if Int64(n) then Some(n) else None
  {
    if n < 0 {
      DigitsOfFormat(-n);
      assert FormatInt(n)[1..] == FormatNat(-n);
    } else {
      DigitsOfFormat(n);
    }
  }

  /**
   Parsing and printing back, as Decode does, accepts exactly the spellings FormatInt
   writes: no plus sign, no leading zero, no minus zero.
   */
  lemma CanonicalSpellings(s: Bytes)
    ensures (ParseInt(s).Some? && FormatInt(ParseInt(s).value) == s) <==> exists n :: Int64(n) && FormatInt(n) == s
  {
    if n :| Int64(n) && FormatInt(n) == s {
      ParseFormat(n);
    }
  }

  function Pow10(k: nat): nat {
    if k == 0 then 1 else 10 * Pow10(k - 1)
  }

  lemma {:induction false} Pow10Positive(k: nat)
    ensures Pow10(k) > 0
  {
    if k > 0 {
      Pow10Positive(k - 1);
    }
  }

  lemma DivByTen(n: nat, p: nat)
    requires p > 0
    ensures n / 10 / p == n / (10 * p)
  {
    var q := n / 10 / p;
    var r := n / 10 - q * p;
    assert 0 <= r < p;
    assert n == q * (10 * p) + (10 * r + n % 10);
    QuotientIs(n, 10 * p, q, 10 * r + n % 10);
  }

  lemma QuotientIs(n: nat, d: nat, q: nat, r: nat)
    requires d > 0 && n == q * d + r && r < d
    ensures n / d == q
  {
    var x := (n / d) as int - q as int;
    assert x * d == r - n % d;
    assert x >= 1 ==> x * d >= d;
    assert x <= -1 ==> x * d + d <= 0;
  }

  /** Digit k from the right is the k-th decimal digit, and there is no leading zero. */
  lemma {:induction false} FormatIsDecimal(n: nat, k: nat)
    ensures Pow10(k) > 0
    ensures k < |FormatNat(n)| ==>
              FormatNat(n)[|FormatNat(n)| - 1 - k] == '0' as int + n / Pow10(k) % 10
    ensures k >= |FormatNat(n)| ==> n / Pow10(k) == 0
    ensures n > 0 ==> FormatNat(n)[0] != '0' as int
    ensures FormatInt(-(n as int)) == if n == 0 then ['0' as int] else ['-' as int] + FormatNat(n)
    decreases n
  {
    Pow10Positive(k);
    if n >= 10 {
      FormatIsDecimal(n / 10, if k > 0 then k - 1 else 0);
      if k > 0 {
        DivByTen(n, Pow10(k - 1));
      }
    } else if k > 0 {
      Pow10Positive(k - 1);
      QuotientIs(n, Pow10(k), 0, n);
    }
  }

  // ----- times -----

  const MILLION: int := 1_000_000
  const BILLION: int := 1_000_000_000

  /** Seconds and nanoseconds since the Unix epoch, as time.Time keeps them. */
  datatype Time = Time(sec: int, nsec: int) {
    predicate Valid() { 0 <= nsec < BILLION }

    function Nanos(): int { sec * BILLION + nsec }
  }

  function TruncDiv(a: int, b: int): int
    requires b > 0
  {
    if a >= 0 then a / b else -(-a / b)
  }

  function TruncMod(a: int, b: int): int
    requires b > 0
  {
    a - TruncDiv(a, b) * b
  }

  /** time.Unix: nanoseconds outside [0, 1e9) are carried into the seconds. */
  function Unix(sec: int, nsec: int): Time {
    if nsec < 0 || nsec >= BILLION then
      var n := TruncDiv(nsec, BILLION);
      var rest := nsec - n * BILLION;
      if rest < 0 then Time(sec + n - 1, rest + BILLION) else Time(sec + n, rest)
    else Time(sec, nsec)
  }

  function FromUnixMicro(us: int): Time {
    Unix(TruncDiv(us, MILLION), TruncMod(us, MILLION) * 1000)
  }

  function UnixMicro(t: Time): int {
    Wrapped(Wrapped(t.sec * MILLION) + t.nsec / 1000)
  }

  /** The microsecond an instant lies in, rounding down also before the epoch. */
  function FloorMicros(t: Time): int {
    t.Nanos() / 1000
  }

  lemma FromUnixMicroIsExact(us: int)
    ensures FromUnixMicro(us).Valid() && FromUnixMicro(us).Nanos() == us * 1000
  {
  }

  lemma WrapsOnce(a: int, b: int)
    ensures Wrapped(Wrapped(a) + b) == Wrapped(a + b)
  {
    var x := a + TWO_63;
    assert x == TWO_64 * (x / TWO_64) + x % TWO_64;
    ModAdd(x % TWO_64 + b, x / TWO_64);
  }

  lemma ModAdd(r: int, q: int)
    ensures (r + TWO_64 * q) % TWO_64 == r % TWO_64
  {
  }

  lemma DivAdd(q: int, r: int)
    ensures (1000 * q + r) / 1000 == q + r / 1000
  {
  }

  lemma UnixMicroIsFloor(t: Time)
    requires t.Valid()
    ensures UnixMicro(t) == Wrapped(FloorMicros(t))
    ensures UnixMicro(t) == FloorMicros(t) <==> Int64(FloorMicros(t))
  {
    DivAdd(t.sec * MILLION, t.nsec);
    WrapsOnce(t.sec * MILLION, t.nsec / 1000);
  }

  lemma MicroRoundTrip(us: int)
    requires Int64(us)
    ensures UnixMicro(FromUnixMicro(us)) == us
  {
    FromUnixMicroIsExact(us);
    UnixMicroIsFloor(FromUnixMicro(us));
  }

  // ----- splitting -----

  function IndexOf(s: Bytes, c: Byte): (i: Option<nat>)
    ensures i.Some? <==> c in s
    ensures i.Some? ==> i.value < |s| && s[i.value] == c && c !in s[..i.value]
  {
    if s == [] then None
    else if s[0] == c then Some(0)
    else
      match IndexOf(s[1..], c)
      case None => assert s == [s[0]] + s[1..]; None
      case Some(i) => assert s[..i + 1] == [s[0]] + s[1..][..i]; Some(i + 1)
  }

  /** strings.SplitN(s, ".", 3) when it has three fields: the third is the rest, dots included. */
  function SplitThree(s: Bytes): Option<(Bytes, Bytes, Bytes)> {
    match IndexOf(s, DOT)
    case None => None
    case Some(i) =>
      var rest := s[i + 1..];
      match IndexOf(rest, DOT)
      case None => None
      case Some(j) => Some((s[..i], rest[..j], rest[j + 1..]))
  }

  function Joined(a: Bytes, b: Bytes, c: Bytes): Bytes {
    a + ([DOT] + (b + ([DOT] + c)))
  }

  lemma {:induction false} FirstIndex(s: Bytes, c: Byte, k: nat)
    requires k < |s| && s[k] == c && c !in s[..k]
    ensures IndexOf(s, c) == Some(k)
  {
    if k > 0 {
      assert s[0] in s[..k];
      assert forall x :: x in s[1..][..k - 1] ==> x in s[..k];
      FirstIndex(s[1..], c, k - 1);
    }
  }

  lemma FirstDot(a: Bytes, rest: Bytes)
    requires DOT !in a
    ensures var s := a + ([DOT] + rest);
            IndexOf(s, DOT) == Some(|a|) && s[..|a|] == a && s[|a| + 1..] == rest
  {
    var s := a + ([DOT] + rest);
    assert s[..|a|] == a;
    FirstIndex(s, DOT, |a|);
  }

  lemma SplitJoined(a: Bytes, b: Bytes, c: Bytes)
    requires DOT !in a && DOT !in b
    ensures SplitThree(Joined(a, b, c)) == Some((a, b, c))
  {
    FirstDot(a, b + ([DOT] + c));
    FirstDot(b, c);
  }

  lemma CutAtDot(s: Bytes, i: nat)
    requires i < |s| && s[i] == DOT
    ensures s == s[..i] + ([DOT] + s[i + 1..])
  {
  }

  lemma JoinCuts(s: Bytes, a: Bytes, b: Bytes, c: Bytes, rest: Bytes)
    requires s == a + ([DOT] + rest) && rest == b + ([DOT] + c)
    ensures s == Joined(a, b, c)
  {
  }

  lemma JoinSplit(s: Bytes)
    requires SplitThree(s).Some?
    ensures var f := SplitThree(s).value; s == Joined(f.0, f.1, f.2)
  {
    var i := IndexOf(s, DOT).value;
    var rest := s[i + 1..];
    var j := IndexOf(rest, DOT).value;
    assert SplitThree(s).value == (s[..i], rest[..j], rest[j + 1..]);
    CutAtDot(s, i);
    CutAtDot(rest, j);
    JoinCuts(s, s[..i], rest[..j], rest[j + 1..], rest);
  }

  // ----- the token -----

  datatype Position = Position(createdAt: Time, id: Bytes)

  datatype Error = EmptyId | InvalidCursor

  function Encode(p: Position): Result<Bytes, Error> {
    if p.id == [] then Err(EmptyId)
    else Ok(Base64Url.Encode(Joined(VERSION, FormatInt(UnixMicro(p.createdAt)), p.id)))
  }

  function Decode(token: Bytes): Result<Option<Position>, Error> {
    if token == [] then Ok(None)
    else
      match DecodeStrict(token)
      case None => Err(InvalidCursor)
      case Some(raw) =>
        match SplitThree(raw)
        case None => Err(InvalidCursor)
        case Some(fields) =>
          if fields.0 != VERSION || fields.2 == [] then Err(InvalidCursor)
          else
            match ParseInt(fields.1)
            case None => Err(InvalidCursor)
            case Some(micros) =>
              if FormatInt(micros) != fields.1 then Err(InvalidCursor)
              else Ok(Some(Position(FromUnixMicro(micros), fields.2)))
  }

  /** The bytes of an ASCII text. */
  function Ascii(s: string): Bytes
    requires forall c <- s :: c as int < 128
  {
    seq<Byte>(|s|, i requires 0 <= i < |s| => assert s[i] in s; s[i] as Byte)
  }

  /** A token is base64url of "v1.", the microseconds in decimal, a dot, and the id. */
  lemma TokenLayout(p: Position)
    requires p.id != []
    ensures Encode(p) ==
            Ok(Base64Url.Encode(Ascii("v1.") + (FormatInt(UnixMicro(p.createdAt)) + (Ascii(".") + p.id))))
  {
    assert Ascii("v1.") == VERSION + [DOT];
    assert Ascii(".") == [DOT];
    var dot: Bytes := [DOT];
    Assoc(VERSION, dot, FormatInt(UnixMicro(p.createdAt)) + (dot + p.id));
  }

  lemma EncodeNonempty(b: Bytes)
    requires b != []
    ensures Base64Url.Encode(b) != []
  {
  }

  /**
   Decode undoes Encode: the exact id, and the microsecond the time lies in,
   rounded down.  The time survives exactly when that microsecond is an int64.
   */
  lemma DecodeEncode(p: Position)
    requires p.createdAt.Valid()
    ensures Encode(p).Ok? <==> p.id != []
    ensures p.id != [] ==>
              && Decode(Encode(p).value) == Ok(Some(Position(FromUnixMicro(UnixMicro(p.createdAt)), p.id)))
              && (FromUnixMicro(UnixMicro(p.createdAt)) == FromUnixMicro(FloorMicros(p.createdAt))
                  <==> Int64(FloorMicros(p.createdAt)))
  {
    if p.id != [] {
      var micros := UnixMicro(p.createdAt);
      var raw := Joined(VERSION, FormatInt(micros), p.id);
      EncodeNonempty(raw);
      Base64Url.DecodeEncode(raw);
      SplitJoined(VERSION, FormatInt(micros), p.id);
      ParseFormat(micros);
      UnixMicroIsFloor(p.createdAt);
      FromUnixMicroIsExact(micros);
      FromUnixMicroIsExact(FloorMicros(p.createdAt));
    }
  }

  /**
   Accepted tokens are canonical: each is, line breaks aside, the encoding of the
   position it is read as, and exactly that encoding when it has no line break.
   */
  lemma EncodeDecode(token: Bytes)
    ensures Decode(token).Ok? && token != [] ==>
              && Decode(token).value.Some?
              && var p := Decode(token).value.value;
                 && p.createdAt.Valid() && Int64(FloorMicros(p.createdAt)) && p.id != []
                 && Encode(p) == Ok(StripLineBreaks(token))
                 && (Encode(p) == Ok(token) <==> CR !in token && LF !in token)
  {
    if Decode(token).Ok? && token != [] {
      var raw := DecodeStrict(token).value;
      var fields := SplitThree(raw).value;
      var micros := ParseInt(fields.1).value;
      Base64Url.EncodeDecode(token);
      JoinSplit(raw);
      MicroRoundTrip(micros);
      FromUnixMicroIsExact(micros);
      StripIsIdentity(token);
    }
  }

  /** Positions of Postgres precision survive the token unchanged. */
  lemma MicrosecondPositionsSurvive(us: int, id: Bytes)
    requires Int64(us) && id != []
    ensures var p := Position(FromUnixMicro(us), id);
            Encode(p).Ok? && Decode(Encode(p).value) == Ok(Some(p)) && FloorMicros(p.createdAt) == us
  {
    var p := Position(FromUnixMicro(us), id);
    FromUnixMicroIsExact(us);
    MicroRoundTrip(us);
    DecodeEncode(p);
  }
}
