/**
 * Token lifetimes. The configured access lifetime is parsed from a string;
 * `time.ParseDuration` is a library parser and enters as a parameter, while the
 * fallback for "7d"-style values, which reads the number with
 * `fmt.Sscanf("%d")`, is modelled here.
 */
module Jwt {
  import opened Wrappers
  import opened Strings
  import opened Utf8
  import opened Durations

  /** Access tokens live 24 hours unless configured otherwise; refresh tokens 7 days. */
  const DefaultLifetime: int := 24 * Hour
  const RefreshLifetime: int := 7 * 24 * Hour

  // ---------------------------------------------------------------------------
  // GenerateToken: the registered claims (signing is not modelled)

  /** The claims of an issued token; the dates are whole seconds since the Unix epoch. */
  datatype Claims = Claims(sub: string, email: string, expiresAt: int, issuedAt: int, notBefore: int)

  /** `jwt.NewNumericDate`: the time, in nanoseconds, truncated to the second below. */
  function NumericDate(t: int): (r: int)
    ensures r * Second <= t < (r + 1) * Second
  {
    t / Second
  }

  /** GenerateToken's claims for a token issued at `now` that lives `expiresIn`. */
  function TokenClaims(userId: string, email: string, now: int, expiresIn: int): (r: Claims)
    ensures r.sub == userId && r.email == email
    ensures r.notBefore == r.issuedAt
    ensures r.issuedAt * Second <= now < (r.issuedAt + 1) * Second
    ensures r.expiresAt * Second <= now + expiresIn < (r.expiresAt + 1) * Second
  {
    Claims(userId, email, NumericDate(now + expiresIn), NumericDate(now), NumericDate(now))
  }

  /** A lifetime of whole seconds separates expiry from issue by exactly that many seconds. */
  lemma {:induction false} WholeSecondLifetime(userId: string, email: string, now: int, seconds: int)
    ensures var c := TokenClaims(userId, email, now, seconds * Second);
      c.expiresAt - c.issuedAt == seconds
  {
    var c := TokenClaims(userId, email, now, seconds * Second);
    SecondsShift(now, seconds);
  }

  lemma {:induction false} SecondsShift(t: int, k: int)
    ensures (t + k * Second) / Second == t / Second + k
  {
    var q, r := t / Second, t % Second;
    assert t + k * Second == (q + k) * Second + r;
  }

  /** GenerateRefreshToken: the refresh token expires seven days, to the second, after issue. */
  lemma {:induction false} RefreshTokenSpan(userId: string, email: string, now: int)
    ensures var c := TokenClaims(userId, email, now, RefreshLifetime);
      c.expiresAt - c.issuedAt == 7 * 24 * 3600
  {
    assert RefreshLifetime == (7 * 24 * 3600) * Second;
    WholeSecondLifetime(userId, email, now, 7 * 24 * 3600);
  }

  // ---------------------------------------------------------------------------
  // fmt.Sscanf(s, "%d", &v)

  /** The white space `fmt`'s scanner skips (its table of Unicode spaces). */
  predicate ScanSpace(c: char) {
    var n := c as int;
    || (0x09 <= n <= 0x0d) || n == 0x20 || n == 0x85 || n == 0xA0 || n == 0x1680
    || (0x2000 <= n <= 0x200a) || n == 0x2028 || n == 0x2029 || n == 0x202f || n == 0x205f || n == 0x3000
  }

  /**
   * Skips leading white space. A newline met while skipping is an error: `Sscanf`
   * does not treat newlines as space.
   */
  function SkipSpace(s: string): (r: Option<string>)
    ensures r.Some? ==> |r.value| <= |s| && r.value == s[|s| - |r.value|..]
    ensures r.Some? ==> |r.value| == 0 || !ScanSpace(r.value[0])
    ensures r.Some? ==> forall k | 0 <= k < |s| - |r.value| :: ScanSpace(s[k]) && s[k] != '\n'
  {
    if |s| == 0 then Some(s)
    else if s[0] == '\n' then None
    else if ScanSpace(s[0]) then SkipSpace(s[1..])
    else Some(s)
  }

  /** The length of the run of decimal digits `s` starts with. */
  function DigitRun(s: string): (r: nat)
    ensures r <= |s| && AllDigits(s[..r])
    ensures r < |s| ==> !IsDigit(s[r])
  {
    if |s| == 0 || !IsDigit(s[0]) then 0
    else
      var n := DigitRun(s[1..]);
      assert s[..n + 1] == [s[0]] + s[1..][..n];
      n + 1
  }

  /**
   * `%d`: after the space, an optional sign and a maximal run of at least one
   * digit, read as an int64; an out-of-range value is an error. Whatever follows
   * the digits is left unread and is not an error.
   */
  function ScanInt(s: string): (r: Option<int>)
    ensures r.Some? ==> InInt64(r.value)
    ensures SkipSpace(s).None? ==> r.None?
  {
    match SkipSpace(s)
    case None => None
    case Some(t) => ReadSigned(t)
  }

  /** The part of `%d` after the space: sign, digits, range check. */
  function ReadSigned(t: string): (r: Option<int>)
    ensures r.Some? ==> InInt64(r.value)
  {
    var signed := |t| > 0 && (t[0] == '+' || t[0] == '-');
    var body := if signed then t[1..] else t;
    var n := DigitRun(body);
    if n == 0 then None
    else
      var v := if signed && t[0] == '-' then -(Decimal(body[..n]) as int) else Decimal(body[..n]);
      if InInt64(v) then Some(v) else None
  }

  /** A zero-padded numeral followed by anything but a digit reads as its value. */
  lemma {:induction false} ScanPadded(n: nat, w: nat, rest: string)
    requires 1 <= w && n < Pow10(w) && n < Two63
    requires |rest| == 0 || !IsDigit(rest[0])
    ensures ScanInt(Padded(n, w) + rest) == Some(n)
  {
    var p := Padded(n, w);
    var s := p + rest;
    assert s[0] == p[0] && IsDigit(p[0]);
    assert SkipSpace(s) == Some(s);
    assert DigitRun(s) == w by { DigitRunPrefix(p, rest); }
    assert s[..w] == p;
    PaddedRoundTrip(n, w);
  }

  lemma {:induction false} DigitRunPrefix(p: string, rest: string)
    requires AllDigits(p)
    requires |rest| == 0 || !IsDigit(rest[0])
    ensures DigitRun(p + rest) == |p|
  {
    if |p| > 0 {
      assert (p + rest)[1..] == p[1..] + rest;
      DigitRunPrefix(p[1..], rest);
    } else {
      assert p + rest == rest;
    }
  }

  /** Leading blanks are skipped. */
  lemma {:induction false} ScanSkipsBlank(s: string)
    ensures ScanInt(" " + s) == ScanInt(s)
  {
    var t := " " + s;
    assert t[0] == ' ' && t[1..] == s;
    assert SkipSpace(t) == SkipSpace(s);
  }

  /** A leading newline is an error. */
  lemma ScanRefusesNewline(s: string)
    ensures ScanInt("\n" + s) == None
  {
  }

  // ---------------------------------------------------------------------------
  // ParseTokenDuration

  datatype DurationError = InvalidFormat(text: string)

  /** The custom units: d, h and m. */
  function UnitOf(c: char): (r: Option<int>)
    ensures r.Some? <==> c == 'd' || c == 'h' || c == 'm'
    ensures r.Some? ==> r.value >= Minute
  {
    if c == 'd' then Some(Day) else if c == 'h' then Some(Hour) else if c == 'm' then Some(Minute) else None
  }

  /**
   * `time.Duration(v) * 24 * time.Hour`, `v * time.Hour` and `v * time.Minute`,
   * each product wrapping as Go's does, left to right.
   */
  function Scaled(v: int, unit: char): (r: int)
    requires UnitOf(unit).Some?
    ensures r == Wrap64(v * UnitOf(unit).value)
  {
    if unit == 'd' then
      WrapMul(v * 24, Hour);
      assert v * 24 * Hour == v * Day;
      Wrap64(Wrap64(v * 24) * Hour)
    else if unit == 'h' then Wrap64(v * Hour)
    else Wrap64(v * Minute)
  }

  /**
   * ParseTokenDuration. The empty string is the 24-hour default; a string Go's
   * duration parser accepts (`goParse`) is its value; otherwise, when the string
   * is at least two bytes long, its last character must be a unit and the rest
   * an integer. `valueStr` is read before the unit is examined; the two
   * failures give the same error. When the last rune is not ASCII, Go splits
   * inside it, but no unit is then possible and the result is the same error.
   */
  function ParseTokenDuration(s: string, goParse: string -> Option<int>): (r: Result<int, DurationError>)
    ensures s == "" ==> r == Success(DefaultLifetime)
    ensures s != "" && goParse(s).Some? ==> r == Success(goParse(s).value)
    ensures r.Failure? ==> r.error == InvalidFormat(s)
    ensures s != "" && goParse(s).None? ==>
      (r.Success? <==> ByteLen(s) >= 2 && ScanInt(s[..|s| - 1]).Some? && UnitOf(s[|s| - 1]).Some?)
  {
    if s == "" then Success(DefaultLifetime)
    else if goParse(s).Some? then Success(goParse(s).value)
    else if ByteLen(s) >= 2 then
      match ScanInt(s[..|s| - 1])
      case None => Failure(InvalidFormat(s))
      case Some(v) =>
        if UnitOf(s[|s| - 1]).Some? then Success(Scaled(v, s[|s| - 1])) else Failure(InvalidFormat(s))
    else Failure(InvalidFormat(s))
  }

  /**
   * Round trip of the custom form: a count written in decimal and followed by a
   * unit parses back to count × unit, wrapped to int64.
   */
  lemma {:induction false} CustomRoundTrip(n: nat, w: nat, unit: char, goParse: string -> Option<int>)
    requires 1 <= w && n < Pow10(w) && n < Two63
    requires UnitOf(unit).Some?
    requires goParse(Padded(n, w) + [unit]).None?
    ensures ParseTokenDuration(Padded(n, w) + [unit], goParse) == Success(Wrap64(n * UnitOf(unit).value))
  {
    var s := Padded(n, w) + [unit];
    assert s[..|s| - 1] == Padded(n, w) + "";
    ScanPadded(n, w, "");
  }

  /** When count × unit fits in int64 the round trip is exact. */
  lemma {:induction false} CustomExact(n: nat, w: nat, unit: char, goParse: string -> Option<int>)
    requires 1 <= w && n < Pow10(w) && n < Two63
    requires UnitOf(unit).Some? && n * UnitOf(unit).value < Two63
    requires goParse(Padded(n, w) + [unit]).None?
    ensures ParseTokenDuration(Padded(n, w) + [unit], goParse) == Success(n * UnitOf(unit).value)
  {
    CustomRoundTrip(n, w, unit, goParse);
    NonNegativeProduct(n, UnitOf(unit).value);
  }

  lemma NonNegativeProduct(a: nat, b: nat)
    ensures a * b >= 0
  {
  }

  /** "7d" parses to the refresh-token lifetime. */
  lemma {:induction false} SevenDays(goParse: string -> Option<int>)
    requires goParse(Padded(7, 1) + "d").None?
    ensures ParseTokenDuration(Padded(7, 1) + "d", goParse) == Success(RefreshLifetime)
  {
    assert Pow10(1) == 10;
    assert UnitOf('d').value * 7 == RefreshLifetime < Two63;
    CustomExact(7, 1, 'd', goParse);
  }

  /** 106752 days overflow int64 nanoseconds: the configured lifetime comes out negative. */
  lemma {:induction false} HugeDayCountWraps(goParse: string -> Option<int>)
    requires goParse(Padded(106752, 6) + "d").None?
    ensures ParseTokenDuration(Padded(106752, 6) + "d", goParse).Success?
    ensures ParseTokenDuration(Padded(106752, 6) + "d", goParse).value < 0
  {
    SixDigits();
    CustomRoundTrip(106752, 6, 'd', goParse);
    DayOverflow();
  }

  lemma SixDigits()
    ensures Pow10(6) == 1_000_000
  {
    assert Pow10(3) == 1000;
  }

  lemma DayOverflow()
    ensures Wrap64(106752 * UnitOf('d').value) == -9_223_371_273_709_551_616
  {
  }

  /** A single byte is refused. */
  lemma {:induction false} RefusedSingleByte(goParse: string -> Option<int>)
    requires goParse("d").None?
    ensures ParseTokenDuration("d", goParse).Failure?
  {
    assert ByteLen("d") == 1;
  }

  /** A count that is not a number is refused. */
  lemma {:induction false} RefusedNonNumeric(goParse: string -> Option<int>)
    requires goParse("xd").None?
    ensures ParseTokenDuration("xd", goParse).Failure?
  {
    assert "xd"[..1] == "x";
    assert SkipSpace("x") == Some("x");
  }

  /** A number without a unit is refused. */
  lemma {:induction false} RefusedNoUnit(goParse: string -> Option<int>)
    requires goParse("12").None?
    ensures ParseTokenDuration("12", goParse).Failure?
  {
    assert UnitOf("12"[1]).None?;
  }

  /**
   * The access lifetime the auth responses use: a configuration the parser
   * refuses falls back to the 24-hour default.
   */
  function AccessLifetime(config: string, goParse: string -> Option<int>): (r: int)
    ensures ParseTokenDuration(config, goParse).Failure? ==> r == DefaultLifetime
    ensures ParseTokenDuration(config, goParse).Success? ==> r == ParseTokenDuration(config, goParse).value
    ensures config == "" ==> r == DefaultLifetime
  {
    match ParseTokenDuration(config, goParse)
    case Success(d) => d
    case Failure(_) => DefaultLifetime
  }
}
