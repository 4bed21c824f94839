/** The string helpers of Go's `strings` and `strconv` packages that the services rely on. */
module Strings {
  import opened Wrappers

  // ---------------------------------------------------------------------------
  // Split and Join

  /** `strings.Split(s, sep)` for a one-character separator: never empty, "" gives [""]. */
  function Split(s: string, sep: char): (r: seq<string>)
    ensures |r| >= 1
    ensures forall i | 0 <= i < |r| :: sep !in r[i]
    ensures Join(r, sep) == s
    ensures sep !in s ==> r == [s]
  {
    if |s| == 0 then [""]
    else
      var rest := Split(s[1..], sep);
      if s[0] == sep then [""] + rest
      else [[s[0]] + rest[0]] + rest[1..]
  }

  /** `strings.Join(parts, sep)`. */
  function Join(parts: seq<string>, sep: char): string
    requires |parts| >= 1
  {
    if |parts| == 1 then parts[0] else parts[0] + [sep] + Join(parts[1..], sep)
  }

  /** Splitting a join of separator-free parts gives the parts back. */
  lemma {:induction false} SplitJoinRoundTrip(parts: seq<string>, sep: char)
    requires |parts| >= 1
    requires forall i | 0 <= i < |parts| :: sep !in parts[i]
    ensures Split(Join(parts, sep), sep) == parts
  {
    if |parts| == 1 {
      assert sep !in Join(parts, sep);
    } else {
      SplitJoinRoundTrip(parts[1..], sep);
      SplitPrefix(parts[0], Join(parts[1..], sep), sep);
    }
  }

  /** A separator-free head followed by a separator splits off as one part. */
  lemma {:induction false} SplitPrefix(head: string, tail: string, sep: char)
    requires sep !in head
    ensures Split(head + [sep] + tail, sep) == [head] + Split(tail, sep)
  {
    if |head| == 0 {
      assert head + [sep] + tail == [sep] + tail;
      assert ([sep] + tail)[1..] == tail;
    } else {
      assert sep !in head[1..] by {
        forall i | 0 <= i < |head[1..]| ensures head[1..][i] != sep {
          assert head[1..][i] == head[i + 1];
        }
      }
      SplitPrefix(head[1..], tail, sep);
      var t := head[1..] + [sep] + tail;
      assert head + [sep] + tail == [head[0]] + t;
      SplitCons(head[0], t, sep);
      assert [head[0]] + head[1..] == head;
    }
  }

  /** A leading non-separator joins the first part. */
  lemma {:induction false} SplitCons(c: char, t: string, sep: char)
    requires c != sep
    ensures Split([c] + t, sep) == [[c] + Split(t, sep)[0]] + Split(t, sep)[1..]
  {
    assert ([c] + t)[1..] == t;
  }

  // ---------------------------------------------------------------------------
  // Prefixes, suffixes, trimming

  predicate HasPrefix(s: string, p: string) {
    |p| <= |s| && s[..|p|] == p
  }

  predicate HasSuffix(s: string, p: string) {
    |p| <= |s| && s[|s| - |p|..] == p
  }

  /** `strings.TrimPrefix`: drops `p` once when `s` starts with it. */
  function TrimPrefix(s: string, p: string): (r: string)
    ensures HasPrefix(s, p) ==> p + r == s
    ensures !HasPrefix(s, p) ==> r == s
  {
    if HasPrefix(s, p) then s[|p|..] else s
  }

  /** `strings.TrimSuffix`: drops `p` once when `s` ends with it. */
  function TrimSuffix(s: string, p: string): (r: string)
    ensures HasSuffix(s, p) ==> r + p == s
    ensures !HasSuffix(s, p) ==> r == s
  {
    if HasSuffix(s, p) then s[..|s| - |p|] else s
  }

  function TrimLeft(s: string, c: char): (r: string)
    ensures |r| == 0 || r[0] != c
    ensures |r| <= |s| && r == s[|s| - |r|..]
  {
    if |s| > 0 && s[0] == c then TrimLeft(s[1..], c) else s
  }

  function TrimRight(s: string, c: char): (r: string)
    ensures |r| == 0 || r[|r| - 1] != c
    ensures |r| <= |s| && r == s[..|r|]
  {
    if |s| > 0 && s[|s| - 1] == c then TrimRight(s[..|s| - 1], c) else s
  }

  /** `strings.Trim(s, cutset)` for a one-character cutset: strips it from both ends. */
  function Trim(s: string, c: char): (r: string)
    ensures |r| == 0 || (r[0] != c && r[|r| - 1] != c)
  {
    TrimRight(TrimLeft(s, c), c)
  }

  // ---------------------------------------------------------------------------
  // Contiguous occurrence

  /** `sub` occurs in `s` at index `i`. */
  predicate OccursAt<T(==)>(s: seq<T>, sub: seq<T>, i: int) {
    0 <= i && i + |sub| <= |s| && s[i..i + |sub|] == sub
  }

  predicate Occurs<T(==)>(s: seq<T>, sub: seq<T>) {
    exists i | 0 <= i <= |s| - |sub| :: OccursAt(s, sub, i)
  }

  // ---------------------------------------------------------------------------
  // Character classes

  predicate IsDigit(c: char) {
    '0' <= c <= '9'
  }

  predicate IsUpper(c: char) {
    'A' <= c <= 'Z'
  }

  predicate IsLower(c: char) {
    'a' <= c <= 'z'
  }

  /** ASCII lower-casing of one character: A–Z move up by 32, everything else is kept. */
  function Lower(c: char): (r: char)
    ensures IsUpper(c) ==> IsLower(r) && (r as int) == (c as int) + 32
    ensures !IsUpper(c) ==> r == c
    ensures !IsUpper(r)
  {
    if IsUpper(c) then ((c as int) + 32) as char else c
  }

  predicate AllDigits(s: string) {
    forall i | 0 <= i < |s| :: IsDigit(s[i])
  }

  function DigitValue(c: char): (r: nat)
    requires IsDigit(c)
    ensures r < 10
  {
    (c as int) - ('0' as int)
  }

  function DigitChar(n: nat): (r: char)
    requires n < 10
    ensures IsDigit(r) && DigitValue(r) == n
  {
    (('0' as int) + n) as char
  }

  /** The value of a decimal numeral (leading zeros allowed). */
  function Decimal(s: string): nat
    requires AllDigits(s)
  {
    if |s| == 0 then 0 else Decimal(s[..|s| - 1]) * 10 + DigitValue(s[|s| - 1])
  }

  function Pow10(w: nat): (r: nat)
    ensures r >= 1
  {
    if w == 0 then 1 else 10 * Pow10(w - 1)
  }

  /** `n` written with exactly `w` digits, zero-padded on the left. */
  function Padded(n: nat, w: nat): (r: string)
    requires n < Pow10(w)
    ensures |r| == w && AllDigits(r)
  {
    if w == 0 then "" else Padded(n / 10, w - 1) + [DigitChar(n % 10)]
  }

  /** Reading back a zero-padded numeral gives the number written. */
  lemma {:induction false} PaddedRoundTrip(n: nat, w: nat)
    requires n < Pow10(w)
    ensures Decimal(Padded(n, w)) == n
  {
    if w > 0 {
      var p := Padded(n, w);
      assert p[..|p| - 1] == Padded(n / 10, w - 1);
      PaddedRoundTrip(n / 10, w - 1);
    }
  }

  lemma {:induction false} DecimalBound(s: string)
    requires AllDigits(s)
    ensures Decimal(s) < Pow10(|s|)
  {
    if |s| > 0 {
      DecimalBound(s[..|s| - 1]);
    }
  }

  // ---------------------------------------------------------------------------
  // strconv.Atoi

  /** A decimal integer: an optional sign followed by at least one digit, and nothing else. */
  predicate IntegerSyntax(s: string) {
    if |s| > 0 && (s[0] == '+' || s[0] == '-') then |s| > 1 && AllDigits(s[1..])
    else |s| > 0 && AllDigits(s)
  }

  /** `strconv.Atoi` (integers unbounded: the out-of-range error is not modelled). */
  function Atoi(s: string): (r: Option<int>)
    ensures r.Some? <==> IntegerSyntax(s)
    ensures r.Some? && AllDigits(s) ==> r.value == Decimal(s)
    ensures r.Some? && s[0] == '-' ==> r.value == -(Decimal(s[1..]) as int)
  {
    if |s| > 0 && (s[0] == '+' || s[0] == '-') then
      if |s| > 1 && AllDigits(s[1..]) then Some(if s[0] == '-' then -(Decimal(s[1..]) as int) else Decimal(s[1..])) else None
    else if |s| > 0 && AllDigits(s) then Some(Decimal(s))
    else None
  }

  /** A zero-padded numeral reads back as its number. */
  lemma {:induction false} AtoiPadded(n: nat, w: nat)
    requires 1 <= w && n < Pow10(w)
    ensures Atoi(Padded(n, w)) == Some(n)
  {
    PaddedRoundTrip(n, w);
  }
}
