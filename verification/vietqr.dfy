/**
 * The bank directory: lookups and the case-insensitive search over a bank list.
 * The list itself comes from an HTTP fetch, which enters as a parameter.
 */
module VietQr {
  import opened Wrappers
  import opened Strings
  import opened Utf8

  datatype Bank = Bank(
    id: int, name: string, code: string, bin: string, shortName: string, logo: string,
    transferSupported: int, lookupSupported: int)

  datatype BankError = FetchFailed | CodeNotFound(code: string) | BinNotFound(bin: string)

  // ---------------------------------------------------------------------------
  // Lower-casing

  /** ASCII lower-casing of a whole string. */
  function ToLower(s: string): (r: string)
    ensures |r| == |s|
    ensures forall i | 0 <= i < |s| :: r[i] == Lower(s[i])
  {
    seq(|s|, i requires 0 <= i < |s| => Lower(s[i]))
  }

  /** Lower-casing twice is lower-casing once. */
  lemma ToLowerIdempotent(s: string)
    ensures ToLower(ToLower(s)) == ToLower(s)
  {
  }

  /** The result has no A–Z, and every other character is left alone. */
  lemma ToLowerExact(s: string)
    ensures forall i | 0 <= i < |s| :: !IsUpper(ToLower(s)[i])
    ensures forall i | 0 <= i < |s| :: (ToLower(s)[i] == s[i] <==> !IsUpper(s[i]))
    ensures IsAscii(s) ==> IsAscii(ToLower(s))
  {
  }

  /**
   * `toLowerASCII`, as written: a rune slice as long as the rune count is
   * indexed by the BYTE offset `range` yields, so the index runs past the end
   * (a panic, `None` here) as soon as a rune before the last is not ASCII.
   * When it does not panic, the result is the correct lower-casing.
   */
  method ToLowerAsWritten(s: string) returns (r: Option<string>)
    ensures r.None? <==> |s| > 0 && !IsAscii(s[..|s| - 1])
    ensures r.Some? ==> r.value == ToLower(s)
  {
    var result := seq(|s|, _ => 0 as char);
    var i := 0;
    ghost var prev := 0;
    for k := 0 to |s|
      invariant |result| == |s|
      invariant i >= k
      invariant i == k <==> IsAscii(s[..k])
      invariant k == 0 || IsAscii(s[..k - 1]) ==> forall j | 0 <= j < k :: result[j] == Lower(s[j])
      invariant k > 0 ==> prev < |s|
      invariant k > 0 && !IsAscii(s[..k - 1]) ==> prev >= k
    {
      if i >= |s| {
        NonAsciiPrefix(s, k, |s| - 1);
        return None;
      }
      assert s[..k + 1] == s[..k] + [s[k]];
      NonAsciiPrefix(s, k, k + 1);
      result := result[i := Lower(s[k])];
      prev := i;
      i := i + Width(s[k]);
    }
    assert forall j | 0 <= j < |s| :: result[j] == Lower(s[j]);
    r := Some(result);
  }

  /** A non-ASCII rune in a prefix stays in every longer prefix. */
  lemma {:induction false} NonAsciiPrefix(s: string, k: nat, m: nat)
    requires k <= m <= |s|
    ensures IsAscii(s[..m]) ==> IsAscii(s[..k])
  {
    if IsAscii(s[..m]) {
      forall j | 0 <= j < k
        ensures (s[..k][j] as int) < 0x80
      {
        assert s[..k][j] == s[..m][j];
      }
    }
  }

  /** What `toLowerASCII` produces: `None` is the panic. */
  function LowerOutcome(s: string): (r: Option<string>)
    ensures r.Some? ==> r.value == ToLower(s)
  {
    if |s| > 0 && !IsAscii(s[..|s| - 1]) then None else Some(ToLower(s))
  }

  /** A bank name with a Vietnamese letter before its end makes the as-written code panic. */
  lemma VietnameseNamePanics()
    ensures LowerOutcome("Ngân hàng A").None?
  {
    var s := "Ngân hàng A";
    assert (s[..|s| - 1][2] as int) >= 0x80;
  }

  // ---------------------------------------------------------------------------
  // Byte-level substring search

  /** `search`: tries every start index from `i` to |s| − |sub|. */
  function SearchFrom<T(==)>(s: seq<T>, sub: seq<T>, i: nat): (r: bool)
    ensures r <==> exists j | i <= j <= |s| - |sub| :: OccursAt(s, sub, j)
    decreases |s| - i
  {
    if i + |sub| > |s| then false
    else if s[i..i + |sub|] == sub then assert OccursAt(s, sub, i); true
    else SearchFrom(s, sub, i + 1)
  }

  /** `contains`: a length guard, an equality shortcut, then the search. */
  function Contains<T(==)>(s: seq<T>, sub: seq<T>): (r: bool)
    ensures r <==> Occurs(s, sub)
  {
    assert s == sub ==> OccursAt(s, sub, 0);
    |s| >= |sub| && (s == sub || SearchFrom(s, sub, 0))
  }

  /** The empty string is contained in every string. */
  lemma {:induction false} ContainsEmpty<T>(s: seq<T>)
    ensures Contains(s, [])
  {
    assert OccursAt(s, [], 0);
  }

  /** The bytes of ASCII text are its character codes. */
  function Codes(s: string): (r: seq<int>)
    ensures |r| == |s|
  {
    seq(|s|, i requires 0 <= i < |s| => s[i] as int)
  }

  /** Character codes are injective, so occurrences of codes are occurrences of characters. */
  lemma {:induction false} OccursCodes(s: string, sub: string, i: int)
    ensures OccursAt(Codes(s), Codes(sub), i) <==> OccursAt(s, sub, i)
  {
    if 0 <= i && i + |sub| <= |s| {
      if OccursAt(Codes(s), Codes(sub), i) {
        forall k | 0 <= k < |sub|
          ensures s[i + k] == sub[k]
        {
          assert Codes(s)[i..i + |sub|][k] == Codes(sub)[k];
        }
        assert s[i..i + |sub|] == sub;
      }
      if OccursAt(s, sub, i) {
        assert forall k | 0 <= k < |sub| :: Codes(s)[i + k] == Codes(sub)[k];
        assert Codes(s)[i..i + |sub|] == Codes(sub);
      }
    }
  }

  /** On ASCII text, searching the bytes is searching the characters. */
  lemma {:induction false} AsciiContains(s: string, sub: string)
    requires IsAscii(s) && IsAscii(sub)
    ensures Contains(Encode(s), Encode(sub)) <==> Occurs(s, sub)
  {
    AsciiEncoding(s);
    AsciiEncoding(sub);
    assert Encode(s) == Codes(s);
    assert Encode(sub) == Codes(sub);
    forall i
      ensures OccursAt(Codes(s), Codes(sub), i) <==> OccursAt(s, sub, i)
    {
      OccursCodes(s, sub, i);
    }
  }

  // ---------------------------------------------------------------------------
  // Search and lookup

  /** A bank matches when the lowered query occurs in its lowered name, code or short name. */
  predicate Hits(b: Bank, q: string) {
    || Contains(Encode(ToLower(b.name)), Encode(q))
    || Contains(Encode(ToLower(b.code)), Encode(q))
    || Contains(Encode(ToLower(b.shortName)), Encode(q))
  }

  /** SearchBanks, intended: the banks whose fields contain the query, in list order. */
  function SearchBanks(banks: seq<Bank>, query: string): (r: seq<Bank>)
    ensures |r| <= |banks|
    ensures forall b | b in r :: b in banks && Hits(b, ToLower(query))
    ensures forall b | b in banks && Hits(b, ToLower(query)) :: b in r
  {
    if |banks| == 0 then []
    else
      var rest := SearchBanks(banks[1..], query);
      assert forall b | b in banks[1..] :: b in banks;
      if Hits(banks[0], ToLower(query)) then [banks[0]] + rest else rest
  }

  /** Searching a concatenation concatenates the results: the input order is kept. */
  lemma {:induction false} SearchBanksConcat(a: seq<Bank>, b: seq<Bank>, query: string)
    ensures SearchBanks(a + b, query) == SearchBanks(a, query) + SearchBanks(b, query)
  {
    if |a| == 0 {
      assert a + b == b;
    } else {
      assert (a + b)[1..] == a[1..] + b;
      SearchBanksConcat(a[1..], b, query);
    }
  }

  /**
   * The match as the loop evaluates it: each field is lowered only when the
   * previous ones did not match, and a lowering that panics ends the request.
   */
  function HitsAsWritten(b: Bank, q: string): (r: Option<bool>)
    ensures r.Some? ==> r.value == Hits(b, q)
  {
    match LowerOutcome(b.name)
    case None => None
    case Some(n) =>
      if Contains(Encode(n), Encode(q)) then Some(true)
      else match LowerOutcome(b.code)
        case None => None
        case Some(c) =>
          if Contains(Encode(c), Encode(q)) then Some(true)
          else match LowerOutcome(b.shortName)
            case None => None
            case Some(sn) => Some(Contains(Encode(sn), Encode(q)))
  }

  function SearchLoop(banks: seq<Bank>, q: string): (r: Option<seq<Bank>>)
  {
    if |banks| == 0 then Some([])
    else match HitsAsWritten(banks[0], q)
      case None => None
      case Some(hit) =>
        match SearchLoop(banks[1..], q)
        case None => None
        case Some(rest) => Some(if hit then [banks[0]] + rest else rest)
  }

  /** SearchBanks as written: `None` when one of the lower-casings panics. */
  function SearchBanksAsWritten(banks: seq<Bank>, query: string): (r: Option<seq<Bank>>)
    ensures r.Some? ==> r.value == SearchBanks(banks, query)
  {
    match LowerOutcome(query)
    case None => None
    case Some(q) =>
      SearchLoopAgrees(banks, query);
      SearchLoop(banks, q)
  }

  lemma {:induction false} SearchLoopAgrees(banks: seq<Bank>, query: string)
    ensures SearchLoop(banks, ToLower(query)).Some? ==>
      SearchLoop(banks, ToLower(query)).value == SearchBanks(banks, query)
  {
    if |banks| > 0 {
      SearchLoopAgrees(banks[1..], query);
    }
  }

  predicate LowersSafely(s: string) {
    |s| == 0 || IsAscii(s[..|s| - 1])
  }

  /** When no name, code, short name or query has a non-ASCII rune before its end, the two agree. */
  lemma {:induction false} AsWrittenAgrees(banks: seq<Bank>, query: string)
    requires LowersSafely(query)
    requires forall b | b in banks :: LowersSafely(b.name) && LowersSafely(b.code) && LowersSafely(b.shortName)
    ensures SearchBanksAsWritten(banks, query) == Some(SearchBanks(banks, query))
  {
    LoopTotal(banks, ToLower(query));
  }

  lemma {:induction false} LoopTotal(banks: seq<Bank>, q: string)
    requires forall b | b in banks :: LowersSafely(b.name) && LowersSafely(b.code) && LowersSafely(b.shortName)
    ensures SearchLoop(banks, q).Some?
  {
    if |banks| > 0 {
      assert banks[0] in banks;
      assert forall b | b in banks[1..] :: b in banks;
      LoopTotal(banks[1..], q);
    }
  }

  /** A search over a list holding "Ngân hàng A" panics, whatever the query. */
  lemma {:induction false} SearchPanics(b: Bank, query: string)
    requires b.name == "Ngân hàng A"
    requires LowersSafely(query)
    ensures SearchBanksAsWritten([b], query).None?
  {
    VietnameseNamePanics();
  }

  /** The two fields a bank is looked up by. */
  datatype Key = ByCode | ByBin

  function KeyOf(b: Bank, k: Key): string {
    match k
    case ByCode => b.code
    case ByBin => b.bin
  }

  /** The error each lookup reports when no bank has the value. */
  function Missing(k: Key, value: string): BankError {
    match k
    case ByCode => CodeNotFound(value)
    case ByBin => BinNotFound(value)
  }

  predicate FirstAt(banks: seq<Bank>, i: int, k: Key, value: string) {
    0 <= i < |banks| && KeyOf(banks[i], k) == value && forall j | 0 <= j < i :: KeyOf(banks[j], k) != value
  }

  /** The first bank in list order whose field `k` equals `value`. */
  function FirstWith(banks: seq<Bank>, k: Key, value: string): (r: Result<Bank, BankError>)
    ensures r.Success? ==> exists i :: FirstAt(banks, i, k, value) && banks[i] == r.value
    ensures r.Failure? <==> forall b | b in banks :: KeyOf(b, k) != value
    ensures r.Failure? ==> r.error == Missing(k, value)
  {
    if |banks| == 0 then Failure(Missing(k, value))
    else if KeyOf(banks[0], k) == value then
      assert FirstAt(banks, 0, k, value);
      Success(banks[0])
    else
      var r := FirstWith(banks[1..], k, value);
      if r.Success? then
        var i :| FirstAt(banks[1..], i, k, value) && banks[1..][i] == r.value;
        assert FirstAt(banks, i + 1, k, value);
        r
      else
        assert forall b | b in banks :: b == banks[0] || b in banks[1..];
        r
  }

  /** GetBankByCode: the first bank in list order whose code equals `code`. */
  function GetBankByCode(fetched: Result<seq<Bank>, BankError>, code: string): (r: Result<Bank, BankError>)
    ensures fetched.Failure? ==> r == Failure(fetched.error)
    ensures fetched.Success? && r.Success? ==>
      exists i :: FirstAt(fetched.value, i, ByCode, code) && fetched.value[i] == r.value
    ensures fetched.Success? ==> (r.Failure? <==> forall b | b in fetched.value :: b.code != code)
    ensures fetched.Success? && r.Failure? ==> r.error == CodeNotFound(code)
  {
    match fetched
    case Failure(e) => Failure(e)
    case Success(banks) => FirstWith(banks, ByCode, code)
  }

  /** GetBankByBIN: the first bank in list order whose BIN equals `bin`. */
  function GetBankByBin(fetched: Result<seq<Bank>, BankError>, bin: string): (r: Result<Bank, BankError>)
    ensures fetched.Failure? ==> r == Failure(fetched.error)
    ensures fetched.Success? && r.Success? ==>
      exists i :: FirstAt(fetched.value, i, ByBin, bin) && fetched.value[i] == r.value
    ensures fetched.Success? ==> (r.Failure? <==> forall b | b in fetched.value :: b.bin != bin)
    ensures fetched.Success? && r.Failure? ==> r.error == BinNotFound(bin)
  {
    match fetched
    case Failure(e) => Failure(e)
    case Success(banks) => FirstWith(banks, ByBin, bin)
  }

  /** A bank is found by its own code or BIN whenever no earlier bank shares it. */
  lemma {:induction false} FoundByOwnKey(banks: seq<Bank>, i: nat, k: Key)
    requires i < |banks|
    requires forall j | 0 <= j < i :: KeyOf(banks[j], k) != KeyOf(banks[i], k)
    ensures FirstWith(banks, k, KeyOf(banks[i], k)) == Success(banks[i])
  {
    if i > 0 {
      FoundByOwnKey(banks[1..], i - 1, k);
    }
  }
}
