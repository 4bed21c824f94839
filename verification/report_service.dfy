/**
 * Reports over the transactions a period's query returned: the overview totals,
 * the comparison with the previous period, the breakdowns by category and by
 * merchant sorted by amount, and the weekly spending and cash-flow tables of a
 * month.
 */
module ReportService {
  import opened Wrappers
  import opened Models
  import opened Calendar
  import opened Strings
  import Utf8

  // ---------------------------------------------------------------------------
  // Overview

  /** The count and the amount of the transactions of one type. */
  function CountOf(ts: seq<Transaction>, k: TxType): nat {
    if |ts| == 0 then 0 else (if ts[0].kind == k then 1 else 0) + CountOf(ts[1..], k)
  }

  function AmountOf(ts: seq<Transaction>, k: TxType): int {
    if |ts| == 0 then 0 else (if ts[0].kind == k then ts[0].amount else 0) + AmountOf(ts[1..], k)
  }

  /** Every transaction has exactly one of the three types. */
  lemma {:induction false} CountsPartition(ts: seq<Transaction>)
    ensures CountOf(ts, Income) + CountOf(ts, Expense) + CountOf(ts, Transfer) == |ts|
  {
    if |ts| > 0 {
      CountsPartition(ts[1..]);
    }
  }

  lemma {:induction false} TotalsAppend(a: seq<Transaction>, b: seq<Transaction>, k: TxType)
    ensures CountOf(a + b, k) == CountOf(a, k) + CountOf(b, k)
    ensures AmountOf(a + b, k) == AmountOf(a, k) + AmountOf(b, k)
  {
    if |a| == 0 {
      assert a + b == b;
    } else {
      assert (a + b)[1..] == a[1..] + b;
      TotalsAppend(a[1..], b, k);
    }
  }

  datatype Overview = Overview(
    totalIncome: int,
    totalExpense: int,
    netSaving: int,
    savingRate: real,
    transactionCount: nat,
    avgDailyExpense: real,
    comparedToPrevMonth: Comparison)

  datatype Comparison = Comparison(income: real, expense: real, saving: real)

  /** The saving rate, in percent of income; zero unless there is income. */
  function SavingRate(income: int, net: int): (r: real)
    ensures income > 0 ==> r * (income as real) == (net as real) * 100.0
    ensures income <= 0 ==> r == 0.0
    ensures income > 0 ==> (r > 0.0 <==> net > 0) && (r == 100.0 <==> net == income)
  {
    if income > 0 then
      RatioFacts(net as real, income as real);
      ((net as real) / (income as real)) * 100.0
    else 0.0
  }

  /** A quotient times 100: its product with the denominator, its sign, and when it is 0 or 100. */
  lemma {:induction false} RatioFacts(x: real, d: real)
    requires d != 0.0
    ensures (x / d) * 100.0 * d == x * 100.0
    ensures d > 0.0 ==> ((x / d) * 100.0 > 0.0 <==> x > 0.0)
    ensures (x / d) * 100.0 == 0.0 <==> x == 0.0
    ensures (x / d) * 100.0 == 100.0 <==> x == d
  {
    var q := x / d;
    assert q * d == x;
    assert q * 100.0 * d == (q * d) * 100.0;
    assert d > 0.0 ==> (q > 0.0 <==> x > 0.0);
    assert q == 0.0 <==> x == 0.0;
    assert q == 1.0 <==> x == d;
  }

  /**
   * calculatePercentageChange: the change from `before` to `after` in percent of `before`;
   * from zero it is 100 when the after value is positive and 0 otherwise.
   */
  function PercentageChange(before: int, after: int): (r: real)
    ensures before == 0 ==> r == (if after > 0 then 100.0 else 0.0)
    ensures before != 0 ==> r * (before as real) == ((after - before) as real) * 100.0
    ensures before > 0 ==> (r > 0.0 <==> after > before) && (r == 0.0 <==> after == before)
  {
    if before == 0 then (if after > 0 then 100.0 else 0.0)
    else
      RatioFacts((after - before) as real, before as real);
      (((after - before) as real) / (before as real)) * 100.0
  }

  /**
   * calculateComparison: the changes from the previous period's totals; a failed
   * fetch of the previous period (`None`) gives zero changes.
   */
  function Compare(prev: Option<seq<Transaction>>, income: int, expense: int, saving: int): (r: Comparison)
    ensures prev.None? ==> r == Comparison(0.0, 0.0, 0.0)
    ensures prev.Some? ==> var pi := AmountOf(prev.value, Income); var pe := AmountOf(prev.value, Expense);
      r == Comparison(PercentageChange(pi, income), PercentageChange(pe, expense), PercentageChange(pi - pe, saving))
  {
    match prev
    case None => Comparison(0.0, 0.0, 0.0)
    case Some(ps) =>
      var pi := AmountOf(ps, Income);
      var pe := AmountOf(ps, Expense);
      Comparison(PercentageChange(pi, income), PercentageChange(pe, expense), PercentageChange(pi - pe, saving))
  }

  /**
   * GetOverview over the period's transactions and the period's length in seconds:
   * transfers are neither counted nor totalled; a zero-length period counts as one day.
   */
  function GetOverview(ts: seq<Transaction>, seconds: int, prev: Option<seq<Transaction>>): (r: Overview)
    ensures r.transactionCount + CountOf(ts, Transfer) == |ts|
    ensures r.netSaving == r.totalIncome - r.totalExpense
    ensures r.totalIncome == AmountOf(ts, Income) && r.totalExpense == AmountOf(ts, Expense)
    ensures r.savingRate == SavingRate(r.totalIncome, r.netSaving)
    ensures seconds == 0 ==> r.avgDailyExpense == r.totalExpense as real
    ensures seconds != 0 ==> r.avgDailyExpense * (seconds as real) == (r.totalExpense as real) * (SecondsPerDay as real)
    ensures r.comparedToPrevMonth == Compare(prev, r.totalIncome, r.totalExpense, r.netSaving)
  {
    CountsPartition(ts);
    var income := AmountOf(ts, Income);
    var expense := AmountOf(ts, Expense);
    var days := (seconds as real) / (SecondsPerDay as real);
    var days' := if days == 0.0 then 1.0 else days;
    Overview(income, expense, income - expense, SavingRate(income, income - expense),
             CountOf(ts, Income) + CountOf(ts, Expense), (expense as real) / days',
             Compare(prev, income, expense, income - expense))
  }

  /** Adding a transfer to the period changes nothing in the overview. */
  lemma {:induction false} TransferChangesNothing(ts: seq<Transaction>, t: Transaction, seconds: int, prev: Option<seq<Transaction>>)
    requires t.kind == Transfer
    ensures GetOverview(ts + [t], seconds, prev) == GetOverview(ts, seconds, prev)
  {
    TotalsAppend(ts, [t], Income);
    TotalsAppend(ts, [t], Expense);
  }

  /** The overview of two periods' transactions adds up their totals and counts. */
  lemma {:induction false} OverviewAdds(a: seq<Transaction>, b: seq<Transaction>, seconds: int, prev: Option<seq<Transaction>>)
    ensures var oa := GetOverview(a, seconds, prev); var ob := GetOverview(b, seconds, prev);
      var o := GetOverview(a + b, seconds, prev);
      && o.totalIncome == oa.totalIncome + ob.totalIncome
      && o.totalExpense == oa.totalExpense + ob.totalExpense
      && o.transactionCount == oa.transactionCount + ob.transactionCount
  {
    TotalsAppend(a, b, Income);
    TotalsAppend(a, b, Expense);
    TotalsAppend(a, b, Transfer);
  }

  // ---------------------------------------------------------------------------
  // Breakdowns by category and by merchant

  datatype Basis = ByCategory | ByMerchant

  /** The key a breakdown groups by. */
  function KeyOf(b: Basis, t: Transaction): Option<string> {
    if b == ByCategory then t.categoryId else t.merchant
  }

  /** Only expenses carrying a key are counted. */
  predicate Counted(b: Basis, t: Transaction) {
    t.kind == Expense && KeyOf(b, t).Some?
  }

  predicate CountedUnder(b: Basis, t: Transaction, key: string) {
    Counted(b, t) && KeyOf(b, t).value == key
  }

  /** The amount and the count of the counted expenses under one key. */
  function AmountFor(b: Basis, ts: seq<Transaction>, key: string): int {
    if |ts| == 0 then 0
    else AmountFor(b, ts[..|ts| - 1], key) + (if CountedUnder(b, ts[|ts| - 1], key) then ts[|ts| - 1].amount else 0)
  }

  function CountFor(b: Basis, ts: seq<Transaction>, key: string): nat {
    if |ts| == 0 then 0
    else CountFor(b, ts[..|ts| - 1], key) + (if CountedUnder(b, ts[|ts| - 1], key) then 1 else 0)
  }

  lemma {:induction false} CountForZero(b: Basis, ts: seq<Transaction>, key: string)
    ensures CountFor(b, ts, key) == 0 <==> forall t | t in ts :: !CountedUnder(b, t, key)
  {
    if |ts| > 0 {
      var init := ts[..|ts| - 1];
      assert ts == init + [ts[|ts| - 1]];
      assert forall t | t in ts :: t in init || t == ts[|ts| - 1];
      assert forall t | t in init :: t in ts;
      CountForZero(b, init, key);
    }
  }

  /** The amount of all counted expenses. */
  function CountedTotal(b: Basis, ts: seq<Transaction>): int {
    if |ts| == 0 then 0
    else CountedTotal(b, ts[..|ts| - 1]) + (if Counted(b, ts[|ts| - 1]) then ts[|ts| - 1].amount else 0)
  }

  /** One row of a breakdown. */
  datatype Line = Line(key: string, amount: int, count: nat)

  predicate DistinctKeys(ls: seq<Line>) {
    forall i, j | 0 <= i < j < |ls| :: ls[i].key != ls[j].key
  }

  /** The row under `key`, if any. */
  function Find(ls: seq<Line>, key: string): (r: Option<Line>)
    ensures r.Some? ==> r.value in ls && r.value.key == key
    ensures r.None? <==> forall l | l in ls :: l.key != key
  {
    if |ls| == 0 then None else if ls[0].key == key then Some(ls[0]) else Find(ls[1..], key)
  }

  /** With distinct keys, every row is the one its key finds. */
  lemma {:induction false} FindMember(ls: seq<Line>, l: Line)
    requires DistinctKeys(ls) && l in ls
    ensures Find(ls, l.key) == Some(l)
  {
    if ls[0] != l {
      assert ls[0].key != l.key by {
        var k :| 0 <= k < |ls| && ls[k] == l;
      }
      assert DistinctKeys(ls[1..]);
      FindMember(ls[1..], l);
    }
  }

  function LinesTotal(ls: seq<Line>): int {
    if |ls| == 0 then 0 else ls[0].amount + LinesTotal(ls[1..])
  }

  /** Add one expense to the row under its key, opening the row if there is none. */
  function AddTo(ls: seq<Line>, key: string, amount: int): (r: seq<Line>)
    requires DistinctKeys(ls)
    ensures DistinctKeys(r)
    ensures Find(r, key) == Some(Bumped(Find(ls, key), key, amount))
    ensures forall k | k != key :: Find(r, k) == Find(ls, k)
  {
    if |ls| == 0 then [Line(key, amount, 1)]
    else if ls[0].key == key then
      var r := [Bumped(Some(ls[0]), key, amount)] + ls[1..];
      assert r[1..] == ls[1..];
      r
    else
      assert DistinctKeys(ls[1..]);
      var rest := AddTo(ls[1..], key, amount);
      HeadKeyOnce(ls);
      assert Find(rest, ls[0].key) == Find(ls[1..], ls[0].key);
      ConsDistinct(ls[0], rest);
      var r := [ls[0]] + rest;
      assert r[1..] == rest;
      r
  }

  /** With distinct keys, the first row's key appears nowhere after it. */
  lemma {:induction false} HeadKeyOnce(ls: seq<Line>)
    requires DistinctKeys(ls) && |ls| > 0
    ensures Find(ls[1..], ls[0].key).None?
  {
    forall l | l in ls[1..] ensures l.key != ls[0].key {
      var k :| 0 <= k < |ls[1..]| && ls[1..][k] == l;
      assert ls[k + 1] == l;
    }
  }

  /** A row whose key the rest lacks can lead distinct rows. */
  lemma {:induction false} ConsDistinct(l: Line, rest: seq<Line>)
    requires DistinctKeys(rest) && Find(rest, l.key).None?
    ensures DistinctKeys([l] + rest)
  {
    var r := [l] + rest;
    forall i, j | 0 <= i < j < |r| ensures r[i].key != r[j].key {
      assert r[j] == rest[j - 1];
      if i > 0 {
        assert r[i] == rest[i - 1];
      } else {
        assert rest[j - 1] in rest;
      }
    }
  }

  /** The row under `key` after one more expense of `amount`. */
  function Bumped(before: Option<Line>, key: string, amount: int): Line {
    if before.Some? then Line(key, before.value.amount + amount, before.value.count + 1) else Line(key, amount, 1)
  }

  lemma {:induction false} AddToTotal(ls: seq<Line>, key: string, amount: int)
    requires DistinctKeys(ls)
    ensures LinesTotal(AddTo(ls, key, amount)) == LinesTotal(ls) + amount
  {
    if |ls| > 0 && ls[0].key != key {
      assert DistinctKeys(ls[1..]);
      AddToTotal(ls[1..], key, amount);
    }
  }

  /**
   * The grouping: one row per key met, in the order keys are first met, holding the
   * amount and the count of the counted expenses under that key.
   */
  function Group(b: Basis, ts: seq<Transaction>): (r: seq<Line>)
    ensures DistinctKeys(r)
    ensures forall key :: Find(r, key) == Expected(b, ts, key)
  {
    if |ts| == 0 then []
    else
      var g := Group(b, ts[..|ts| - 1]);
      var t := ts[|ts| - 1];
      ExpectedStep(b, ts);
      if Counted(b, t) then AddTo(g, KeyOf(b, t).value, t.amount) else g
  }

  /** One more transaction bumps the expected row of its own key and leaves every other key's. */
  lemma {:induction false} ExpectedStep(b: Basis, ts: seq<Transaction>)
    requires |ts| > 0
    ensures var t := ts[|ts| - 1];
      forall key :: Expected(b, ts, key) ==
        if CountedUnder(b, t, key) then Some(Bumped(Expected(b, ts[..|ts| - 1], key), key, t.amount))
        else Expected(b, ts[..|ts| - 1], key)
  {
    var init := ts[..|ts| - 1];
    var t := ts[|ts| - 1];
    forall key ensures Expected(b, ts, key) ==
      if CountedUnder(b, t, key) then Some(Bumped(Expected(b, init, key), key, t.amount)) else Expected(b, init, key)
    {
      NoCountNoAmount(b, init, key);
    }
  }

  lemma {:induction false} NoCountNoAmount(b: Basis, ts: seq<Transaction>, key: string)
    ensures CountFor(b, ts, key) == 0 ==> AmountFor(b, ts, key) == 0
  {
    if |ts| > 0 {
      NoCountNoAmount(b, ts[..|ts| - 1], key);
    }
  }

  /** The row a key should have: its counted amount and count, or none when nothing is counted under it. */
  function Expected(b: Basis, ts: seq<Transaction>, key: string): Option<Line> {
    if CountFor(b, ts, key) > 0 then Some(Line(key, AmountFor(b, ts, key), CountFor(b, ts, key))) else None
  }

  /** The rows add up to the amount of all counted expenses. */
  lemma {:induction false} GroupTotal(b: Basis, ts: seq<Transaction>)
    ensures LinesTotal(Group(b, ts)) == CountedTotal(b, ts)
  {
    if |ts| > 0 {
      GroupTotal(b, ts[..|ts| - 1]);
      var t := ts[|ts| - 1];
      if Counted(b, t) {
        AddToTotal(Group(b, ts[..|ts| - 1]), KeyOf(b, t).value, t.amount);
      }
    }
  }

  /** `a` may come before `b` in a breakdown: amounts descend. */
  predicate Descending(ls: seq<Line>) {
    forall i, j | 0 <= i < j < |ls| :: ls[i].amount >= ls[j].amount
  }

  function InsertDesc(l: Line, ls: seq<Line>): (r: seq<Line>)
    requires Descending(ls)
    ensures Descending(r)
    ensures multiset(r) == multiset(ls) + multiset{l}
  {
    if |ls| == 0 then [l]
    else if l.amount >= ls[0].amount then
      DescendingHead(l, ls);
      [l] + ls
    else
      DescendingTail(ls);
      var rest := InsertDesc(l, ls[1..]);
      assert ls == [ls[0]] + ls[1..];
      BelowHead(l, ls, rest);
      DescendingHead(ls[0], rest);
      [ls[0]] + rest
  }

  lemma {:induction false} DescendingTail(ls: seq<Line>)
    requires Descending(ls) && |ls| > 0
    ensures Descending(ls[1..])
  {
    forall i, j | 0 <= i < j < |ls[1..]| ensures ls[1..][i].amount >= ls[1..][j].amount {
      assert ls[i + 1].amount >= ls[j + 1].amount;
    }
  }

  /** A row no smaller than the head of a descending list may go in front of it. */
  lemma {:induction false} DescendingHead(l: Line, ls: seq<Line>)
    requires Descending(ls)
    requires |ls| == 0 || l.amount >= ls[0].amount
    ensures Descending([l] + ls)
  {
    forall i, j | 0 <= i < j < |[l] + ls| ensures ([l] + ls)[i].amount >= ([l] + ls)[j].amount {
      if i > 0 {
        assert ([l] + ls)[i] == ls[i - 1];
      } else if j > 1 {
        assert ls[0].amount >= ls[j - 1].amount;
      }
    }
  }

  /** Inserting a smaller row behind the head keeps the head at the top. */
  lemma {:induction false} BelowHead(l: Line, ls: seq<Line>, rest: seq<Line>)
    requires Descending(ls) && |ls| > 0 && l.amount < ls[0].amount
    requires multiset(rest) == multiset(ls[1..]) + multiset{l}
    ensures |rest| == 0 || ls[0].amount >= rest[0].amount
  {
    if |rest| > 0 {
      assert rest[0] in multiset(rest);
      if rest[0] != l {
        assert rest[0] in multiset(ls[1..]);
        var k :| 0 <= k < |ls[1..]| && ls[1..][k] == rest[0];
        assert ls[0].amount >= ls[k + 1].amount;
      }
    }
  }

  /** The "amount descending" sort of the breakdowns: a permutation with amounts descending. */
  function SortDesc(ls: seq<Line>): (r: seq<Line>)
    ensures Descending(r)
    ensures multiset(r) == multiset(ls)
  {
    if |ls| == 0 then []
    else
      assert ls == [ls[0]] + ls[1..];
      InsertDesc(ls[0], SortDesc(ls[1..]))
  }

  /** GetByCategory / GetByMerchant: the grouping sorted by amount, largest first. */
  function Breakdown(b: Basis, ts: seq<Transaction>): (r: seq<Line>)
    ensures Descending(r)
    ensures multiset(r) == multiset(Group(b, ts))
  {
    SortDesc(Group(b, ts))
  }

  predicate HasRow(ls: seq<Line>, key: string) {
    exists l | l in ls :: l.key == key
  }

  predicate HasCounted(b: Basis, ts: seq<Transaction>, key: string) {
    exists t | t in ts :: CountedUnder(b, t, key)
  }

  /**
   * A row is in the breakdown exactly when its key carries counted expenses and it
   * holds their amount and count; and a key has a row exactly when some counted
   * expense carries it.
   */
  lemma {:induction false} BreakdownMeaning(b: Basis, ts: seq<Transaction>)
    ensures forall l :: l in Breakdown(b, ts) <==> Expected(b, ts, l.key) == Some(l)
    ensures forall key :: HasRow(Breakdown(b, ts), key) <==> HasCounted(b, ts, key)
  {
    var g := Group(b, ts);
    var r := Breakdown(b, ts);
    forall l ensures l in r <==> Expected(b, ts, l.key) == Some(l) {
      assert l in r <==> l in multiset(g);
      if l in g {
        FindMember(g, l);
      }
    }
    forall key ensures HasRow(r, key) <==> HasCounted(b, ts, key) {
      CountForZero(b, ts, key);
      if CountFor(b, ts, key) > 0 {
        assert Line(key, AmountFor(b, ts, key), CountFor(b, ts, key)) in r;
      }
    }
  }

  /** No key has two rows in a breakdown. */
  lemma {:induction false} BreakdownDistinct(b: Basis, ts: seq<Transaction>)
    ensures DistinctKeys(Breakdown(b, ts))
  {
    PermutationKeepsDistinct(Group(b, ts), Breakdown(b, ts));
  }

  lemma {:induction false} PermutationKeepsDistinct(g: seq<Line>, r: seq<Line>)
    requires DistinctKeys(g) && multiset(r) == multiset(g)
    ensures DistinctKeys(r)
  {
    forall i, j | 0 <= i < j < |r| ensures r[i].key != r[j].key {
      if r[i].key == r[j].key {
        assert r[i] in multiset(g) && r[j] in multiset(g);
        FindMember(g, r[i]);
        FindMember(g, r[j]);
        TwoPositions(r, i, j);
        DistinctOnce(g, r[i]);
        assert false;
      }
    }
  }

  lemma {:induction false} TwoPositions(r: seq<Line>, i: int, j: int)
    requires 0 <= i < j < |r| && r[i] == r[j]
    ensures multiset(r)[r[i]] >= 2
  {
    assert r == r[..j] + r[j..];
    assert r[i] in r[..j];
    assert r[j] == r[j..][0];
  }

  /** With distinct keys a row occurs once. */
  lemma {:induction false} DistinctOnce(ls: seq<Line>, l: Line)
    requires DistinctKeys(ls)
    ensures multiset(ls)[l] <= 1
  {
    if |ls| > 0 {
      assert ls == [ls[0]] + ls[1..];
      assert DistinctKeys(ls[1..]);
      DistinctOnce(ls[1..], l);
      if ls[0] == l {
        forall x | x in ls[1..] ensures x.key != l.key {
          var k :| 0 <= k < |ls[1..]| && ls[1..][k] == x;
          assert ls[k + 1] == x;
        }
      }
    }
  }

  // ---------------------------------------------------------------------------
  // Weekly tables

  datatype ReportError = InvalidMonthFormat | MonthParseError

  /**
   * parseMonthRangeForReport: a pre-check on the bytes, as Go's `len(month)` and
   * `month[4]` see them, of length 7 with '-' at byte 4; then the "2006-01" layout. The
   * range runs from the month's first instant to its last second.
   */
  function ReportMonthRange(month: string): (r: Result<(int, int), ReportError>)
    ensures r == Failure(InvalidMonthFormat) <==> Utf8.ByteLen(month) != 7 || Utf8.Encode(month)[4] != '-' as int
    ensures r.Success? <==> ParseYearMonth(month).Some?
    ensures r.Success? ==> r.value == MonthRange(ParseYearMonth(month).value.0, ParseYearMonth(month).value.1)
    ensures r.Success? ==> r.value.0 <= r.value.1 && r.value.1 - r.value.0 < 31 * SecondsPerDay
  {
    ShapeBytes(month);
    if Utf8.ByteLen(month) != 7 || Utf8.Encode(month)[4] != '-' as int then Failure(InvalidMonthFormat)
    else match ParseYearMonth(month)
      case None => Failure(MonthParseError)
      case Some((y, m)) => Success(MonthRange(y, m))
  }

  /** A string in the "2006-01" shape is ASCII, so its bytes are its characters. */
  lemma ShapeBytes(month: string)
    ensures YearMonthShape(month) ==> Utf8.ByteLen(month) == 7 && Utf8.Encode(month)[4] == '-' as int
  {
    if YearMonthShape(month) {
      forall i | 0 <= i < 7 ensures (month[i] as int) < 0x80 {
        if i < 4 {
          assert IsDigit(month[..4][i]);
        } else if i > 4 {
          assert IsDigit(month[5..7][i - 5]);
        }
      }
      Utf8.AsciiEncoding(month);
    }
  }

  /**
   * The pre-check counts bytes: seven characters of eight bytes fail it, and six
   * characters of seven bytes with '-' at byte 4 pass it and fail the layout.
   */
  lemma PreCheckCountsBytes()
    ensures ReportMonthRange("2024-0é") == Failure(InvalidMonthFormat)
    ensures ReportMonthRange("2024-é") == Failure(MonthParseError)
  {
    var long := "2024-0é";
    assert long[..6] == "2024-0";
    Utf8.AsciiPrefixBytes(long, 6);
    assert Utf8.ByteLen(long) == Utf8.ByteLen(long[..6]) + Utf8.Width(long[6]) == 8;
    var short := "2024-é";
    assert short[..5] == "2024-";
    Utf8.AsciiPrefixBytes(short, 5);
    assert Utf8.ByteLen(short) == Utf8.ByteLen(short[..5]) + Utf8.Width(short[5]) == 7;
    assert Utf8.Encode(short)[4] == '-' as int;
  }

  function Max(a: int, b: int): int { if a >= b then a else b }
  function Min(a: int, b: int): int { if a <= b then a else b }

  /** A week clipped to the month: its first and last second, both included. */
  datatype Window = Window(lo: int, hi: int)

  /** The week starting at `ws`, clipped to [lo, hi]. */
  function Clipped(ws: int, lo: int, hi: int): Window {
    Window(Max(ws, lo), Min(ws + SecondsPerWeek - 1, hi))
  }

  /** The weeks from `ws` on, one per seven days, while the week starts no later than `hi`. */
  function Weeks(ws: int, lo: int, hi: int): (r: seq<Window>)
    ensures ws > hi <==> |r| == 0
    decreases if ws > hi then 0 else hi - ws + 1
  {
    if ws > hi then [] else [Clipped(ws, lo, hi)] + Weeks(ws + SecondsPerWeek, lo, hi)
  }

  /** One week for every seven days from `ws` up to `hi`, the last one possibly partial. */
  lemma {:induction false} WeeksLength(ws: int, lo: int, hi: int)
    ensures |Weeks(ws, lo, hi)| == if ws > hi then 0 else (hi - ws) / SecondsPerWeek + 1
    decreases if ws > hi then 0 else hi - ws + 1
  {
    if ws <= hi {
      WeeksLength(ws + SecondsPerWeek, lo, hi);
    }
  }

  /** The same loop, stopped after `left` more weeks. */
  function WeeksCapped(ws: int, lo: int, hi: int, left: nat): (r: seq<Window>)
    ensures |r| <= left && |r| <= |Weeks(ws, lo, hi)|
    ensures r == Weeks(ws, lo, hi)[..|r|]
    ensures forall w | w in r :: w.hi <= ws + left * SecondsPerWeek - 1
    decreases left
  {
    if left == 0 || ws > hi then []
    else
      var rest := WeeksCapped(ws + SecondsPerWeek, lo, hi, left - 1);
      var all := Weeks(ws + SecondsPerWeek, lo, hi);
      assert ([Clipped(ws, lo, hi)] + all)[..1 + |rest|] == [Clipped(ws, lo, hi)] + all[..|rest|];
      [Clipped(ws, lo, hi)] + rest
  }

  /** The weeks of a month's range as the weekly reports walk them: from the Monday of its first day to its end. */
  function WeekWindows(lo: int, hi: int): seq<Window> {
    Weeks(WeekStart(lo), lo, hi)
  }

  /** The weeks as the reports' loops produce them: never more than five. */
  function WeekWindowsAsWritten(lo: int, hi: int): (r: seq<Window>)
    ensures |r| <= 5
  {
    WeeksCapped(WeekStart(lo), lo, hi, 5)
  }

  /** A range of at most 31 days, such as a month's, touches at most six Monday-to-Sunday weeks. */
  lemma {:induction false} AtMostSixWeeks(lo: int, hi: int)
    requires hi - lo < 31 * SecondsPerDay
    ensures |WeekWindows(lo, hi)| <= 6
  {
    var ws := WeekStart(lo);
    WeeksLength(ws, lo, hi);
    assert hi - ws < 6 * SecondsPerWeek;
  }

  /** When the month ends before a sixth week would start, the cap changes nothing. */
  lemma CapHarmlessWhenShort(lo: int, hi: int)
    requires hi < WeekStart(lo) + 5 * SecondsPerWeek
    ensures WeekWindowsAsWritten(lo, hi) == WeekWindows(lo, hi)
  {
  }

  /** Which transactions a weekly column counts: one type, and one category when one is given. */
  datatype Selection = Selection(kind: TxType, categoryId: Option<string>)

  predicate Selected(t: Transaction, sel: Selection) {
    t.kind == sel.kind && (sel.categoryId.Some? ==> t.categoryId == sel.categoryId)
  }

  datatype Tally = Tally(amount: int, count: nat)

  function Plus(a: Tally, b: Tally): Tally {
    Tally(a.amount + b.amount, a.count + b.count)
  }

  /** The amount and count of the selected transactions dated within the window. */
  function TallyIn(ts: seq<Transaction>, sel: Selection, lo: int, hi: int): Tally {
    if |ts| == 0 then Tally(0, 0) else Plus(Contribution(ts[0], sel, lo, hi), TallyIn(ts[1..], sel, lo, hi))
  }

  /** What one transaction adds to the tally of [lo, hi]. */
  function Contribution(t: Transaction, sel: Selection, lo: int, hi: int): Tally {
    if Selected(t, sel) && lo <= t.date <= hi then Tally(t.amount, 1) else Tally(0, 0)
  }

  lemma {:induction false} EmptyWindow(ts: seq<Transaction>, sel: Selection, lo: int, hi: int)
    requires lo > hi
    ensures TallyIn(ts, sel, lo, hi) == Tally(0, 0)
  {
    if |ts| > 0 {
      EmptyWindow(ts[1..], sel, lo, hi);
      assert Contribution(ts[0], sel, lo, hi) == Tally(0, 0);
    }
  }

  /** A window cut in two tallies what its halves tally: amounts and counts add up. */
  lemma {:induction false} SplitWindow(ts: seq<Transaction>, sel: Selection, a: int, b: int, c: int)
    requires a <= b + 1 && b <= c
    ensures TallyIn(ts, sel, a, c).amount == TallyIn(ts, sel, a, b).amount + TallyIn(ts, sel, b + 1, c).amount
    ensures TallyIn(ts, sel, a, c).count == TallyIn(ts, sel, a, b).count + TallyIn(ts, sel, b + 1, c).count
  {
    if |ts| > 0 {
      SplitWindow(ts[1..], sel, a, b, c);
      SplitContribution(ts[0], sel, a, b, c);
      Regroup(Contribution(ts[0], sel, a, b), Contribution(ts[0], sel, b + 1, c), TallyIn(ts[1..], sel, a, b), TallyIn(ts[1..], sel, b + 1, c));
    }
  }

  lemma Regroup(p: Tally, q: Tally, x: Tally, y: Tally)
    ensures Plus(Plus(p, q), Plus(x, y)) == Plus(Plus(p, x), Plus(q, y))
  {
  }

  lemma {:induction false} SplitContribution(t: Transaction, sel: Selection, a: int, b: int, c: int)
    requires a <= b + 1 && b <= c
    ensures Contribution(t, sel, a, c) == Plus(Contribution(t, sel, a, b), Contribution(t, sel, b + 1, c))
  {
    if Selected(t, sel) {
      SplitDate(t.date, t.amount, a, b, c);
    }
  }

  /** The tally of one selected transaction in [a, c] is its tally in [a, b] plus its tally in [b + 1, c]. */
  lemma SplitDate(date: int, amount: int, a: int, b: int, c: int)
    requires a <= b + 1 && b <= c
    ensures (if a <= date <= c then Tally(amount, 1) else Tally(0, 0))
      == Plus(if a <= date <= b then Tally(amount, 1) else Tally(0, 0), if b + 1 <= date <= c then Tally(amount, 1) else Tally(0, 0))
  {
  }

  function SumWindows(ts: seq<Transaction>, sel: Selection, ws: seq<Window>): Tally {
    if |ws| == 0 then Tally(0, 0) else Plus(TallyIn(ts, sel, ws[0].lo, ws[0].hi), SumWindows(ts, sel, ws[1..]))
  }

  /** The tally of a window is the tally of its first part plus that of the rest. */
  lemma {:induction false} SplitTally(ts: seq<Transaction>, sel: Selection, a: int, b: int, c: int)
    requires a <= b + 1 && b <= c
    ensures TallyIn(ts, sel, a, c) == Plus(TallyIn(ts, sel, a, b), TallyIn(ts, sel, b + 1, c))
  {
    SplitWindow(ts, sel, a, b, c);
  }

  /** The first week, clipped, followed by the weeks after it. */
  lemma {:induction false} SumWeeksStep(ts: seq<Transaction>, sel: Selection, ws: int, lo: int, hi: int)
    requires ws <= hi
    ensures SumWindows(ts, sel, Weeks(ws, lo, hi))
      == Plus(TallyIn(ts, sel, Max(ws, lo), Min(ws + SecondsPerWeek - 1, hi)), SumWindows(ts, sel, Weeks(ws + SecondsPerWeek, lo, hi)))
  {
    var rest := Weeks(ws + SecondsPerWeek, lo, hi);
    assert Weeks(ws, lo, hi) == [Clipped(ws, lo, hi)] + rest;
    assert ([Clipped(ws, lo, hi)] + rest)[1..] == rest;
  }

  /** The weeks from `ws` together tally exactly what lies between max(ws, lo) and hi. */
  lemma {:induction false} WeeksCover(ts: seq<Transaction>, sel: Selection, ws: int, lo: int, hi: int)
    ensures SumWindows(ts, sel, Weeks(ws, lo, hi)) == TallyIn(ts, sel, Max(ws, lo), hi)
    decreases if ws > hi then 0 else hi - ws + 1
  {
    if ws > hi {
      EmptyWindow(ts, sel, Max(ws, lo), hi);
      assert Weeks(ws, lo, hi) == [];
      assert SumWindows(ts, sel, Weeks(ws, lo, hi)) == Tally(0, 0);
    } else {
      var next := ws + SecondsPerWeek;
      SumWeeksStep(ts, sel, ws, lo, hi);
      assert next > ws;
      assert next > hi || hi - next + 1 < hi - ws + 1;
      WeeksCover(ts, sel, next, lo, hi);
      var restSum := SumWindows(ts, sel, Weeks(next, lo, hi));
      assert restSum == TallyIn(ts, sel, Max(next, lo), hi);
      if next - 1 >= hi {
        assert Min(next - 1, hi) == hi;
        EmptyWindow(ts, sel, Max(next, lo), hi);
        assert restSum == Tally(0, 0);
      } else if next > lo {
        assert Max(next, lo) == next;
        assert Min(next - 1, hi) == next - 1;
        SplitTally(ts, sel, Max(ws, lo), next - 1, hi);
      } else {
        assert Max(ws, lo) == lo && Max(next, lo) == lo;
        assert Min(next - 1, hi) == next - 1;
        EmptyWindow(ts, sel, Max(ws, lo), next - 1);
      }
    }
  }

  /** The weekly windows of a month tally every selected transaction of the month, each once. */
  lemma {:induction false} WeekWindowsCoverMonth(ts: seq<Transaction>, sel: Selection, lo: int, hi: int)
    ensures SumWindows(ts, sel, WeekWindows(lo, hi)) == TallyIn(ts, sel, lo, hi)
  {
    WeeksCover(ts, sel, WeekStart(lo), lo, hi);
  }

  /** The first `left` weeks from `ws` are the uncapped weeks of the stretch that ends with the last of them. */
  lemma {:induction false} CappedIsShorterStretch(ws: int, lo: int, hi: int, left: nat)
    ensures WeeksCapped(ws, lo, hi, left) == Weeks(ws, lo, Min(hi, ws + left * SecondsPerWeek - 1))
    decreases left
  {
    var end := Min(hi, ws + left * SecondsPerWeek - 1);
    if left > 0 && ws <= hi {
      var next := ws + SecondsPerWeek;
      CappedIsShorterStretch(next, lo, hi, left - 1);
      NextEnd(ws, left);
      assert Clipped(ws, lo, hi) == Clipped(ws, lo, end);
    }
  }

  lemma NextEnd(ws: int, left: nat)
    requires left > 0
    ensures ws + SecondsPerWeek + (left - 1) * SecondsPerWeek - 1 == ws + left * SecondsPerWeek - 1
    ensures ws + left * SecondsPerWeek - 1 >= ws + SecondsPerWeek - 1
  {
  }

  /** The last second the capped weeks reach: the end of the fifth week, or the month's end if that comes first. */
  function FifthWeekEnd(lo: int, hi: int): int {
    Min(hi, WeekStart(lo) + 5 * SecondsPerWeek - 1)
  }

  /**
   * The capped weeks of a month tally the selected transactions from the month's
   * start to the end of the fifth week, or to the month's end if that comes first.
   */
  lemma {:induction false} WeekWindowsAsWrittenCover(ts: seq<Transaction>, sel: Selection, lo: int, hi: int)
    ensures SumWindows(ts, sel, WeekWindowsAsWritten(lo, hi)) == TallyIn(ts, sel, lo, FifthWeekEnd(lo, hi))
  {
    CappedIsShorterStretch(WeekStart(lo), lo, hi, 5);
    WeeksCover(ts, sel, WeekStart(lo), lo, Min(hi, WeekStart(lo) + 5 * SecondsPerWeek - 1));
  }

  /** An expense of 5 on Monday 30 September 2024. */
  function LastDayExpense(): Transaction {
    Transaction("e", "u", "a", None, None, Expense, 5, None, None, Midnight(2024, 9, 30), None, [], None, 0)
  }

  /**
   * September 2024 starts on a Sunday, so its days touch six weeks; the capped loop
   * stops after the week ending Sunday the 29th and the expense of the 30th is in no
   * week, while the uncapped weeks count it.
   */
  lemma SeptemberLosesLastDay()
    ensures var (lo, hi) := MonthRange(2024, 9);
      var sel := Selection(Expense, None);
      && TallyIn([LastDayExpense()], sel, lo, hi) == Tally(5, 1)
      && |WeekWindows(lo, hi)| == 6
      && SumWindows([LastDayExpense()], sel, WeekWindowsAsWritten(lo, hi)) == Tally(0, 0)
      && SumWindows([LastDayExpense()], sel, WeekWindows(lo, hi)) == Tally(5, 1)
  {
    var (lo, hi) := MonthRange(2024, 9);
    var sel := Selection(Expense, None);
    var t := LastDayExpense();
    SeptemberDays();
    assert lo == 19967 * SecondsPerDay && hi == 19997 * SecondsPerDay - 1;
    assert t.date == 19996 * SecondsPerDay;
    assert TallyIn([t], sel, lo, hi) == Tally(5, 1) by {
      assert Contribution(t, sel, lo, hi) == Tally(5, 1);
    }
    var ws := WeekStart(lo);
    WeeksLength(ws, lo, hi);
    assert |WeekWindows(lo, hi)| == (hi - ws) / SecondsPerWeek + 1 == 6;
    var capped := WeekWindowsAsWritten(lo, hi);
    assert forall w | w in capped :: w.hi < t.date;
    AfterEveryWindow(t, sel, capped);
    WeekWindowsCoverMonth([t], sel, lo, hi);
  }

  /** Day numbers of 1 and 30 September 2024, and of the Monday before the 1st. */
  lemma SeptemberDays()
    ensures Midnight(2024, 9, 1) == 19967 * SecondsPerDay
    ensures Midnight(2024, 9, 30) == 19996 * SecondsPerDay
    ensures DaysIn(2024, 9) == 30
    ensures WeekStart(19967 * SecondsPerDay) == 19961 * SecondsPerDay
  {
    assert LeapsBefore(2024) == 490 && LeapsBefore(1970) == 477;
    assert DaysBeforeMonth(2024, 9) == 244;
    assert DayOf(19967 * SecondsPerDay) == 19967;
    assert Weekday(19967) == 0;
  }

  /** A transaction dated after every window is in none of them. */
  lemma {:induction false} AfterEveryWindow(t: Transaction, sel: Selection, ws: seq<Window>)
    requires forall w | w in ws :: w.hi < t.date
    ensures SumWindows([t], sel, ws) == Tally(0, 0)
  {
    if |ws| > 0 {
      assert ws[0] in ws;
      assert forall w | w in ws[1..] :: w in ws;
      AfterEveryWindow(t, sel, ws[1..]);
      assert TallyIn([t], sel, ws[0].lo, ws[0].hi) == Tally(0, 0) by {
        assert Contribution(t, sel, ws[0].lo, ws[0].hi) == Tally(0, 0);
      }
    }
  }

  datatype WeekSpending = WeekSpending(week: string, amount: int, transactionCount: nat)

  datatype WeekCashflow = WeekCashflow(week: string, income: int, expense: int, net: int)

  /** "week_1", "week_2", ... */
  function WeekName(n: nat): string
    requires n < 10
  {
    "week_" + [DigitChar(n)]
  }

  /**
   * GetWeeklySpending over the month's transactions: per week, the amount and count
   * of the expenses (of the given category, if any) dated within the week; the loop
   * stops after the fifth week.
   */
  function GetWeeklySpending(ts: seq<Transaction>, month: string, categoryId: Option<string>)
    : (r: Result<seq<WeekSpending>, ReportError>)
    ensures r.Success? <==> ParseYearMonth(month).Some?
    ensures r.Success? ==> var (lo, hi) := ReportMonthRange(month).value;
      var ws := WeekWindowsAsWritten(lo, hi);
      && |r.value| == |ws| <= 5
      && forall i | 0 <= i < |ws| ::
           && r.value[i].week == WeekName(i + 1)
           && r.value[i].amount == TallyIn(ts, Selection(Expense, categoryId), ws[i].lo, ws[i].hi).amount
           && r.value[i].transactionCount == TallyIn(ts, Selection(Expense, categoryId), ws[i].lo, ws[i].hi).count
  {
    match ReportMonthRange(month)
    case Failure(e) => Failure(e)
    case Success((lo, hi)) => Success(SpendingRows(ts, Selection(Expense, categoryId), WeekWindowsAsWritten(lo, hi)))
  }

  /**
   * The weekly spending as intended: every week the month touches, so that no day
   * past the fifth week is dropped.
   */
  function GetWeeklySpendingIntended(ts: seq<Transaction>, month: string, categoryId: Option<string>)
    : (r: Result<seq<WeekSpending>, ReportError>)
    ensures r.Success? <==> ParseYearMonth(month).Some?
    ensures r.Success? ==> var (lo, hi) := ReportMonthRange(month).value;
      var ws := WeekWindows(lo, hi);
      && |r.value| == |ws| <= 6
      && forall i | 0 <= i < |ws| ::
           && r.value[i].week == WeekName(i + 1)
           && r.value[i].amount == TallyIn(ts, Selection(Expense, categoryId), ws[i].lo, ws[i].hi).amount
           && r.value[i].transactionCount == TallyIn(ts, Selection(Expense, categoryId), ws[i].lo, ws[i].hi).count
  {
    match ReportMonthRange(month)
    case Failure(e) => Failure(e)
    case Success((lo, hi)) =>
      AtMostSixWeeks(lo, hi);
      Success(SpendingRows(ts, Selection(Expense, categoryId), WeekWindows(lo, hi)))
  }

  /** One spending row per window, named by its position. */
  function SpendingRows(ts: seq<Transaction>, sel: Selection, ws: seq<Window>): (r: seq<WeekSpending>)
    requires |ws| < 10
    ensures |r| == |ws|
    ensures forall i | 0 <= i < |ws| ::
      && r[i].week == WeekName(i + 1)
      && r[i].amount == TallyIn(ts, sel, ws[i].lo, ws[i].hi).amount
      && r[i].transactionCount == TallyIn(ts, sel, ws[i].lo, ws[i].hi).count
  {
    seq(|ws|, i requires 0 <= i < |ws| =>
      var tally := TallyIn(ts, sel, ws[i].lo, ws[i].hi);
      WeekSpending(WeekName(i + 1), tally.amount, tally.count))
  }

  /**
   * GetWeeklyCashflow over the month's transactions: per week, income, expense and
   * their difference; transfers count in neither; at most five weeks, as above.
   */
  function GetWeeklyCashflow(ts: seq<Transaction>, month: string): (r: Result<seq<WeekCashflow>, ReportError>)
    ensures r.Success? <==> ParseYearMonth(month).Some?
    ensures r.Success? ==> var (lo, hi) := ReportMonthRange(month).value;
      var ws := WeekWindowsAsWritten(lo, hi);
      && |r.value| == |ws| <= 5
      && forall i | 0 <= i < |ws| ::
           && r.value[i].week == WeekName(i + 1)
           && r.value[i].income == TallyIn(ts, Selection(Income, None), ws[i].lo, ws[i].hi).amount
           && r.value[i].expense == TallyIn(ts, Selection(Expense, None), ws[i].lo, ws[i].hi).amount
           && r.value[i].net == r.value[i].income - r.value[i].expense
  {
    match ReportMonthRange(month)
    case Failure(e) => Failure(e)
    case Success((lo, hi)) => Success(CashflowRows(ts, WeekWindowsAsWritten(lo, hi)))
  }

  /** One cashflow row per window, named by its position. */
  function CashflowRows(ts: seq<Transaction>, ws: seq<Window>): (r: seq<WeekCashflow>)
    requires |ws| < 10
    ensures |r| == |ws|
    ensures forall i | 0 <= i < |ws| ::
      && r[i].week == WeekName(i + 1)
      && r[i].income == TallyIn(ts, Selection(Income, None), ws[i].lo, ws[i].hi).amount
      && r[i].expense == TallyIn(ts, Selection(Expense, None), ws[i].lo, ws[i].hi).amount
      && r[i].net == r[i].income - r[i].expense
  {
    seq(|ws|, i requires 0 <= i < |ws| =>
      var income := TallyIn(ts, Selection(Income, None), ws[i].lo, ws[i].hi).amount;
      var expense := TallyIn(ts, Selection(Expense, None), ws[i].lo, ws[i].hi).amount;
      WeekCashflow(WeekName(i + 1), income, expense, income - expense))
  }

  function SpendingTotal(rows: seq<WeekSpending>): Tally {
    if |rows| == 0 then Tally(0, 0) else Plus(Tally(rows[0].amount, rows[0].transactionCount), SpendingTotal(rows[1..]))
  }

  /**
   * The weekly spending rows as written add up to the month's selected expenses up
   * to the end of the fifth week; when the month ends before a sixth week would
   * start, that is the whole month.
   */
  lemma {:induction false} WeeklySpendingThroughFifthWeek(ts: seq<Transaction>, month: string, categoryId: Option<string>)
    requires GetWeeklySpending(ts, month, categoryId).Success?
    ensures var range := ReportMonthRange(month).value;
      var total := SpendingTotal(GetWeeklySpending(ts, month, categoryId).value);
      var sel := Selection(Expense, categoryId);
      && total == TallyIn(ts, sel, range.0, FifthWeekEnd(range.0, range.1))
      && (FifthWeekEnd(range.0, range.1) == range.1 ==> total == TallyIn(ts, sel, range.0, range.1))
  {
    var (lo, hi) := ReportMonthRange(month).value;
    var sel := Selection(Expense, categoryId);
    var rows := GetWeeklySpending(ts, month, categoryId).value;
    var ws := WeekWindowsAsWritten(lo, hi);
    RowsMatchWindows(ts, sel, rows, ws);
    WeekWindowsAsWrittenCover(ts, sel, lo, hi);
  }

  /** The intended weekly spending rows add up to the month's selected expenses: nothing is lost or counted twice. */
  lemma {:induction false} WeeklySpendingAddsUp(ts: seq<Transaction>, month: string, categoryId: Option<string>)
    requires GetWeeklySpendingIntended(ts, month, categoryId).Success?
    ensures var (lo, hi) := ReportMonthRange(month).value;
      SpendingTotal(GetWeeklySpendingIntended(ts, month, categoryId).value) == TallyIn(ts, Selection(Expense, categoryId), lo, hi)
  {
    var (lo, hi) := ReportMonthRange(month).value;
    var sel := Selection(Expense, categoryId);
    WeekWindowsCoverMonth(ts, sel, lo, hi);
    RowsMatchWindows(ts, sel, GetWeeklySpendingIntended(ts, month, categoryId).value, WeekWindows(lo, hi));
  }

  /** The cash-flow table's expense column is the spending table without a category: same weeks, same amounts. */
  lemma CashflowExpenseIsSpending(ts: seq<Transaction>, month: string)
    requires ParseYearMonth(month).Some?
    ensures var cash := GetWeeklyCashflow(ts, month).value;
      var spend := GetWeeklySpending(ts, month, None).value;
      && |cash| == |spend|
      && forall i | 0 <= i < |cash| :: cash[i].week == spend[i].week && cash[i].expense == spend[i].amount
  {
  }

  lemma {:induction false} RowsMatchWindows(ts: seq<Transaction>, sel: Selection, rows: seq<WeekSpending>, ws: seq<Window>)
    requires |rows| == |ws|
    requires forall i | 0 <= i < |ws| :: rows[i].amount == TallyIn(ts, sel, ws[i].lo, ws[i].hi).amount && rows[i].transactionCount == TallyIn(ts, sel, ws[i].lo, ws[i].hi).count
    ensures SpendingTotal(rows) == SumWindows(ts, sel, ws)
  {
    if |ws| > 0 {
      RowsMatchWindows(ts, sel, rows[1..], ws[1..]);
    }
  }
}
