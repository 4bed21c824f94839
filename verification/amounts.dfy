/** Sums of transaction amounts, and the facts about them that listings and reports rely on. */
module Amounts {
  import opened Models

  /** The sum of the amounts, in list order. */
  function Sum(ts: seq<Transaction>): int {
    if |ts| == 0 then 0 else ts[0].amount + Sum(ts[1..])
  }

  lemma {:induction false} SumConcat(a: seq<Transaction>, b: seq<Transaction>)
    ensures Sum(a + b) == Sum(a) + Sum(b)
  {
    if |a| == 0 {
      assert a + b == b;
    } else {
      assert (a + b)[1..] == a[1..] + b;
      SumConcat(a[1..], b);
    }
  }

  /** The sum does not depend on the order of the list. */
  lemma {:induction false} SumMultiset(a: seq<Transaction>, b: seq<Transaction>)
    requires multiset(a) == multiset(b)
    ensures Sum(a) == Sum(b)
    decreases |a|
  {
    if |a| == 0 {
      assert |b| == |multiset(b)| == 0;
    } else {
      var x := a[0];
      assert x in multiset(b);
      var k :| 0 <= k < |b| && b[k] == x;
      var rest := b[..k] + b[k + 1..];
      RemoveAt(b, k);
      assert a == [x] + a[1..];
      assert multiset(a[1..]) == multiset(rest);
      SumMultiset(a[1..], rest);
      SumRemoveAt(b, k);
    }
  }

  lemma {:induction false} RemoveAt(b: seq<Transaction>, k: int)
    requires 0 <= k < |b|
    ensures multiset(b[..k] + b[k + 1..]) == multiset(b) - multiset{b[k]}
  {
    assert b == b[..k] + [b[k]] + b[k + 1..];
  }

  lemma {:induction false} SumRemoveAt(b: seq<Transaction>, k: int)
    requires 0 <= k < |b|
    ensures Sum(b) == b[k].amount + Sum(b[..k] + b[k + 1..])
  {
    var tail := [b[k]] + b[k + 1..];
    assert b == b[..k] + tail;
    SumConcat(b[..k], b[k + 1..]);
    SumConcat(b[..k], tail);
    assert tail[1..] == b[k + 1..];
  }

  /** With positive amounts, a proper prefix sums to less than the whole list. */
  lemma {:induction false} PrefixShort(xs: seq<Transaction>, k: nat)
    requires k < |xs|
    requires forall t | t in xs :: t.amount > 0
    ensures Sum(xs[..k]) < Sum(xs)
  {
    assert xs == xs[..k] + xs[k..];
    SumConcat(xs[..k], xs[k..]);
    assert forall t | t in xs[k..] :: t in xs;
    SumPositive(xs[k..]);
  }

  /** A non-empty list of positive amounts has a positive sum. */
  lemma {:induction false} SumPositive(ts: seq<Transaction>)
    requires forall t | t in ts :: t.amount > 0
    ensures |ts| > 0 ==> Sum(ts) > 0
    ensures Sum(ts) >= 0
  {
    if |ts| > 0 {
      assert ts[0] in ts;
      assert forall t | t in ts[1..] :: t in ts;
      SumPositive(ts[1..]);
    }
  }
}
