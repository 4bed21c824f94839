/**
 * The order in which transaction listings come back: one primary field (date or
 * amount), ascending or descending, then newest creation first. Rows equal on both
 * keys keep the order they are stored in (the store leaves that order open; the
 * model fixes one).
 */
module TransactionOrder {
  import opened Models

  datatype SortField = ByDate | ByAmount
  datatype SortSpec = SortSpec(field: SortField, ascending: bool)

  /** `sort_by` "amount" sorts by amount, anything else by date; only `sort_order` "asc" ascends. */
  function ParseSort(sortBy: string, sortOrder: string): (r: SortSpec)
    ensures r.field == ByAmount <==> sortBy == "amount"
    ensures r.ascending <==> sortOrder == "asc"
  {
    SortSpec(if sortBy == "amount" then ByAmount else ByDate, sortOrder == "asc")
  }

  /** The listing order of the recent-transactions view: date descending. */
  const NewestFirst := SortSpec(ByDate, false)

  /** The primary key, negated for a descending sort so that smaller always comes first. */
  function Key(t: Transaction, spec: SortSpec): int {
    var v := if spec.field == ByAmount then t.amount else t.date;
    if spec.ascending then v else -v
  }

  /** `a` may be listed before `b`. */
  predicate Before(a: Transaction, b: Transaction, spec: SortSpec) {
    Key(a, spec) < Key(b, spec) || (Key(a, spec) == Key(b, spec) && a.createdAt >= b.createdAt)
  }

  predicate Sorted(s: seq<Transaction>, spec: SortSpec) {
    forall i, j | 0 <= i < j < |s| :: Before(s[i], s[j], spec)
  }

  /** In a sorted list a later date never precedes an earlier one (descending), and vice versa. */
  lemma {:induction false} SortedByPrimary(s: seq<Transaction>, spec: SortSpec, i: int, j: int)
    requires Sorted(s, spec) && 0 <= i < j < |s|
    ensures spec.field == ByDate && spec.ascending ==> s[i].date <= s[j].date
    ensures spec.field == ByDate && !spec.ascending ==> s[i].date >= s[j].date
    ensures spec.field == ByAmount && spec.ascending ==> s[i].amount <= s[j].amount
    ensures spec.field == ByAmount && !spec.ascending ==> s[i].amount >= s[j].amount
    ensures Key(s[i], spec) == Key(s[j], spec) ==> s[i].createdAt >= s[j].createdAt
  {
    assert Before(s[i], s[j], spec);
  }

  /** Insert `x` into a sorted list, before the first element it may precede. */
  function Insert(x: Transaction, s: seq<Transaction>, spec: SortSpec): (r: seq<Transaction>)
    requires Sorted(s, spec)
    ensures Sorted(r, spec)
    ensures multiset(r) == multiset(s) + multiset{x}
  {
    if |s| == 0 then [x]
    else if Before(x, s[0], spec) then
      LeadsAll(x, s, spec);
      ConsSorted(x, s, spec);
      [x] + s
    else
      SortedTail(s, spec);
      var rest := Insert(x, s[1..], spec);
      HeadLeadsInserted(x, s, rest, spec);
      ConsSorted(s[0], rest, spec);
      assert s == [s[0]] + s[1..];
      [s[0]] + rest
  }

  lemma {:induction false} SortedTail(s: seq<Transaction>, spec: SortSpec)
    requires Sorted(s, spec) && |s| > 0
    ensures Sorted(s[1..], spec)
  {
    forall i, j | 0 <= i < j < |s[1..]| ensures Before(s[1..][i], s[1..][j], spec) {
      assert Before(s[i + 1], s[j + 1], spec);
    }
  }

  /** An element that may precede every element of a sorted list may lead it. */
  lemma {:induction false} ConsSorted(h: Transaction, rest: seq<Transaction>, spec: SortSpec)
    requires Sorted(rest, spec) && forall j | 0 <= j < |rest| :: Before(h, rest[j], spec)
    ensures Sorted([h] + rest, spec)
  {
    var r := [h] + rest;
    forall i, j | 0 <= i < j < |r| ensures Before(r[i], r[j], spec) {
      assert r[j] == rest[j - 1];
      if i > 0 {
        assert r[i] == rest[i - 1];
      }
    }
  }

  /** What may precede the head of a sorted list may precede all of it. */
  lemma {:induction false} LeadsAll(x: Transaction, s: seq<Transaction>, spec: SortSpec)
    requires Sorted(s, spec) && |s| > 0 && Before(x, s[0], spec)
    ensures forall j | 0 <= j < |s| :: Before(x, s[j], spec)
  {
    forall j | 0 < j < |s| ensures Before(x, s[j], spec) {
      assert Before(s[0], s[j], spec);
    }
  }

  /** When `x` does not go first, the old head may precede everything in the insertion into the tail. */
  lemma {:induction false} HeadLeadsInserted(x: Transaction, s: seq<Transaction>, rest: seq<Transaction>, spec: SortSpec)
    requires Sorted(s, spec) && |s| > 0 && !Before(x, s[0], spec)
    requires multiset(rest) == multiset(s[1..]) + multiset{x}
    ensures forall j | 0 <= j < |rest| :: Before(s[0], rest[j], spec)
  {
    forall j | 0 <= j < |rest| ensures Before(s[0], rest[j], spec) {
      var y := rest[j];
      assert y in multiset(rest);
      if y != x {
        assert y in multiset(s[1..]);
        var k :| 0 <= k < |s[1..]| && s[1..][k] == y;
        assert Before(s[0], s[k + 1], spec);
      }
    }
  }

  /** Insertion sort: a sorted permutation of the input. */
  function Sort(s: seq<Transaction>, spec: SortSpec): (r: seq<Transaction>)
    ensures Sorted(r, spec)
    ensures multiset(r) == multiset(s)
    ensures |r| == |s|
  {
    if |s| == 0 then []
    else
      assert s == [s[0]] + s[1..];
      var r := Insert(s[0], Sort(s[1..], spec), spec);
      assert |r| == |multiset(r)|;
      r
  }

  /**
   * A prefix of a sorted list is sorted, is contained in it, and every row of it
   * may precede every row left after it.
   */
  lemma {:induction false} PrefixLeadsRest(s: seq<Transaction>, spec: SortSpec, k: nat)
    requires Sorted(s, spec) && k <= |s|
    ensures Sorted(s[..k], spec)
    ensures multiset(s[..k]) <= multiset(s)
    ensures forall t, u | t in s[..k] && u in multiset(s) - multiset(s[..k]) :: Before(t, u, spec)
  {
    assert s == s[..k] + s[k..];
    assert multiset(s) == multiset(s[..k]) + multiset(s[k..]);
    assert multiset(s) - multiset(s[..k]) == multiset(s[k..]);
    forall i, j | 0 <= i < j < k ensures Before(s[..k][i], s[..k][j], spec) {
      assert s[..k][i] == s[i] && s[..k][j] == s[j];
    }
    forall t, u | t in s[..k] && u in multiset(s) - multiset(s[..k]) ensures Before(t, u, spec) {
      var i :| 0 <= i < k && s[..k][i] == t;
      var j :| 0 <= j < |s| - k && s[k..][j] == u;
      assert s[i] == t && s[k + j] == u;
    }
  }

  // ---------------------------------------------------------------------------
  // Paging

  /** The rows of the window that skips `offset` rows and keeps at most `limit`. */
  function Window(s: seq<Transaction>, offset: nat, limit: nat): (r: seq<Transaction>)
    ensures |r| == if offset >= |s| then 0 else if |s| - offset < limit then |s| - offset else limit
    ensures forall i | 0 <= i < |r| :: r[i] == s[offset + i]
  {
    if offset >= |s| then []
    else if |s| - offset < limit then s[offset..]
    else s[offset..offset + limit]
  }

  /** Two adjacent windows cover the window of their combined size. */
  lemma {:induction false} WindowsTile(s: seq<Transaction>, offset: nat, limit: nat)
    ensures Window(s, offset, limit) + Window(s, offset + limit, limit) == Window(s, offset, 2 * limit)
  {
    var a := Window(s, offset, limit) + Window(s, offset + limit, limit);
    var b := Window(s, offset, 2 * limit);
    assert |a| == |b|;
    forall i | 0 <= i < |a| ensures a[i] == b[i] {
      if i >= |Window(s, offset, limit)| {
        assert a[i] == Window(s, offset + limit, limit)[i - limit];
      }
    }
  }
}
