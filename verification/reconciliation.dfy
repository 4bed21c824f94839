/**
 * How a transaction moves account balances: the transaction service's two helpers,
 * one that applies a transaction's effect and one that reverts it, built from
 * single-account increments. Any increment may fail; the `failing` set names, by
 * position within the request, the increments whose store call fails.
 */
module Reconciliation {
  import opened Wrappers
  import opened Models
  import AR = AccountRepository

  /** The account store as seen by one request, with the number of increments issued so far. */
  datatype Ledger = Ledger(accounts: seq<Account>, calls: nat)

  /** The outcome of a balance operation: the resulting store and whether it reported success. */
  datatype Step = Step(ledger: Ledger, ok: bool)

  /** One UpdateBalance call; it is the `calls`-th increment of the request. */
  function Inc(l: Ledger, failing: set<nat>, id: string, owner: string, delta: int): (r: Step)
    ensures r.ledger.calls == l.calls + 1
    ensures r.ok <==> l.calls !in failing
    ensures r.ok ==> r.ledger.accounts == AR.Increment(l.accounts, id, owner, delta)
    ensures !r.ok ==> r.ledger.accounts == l.accounts
  {
    if l.calls in failing then Step(Ledger(l.accounts, l.calls + 1), false)
    else Step(Ledger(AR.Increment(l.accounts, id, owner, delta), l.calls + 1), true)
  }

  // ---------------------------------------------------------------------------
  // Reference definition of a transaction's effect

  /**
   * The change a transaction makes to the account `id` of user `userId`, when
   * balances are moved on behalf of `owner`: income credits its account, expense
   * debits it, a transfer debits the source and credits the destination. A
   * transfer without a destination moves nothing.
   */
  function EffectOn(t: Transaction, owner: string, id: string, userId: string): (r: int)
    ensures userId != owner ==> r == 0
    ensures id != t.accountId && (t.toAccountId.None? || id != t.toAccountId.value) ==> r == 0
    ensures t.kind == Transfer && t.toAccountId == Some(t.accountId) ==> r == 0
  {
    if userId != owner then 0
    else match t.kind
      case Income => if id == t.accountId then t.amount else 0
      case Expense => if id == t.accountId then -t.amount else 0
      case Transfer =>
        if t.toAccountId.None? then 0
        else (if id == t.accountId then -t.amount else 0) + (if id == t.toAccountId.value then t.amount else 0)
  }

  function Effect(t: Transaction, owner: string, a: Account): int {
    EffectOn(t, owner, a.id, a.userId)
  }

  /** Forward applies the transaction's effect; Backward undoes it. */
  datatype Direction = Forward | Backward {
    function Opposite(): Direction {
      if this == Forward then Backward else Forward
    }
  }

  /** `x` going forward, `-x` going backward. */
  function Signed(d: Direction, x: int): int {
    if d == Forward then x else -x
  }

  /** Every account shifted by the transaction's effect on it, in direction `d`. */
  function Shifted(s: seq<Account>, t: Transaction, owner: string, d: Direction): (r: seq<Account>)
    ensures |r| == |s|
    ensures forall i | 0 <= i < |s| :: r[i] == s[i].(balance := s[i].balance + Signed(d, Effect(t, owner, s[i])))
  {
    seq(|s|, i requires 0 <= i < |s| => s[i].(balance := s[i].balance + Signed(d, Effect(t, owner, s[i]))))
  }

  /** Shifting one way and then the other restores every account. */
  lemma {:induction false} ShiftedInverse(s: seq<Account>, t: Transaction, owner: string, d: Direction)
    ensures Shifted(Shifted(s, t, owner, d), t, owner, d.Opposite()) == s
  {
    var x := Shifted(Shifted(s, t, owner, d), t, owner, d.Opposite());
    forall i | 0 <= i < |s| ensures x[i] == s[i] {
      assert Effect(t, owner, Shifted(s, t, owner, d)[i]) == Effect(t, owner, s[i]);
    }
  }

  // ---------------------------------------------------------------------------
  // The apply/revert helpers

  /**
   * A transfer's two increments: `src` moves by -k first, then `dst` by +k; when the
   * second fails, `src` is moved back by +k and the step reports failure.
   */
  function Move(l: Ledger, failing: set<nat>, owner: string, src: string, dst: string, k: int): Step {
    var first := Inc(l, failing, src, owner, -k);
    if !first.ok then first
    else
      var second := Inc(first.ledger, failing, dst, owner, k);
      if second.ok then second
      else Step(Inc(second.ledger, failing, src, owner, k).ledger, false)
  }

  /** The outcomes of a transfer's increments, position by position within the request. */
  lemma {:induction false} MoveOutcome(l: Ledger, failing: set<nat>, owner: string, src: string, dst: string, k: int)
    ensures var r := Move(l, failing, owner, src, dst, k);
      var once := AR.Increment(l.accounts, src, owner, -k);
      && (r.ok <==> l.calls !in failing && l.calls + 1 !in failing)
      && (l.calls in failing ==> r.ledger.accounts == l.accounts)
      && (r.ok ==> r.ledger.accounts == AR.Increment(once, dst, owner, k))
      && (l.calls !in failing && l.calls + 1 in failing && l.calls + 2 !in failing ==> r.ledger.accounts == l.accounts)
      && (l.calls !in failing && l.calls + 1 in failing && l.calls + 2 in failing ==> r.ledger.accounts == once)
  {
    if l.calls !in failing && l.calls + 1 in failing && l.calls + 2 !in failing {
      AR.IncrementAdds(l.accounts, src, owner, -k, k);
      AR.IncrementInverse(l.accounts, src, owner, 0);
    }
  }

  /**
   * The increments a transaction needs, in order: income and expense touch their
   * account once; a transfer touches the source first and the destination second,
   * and compensates the source when the destination step fails. A transfer
   * without a destination fails before any call.
   */
  function Reconcile(l: Ledger, failing: set<nat>, owner: string, t: Transaction, d: Direction): Step {
    match t.kind
    case Income => Inc(l, failing, t.accountId, owner, Signed(d, t.amount))
    case Expense => Inc(l, failing, t.accountId, owner, Signed(d, -t.amount))
    case Transfer =>
      if t.toAccountId.None? then Step(l, false)
      else Move(l, failing, owner, t.accountId, t.toAccountId.value, Signed(d, t.amount))
  }

  /** updateAccountBalances. */
  function Apply(l: Ledger, failing: set<nat>, owner: string, t: Transaction): (r: Step)
    ensures r.ok ==> r.ledger.accounts == Shifted(l.accounts, t, owner, Forward)
    ensures !r.ok && l.calls + 2 !in failing ==> r.ledger.accounts == l.accounts
    ensures failing == {} ==> (r.ok <==> (t.kind != Transfer || t.toAccountId.Some?))
  {
    ReconcileMeaning(l, failing, owner, t, Forward);
    Reconcile(l, failing, owner, t, Forward)
  }

  /** revertAccountBalances: the same increments with every sign negated. */
  function Revert(l: Ledger, failing: set<nat>, owner: string, t: Transaction): (r: Step)
    ensures r.ok ==> r.ledger.accounts == Shifted(l.accounts, t, owner, Backward)
    ensures !r.ok && l.calls + 2 !in failing ==> r.ledger.accounts == l.accounts
    ensures failing == {} ==> (r.ok <==> (t.kind != Transfer || t.toAccountId.Some?))
  {
    ReconcileMeaning(l, failing, owner, t, Backward);
    Reconcile(l, failing, owner, t, Backward)
  }

  /** A single increment of an income or expense account is its shifted effect. */
  lemma {:induction false} SingleShift(s: seq<Account>, t: Transaction, owner: string, d: Direction)
    requires t.kind != Transfer
    ensures AR.Increment(s, t.accountId, owner, Signed(d, if t.kind == Income then t.amount else -t.amount))
      == Shifted(s, t, owner, d)
  {
    var x := AR.Increment(s, t.accountId, owner, Signed(d, if t.kind == Income then t.amount else -t.amount));
    var y := Shifted(s, t, owner, d);
    forall i | 0 <= i < |s| ensures x[i] == y[i] {
    }
  }

  /** Debiting the source and then crediting the destination is the transfer's shifted effect. */
  lemma {:induction false} TransferShift(s: seq<Account>, t: Transaction, owner: string, d: Direction)
    requires t.kind == Transfer && t.toAccountId.Some?
    ensures AR.Increment(AR.Increment(s, t.accountId, owner, -Signed(d, t.amount)), t.toAccountId.value, owner, Signed(d, t.amount))
      == Shifted(s, t, owner, d)
  {
    var once := AR.Increment(s, t.accountId, owner, -Signed(d, t.amount));
    var x := AR.Increment(once, t.toAccountId.value, owner, Signed(d, t.amount));
    var y := Shifted(s, t, owner, d);
    forall i | 0 <= i < |s| ensures x[i] == y[i] {
      assert once[i].id == s[i].id && once[i].userId == s[i].userId;
    }
  }

  /**
   * A successful reconciliation shifts every account by the transaction's effect; a
   * failed one leaves the store as it was, except when the compensating increment
   * of a transfer itself fails, which leaves the source changed on its own.
   */
  lemma {:induction false} ReconcileMeaning(l: Ledger, failing: set<nat>, owner: string, t: Transaction, d: Direction)
    ensures var r := Reconcile(l, failing, owner, t, d);
      && (t.kind != Transfer ==> (r.ok <==> l.calls !in failing))
      && (t.kind == Transfer ==> (r.ok <==> t.toAccountId.Some? && l.calls !in failing && l.calls + 1 !in failing))
      && (r.ok ==> r.ledger.accounts == Shifted(l.accounts, t, owner, d))
      && (!r.ok && l.calls + 2 !in failing ==> r.ledger.accounts == l.accounts)
      && (!r.ok && l.calls + 2 in failing ==>
            r.ledger.accounts == l.accounts
            || (t.kind == Transfer && r.ledger.accounts == AR.Increment(l.accounts, t.accountId, owner, -Signed(d, t.amount))))
  {
    if t.kind != Transfer {
      SingleShift(l.accounts, t, owner, d);
    } else if t.toAccountId.Some? {
      MoveOutcome(l, failing, owner, t.accountId, t.toAccountId.value, Signed(d, t.amount));
      TransferShift(l.accounts, t, owner, d);
    }
  }

  // ---------------------------------------------------------------------------
  // Apply and revert are inverse

  /** Reverting an applied transaction restores every balance, whenever both succeed. */
  lemma {:induction false} RevertUndoesApply(l: Ledger, failing: set<nat>, owner: string, t: Transaction)
    requires Apply(l, failing, owner, t).ok
    requires Revert(Apply(l, failing, owner, t).ledger, failing, owner, t).ok
    ensures Revert(Apply(l, failing, owner, t).ledger, failing, owner, t).ledger.accounts == l.accounts
  {
    ShiftedInverse(l.accounts, t, owner, Forward);
  }

  /** Applying a reverted transaction restores every balance, whenever both succeed. */
  lemma {:induction false} ApplyUndoesRevert(l: Ledger, failing: set<nat>, owner: string, t: Transaction)
    requires Revert(l, failing, owner, t).ok
    requires Apply(Revert(l, failing, owner, t).ledger, failing, owner, t).ok
    ensures Apply(Revert(l, failing, owner, t).ledger, failing, owner, t).ledger.accounts == l.accounts
  {
    ShiftedInverse(l.accounts, t, owner, Backward);
  }

  /**
   * The one way a balance operation can leave a partial effect: the destination
   * step of a transfer fails and so does the compensation of the source, leaving
   * the source debited and the destination untouched.
   */
  lemma {:induction false} FailedCompensationLeavesSourceChanged(l: Ledger, failing: set<nat>, owner: string, t: Transaction)
    requires t.kind == Transfer && t.toAccountId.Some?
    requires l.calls !in failing && l.calls + 1 in failing && l.calls + 2 in failing
    ensures !Apply(l, failing, owner, t).ok
    ensures Apply(l, failing, owner, t).ledger.accounts == AR.Increment(l.accounts, t.accountId, owner, -t.amount)
  {
    MoveOutcome(l, failing, owner, t.accountId, t.toAccountId.value, t.amount);
  }

  // ---------------------------------------------------------------------------
  // Several transactions

  /** The combined effect of several transactions on the account `id` of user `userId`. */
  function SumEffect(ts: seq<Transaction>, owner: string, id: string, userId: string): int {
    if |ts| == 0 then 0 else EffectOn(ts[0], owner, id, userId) + SumEffect(ts[1..], owner, id, userId)
  }

  /** Each transaction shifted in turn: every account moves by the combined effect. */
  function ShiftedAll(s: seq<Account>, ts: seq<Transaction>, owner: string, d: Direction): (r: seq<Account>)
    ensures |r| == |s|
    ensures forall i | 0 <= i < |s| ::
      r[i] == s[i].(balance := s[i].balance + Signed(d, SumEffect(ts, owner, s[i].id, s[i].userId)))
    decreases |ts|
  {
    if |ts| == 0 then s else ShiftedAll(Shifted(s, ts[0], owner, d), ts[1..], owner, d)
  }

  /** Shifting several transactions one way and then the other restores every account. */
  lemma {:induction false} ShiftedAllInverse(s: seq<Account>, ts: seq<Transaction>, owner: string, d: Direction)
    ensures ShiftedAll(ShiftedAll(s, ts, owner, d), ts, owner, d.Opposite()) == s
  {
    var x := ShiftedAll(ShiftedAll(s, ts, owner, d), ts, owner, d.Opposite());
    forall i | 0 <= i < |s| ensures x[i] == s[i] {
    }
  }
}
