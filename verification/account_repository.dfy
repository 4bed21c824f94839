/**
 * The account collection: documents in insertion order, every lookup and write
 * scoped by (id, owner). The `_id` primary key keeps ids distinct (`UniqueIds`),
 * so a write applied to every matching document is the single-document write
 * the store performs.
 */
module AccountRepository {
  import opened Wrappers
  import opened Models

  /** Errors of the account store: a failed round trip, or a delete that matched nothing. */
  datatype StoreError = StoreFailure | NoDocuments

  predicate Owned(a: Account, id: string, owner: string) {
    a.id == id && a.userId == owner
  }

  predicate UniqueIds(s: seq<Account>) {
    forall i, j | 0 <= i < j < |s| :: s[i].id != s[j].id
  }

  predicate IdUsed(s: seq<Account>, id: string) {
    exists a | a in s :: a.id == id
  }

  // ---------------------------------------------------------------------------
  // Lookup

  /** The account with this id and owner, or none when the id is missing or foreign. */
  function GetByID(s: seq<Account>, id: string, owner: string): (r: Option<Account>)
    ensures r.Some? ==> r.value in s && Owned(r.value, id, owner)
    ensures r.None? <==> (forall a | a in s :: !Owned(a, id, owner))
    ensures r.Some? && UniqueIds(s) ==> forall a | a in s && a.id == id :: a == r.value
  {
    if |s| == 0 then None
    else if Owned(s[0], id, owner) then Some(s[0])
    else GetByID(s[1..], id, owner)
  }

  // ---------------------------------------------------------------------------
  // Balance increment ($inc)

  /** Adds `delta` to the balance of the (id, owner) document; every other document is kept. */
  function Increment(s: seq<Account>, id: string, owner: string, delta: int): (r: seq<Account>)
    ensures |r| == |s|
    ensures forall i | 0 <= i < |s| ::
      r[i] == (if Owned(s[i], id, owner) then s[i].(balance := s[i].balance + delta) else s[i])
  {
    seq(|s|, i requires 0 <= i < |s| =>
      if Owned(s[i], id, owner) then s[i].(balance := s[i].balance + delta) else s[i])
  }

  /**
   * UpdateBalance: an atomic increment that fails only when the store call fails
   * (`fails`). A missing or foreign (id, owner) matches nothing and still succeeds.
   */
  function UpdateBalance(s: seq<Account>, id: string, owner: string, delta: int, fails: bool)
    : (r: Result<seq<Account>, StoreError>)
    ensures r.Failure? <==> fails
    ensures r.Success? ==> |r.value| == |s|
    ensures r.Success? ==> forall i | 0 <= i < |s| ::
      && r.value[i] == s[i].(balance := r.value[i].balance)
      && r.value[i].balance == s[i].balance + (if Owned(s[i], id, owner) then delta else 0)
    ensures r.Success? && GetByID(s, id, owner).None? ==> r.value == s
  {
    if fails then Failure(StoreFailure) else Success(Increment(s, id, owner, delta))
  }

  lemma IncrementKeepsIds(s: seq<Account>, id: string, owner: string, delta: int)
    ensures UniqueIds(s) ==> UniqueIds(Increment(s, id, owner, delta))
    ensures forall i | 0 <= i < |s| :: Increment(s, id, owner, delta)[i].id == s[i].id
    ensures forall i | 0 <= i < |s| :: Increment(s, id, owner, delta)[i].userId == s[i].userId
  {
  }

  /** Increments compose: two deltas on the same document add up. */
  lemma {:induction false} IncrementAdds(s: seq<Account>, id: string, owner: string, d1: int, d2: int)
    ensures Increment(Increment(s, id, owner, d1), id, owner, d2) == Increment(s, id, owner, d1 + d2)
  {
    var a := Increment(Increment(s, id, owner, d1), id, owner, d2);
    var b := Increment(s, id, owner, d1 + d2);
    assert |a| == |b|;
    forall i | 0 <= i < |a| ensures a[i] == b[i] {
    }
  }

  /** An increment by zero changes nothing; in particular +d then -d restores the store. */
  lemma {:induction false} IncrementInverse(s: seq<Account>, id: string, owner: string, d: int)
    ensures Increment(s, id, owner, 0) == s
    ensures Increment(Increment(s, id, owner, d), id, owner, -d) == s
  {
    var z := Increment(s, id, owner, 0);
    assert |z| == |s|;
    forall i | 0 <= i < |s| ensures z[i] == s[i] {
    }
    IncrementAdds(s, id, owner, d, -d);
  }

  // ---------------------------------------------------------------------------
  // Create

  /** The largest display order among the owner's accounts, 0 when the owner has none. */
  function MaxDisplayOrder(s: seq<Account>, owner: string): (r: int)
    ensures forall a | a in s && a.userId == owner :: a.displayOrder <= r
    ensures (exists a | a in s :: a.userId == owner) ==> exists a | a in s && a.userId == owner :: a.displayOrder == r
    ensures (forall a | a in s :: a.userId != owner) ==> r == 0
  {
    if |s| == 0 then 0
    else
      var rest := MaxDisplayOrder(s[1..], owner);
      if s[0].userId != owner then (assert forall a | a in s[1..] :: a in s; rest)
      else if forall a | a in s[1..] :: a.userId != owner then s[0].displayOrder
      else if s[0].displayOrder >= rest then s[0].displayOrder
      else rest
  }

  datatype Created = Created(store: seq<Account>, account: Account)

  /**
   * Create: a new active account with a fresh id carrying the request's fields;
   * display order is the one requested, otherwise one more than the owner's
   * current maximum (1 for a first account). When the lookup of that maximum
   * fails (`lookupFails`) the maximum is taken as 0, so the order is 1. The insert
   * fails on a store failure (`fails`) or an id already in use (duplicate key).
   */
  function Create(s: seq<Account>, owner: string, req: CreateAccountRequest, newId: string,
                  lookupFails: bool, fails: bool)
    : (r: Result<Created, StoreError>)
    ensures r.Failure? <==> fails || IdUsed(s, newId)
    ensures r.Success? ==> r.value.store == s + [r.value.account]
    ensures r.Success? ==> UniqueIds(s) ==> UniqueIds(r.value.store)
    ensures r.Success? ==> var a := r.value.account;
      && a.id == newId && a.userId == owner && a.isActive
      && a.name == req.name && a.kind == req.kind && a.balance == req.balance && a.currency == req.currency
      && a.isExcludedFromTotal == req.isExcludedFromTotal
      && (req.displayOrder.Some? ==> a.displayOrder == req.displayOrder.value)
      && (req.displayOrder.None? && !lookupFails ==>
            forall b | b in s && b.userId == owner :: b.displayOrder < a.displayOrder)
      && (req.displayOrder.None? && (lookupFails || forall b | b in s :: b.userId != owner) ==>
            a.displayOrder == 1)
    ensures r.Success? ==> var a := r.value.account;
      && a.icon == req.icon && a.color == req.color
      && a.bankBin == req.bankBin && a.bankCode == req.bankCode && a.bankName == req.bankName
      && a.accountNumber == req.accountNumber && a.cardNumber == req.cardNumber
      && a.creditLimit == req.creditLimit && a.statementDate == req.statementDate && a.dueDate == req.dueDate
  {
    if fails || IdUsed(s, newId) then Failure(StoreFailure)
    else
      var maxOrder := if lookupFails then 0 else MaxDisplayOrder(s, owner);
      var order := if req.displayOrder.Some? then req.displayOrder.value else maxOrder + 1;
      var a := Account(newId, owner, req.name, req.kind, req.balance, req.currency, req.icon, req.color,
                       req.bankBin, req.bankCode, req.bankName, req.accountNumber, req.cardNumber,
                       req.creditLimit, req.statementDate, req.dueDate, true, req.isExcludedFromTotal, order);
      Success(Created(s + [a], a))
  }

  // ---------------------------------------------------------------------------
  // Update (patch)

  /** A supplied optional field replaces the stored one; an absent one keeps it. */
  function OrKeep<T>(supplied: Option<T>, current: Option<T>): (r: Option<T>)
    ensures supplied.Some? ==> r == supplied
    ensures supplied.None? ==> r == current
  {
    if supplied.Some? then supplied else current
  }

  /** Supplied fields replace the document's; identity, type and currency are never written. */
  function PatchAccount(a: Account, p: AccountPatch): (r: Account)
    ensures r.id == a.id && r.userId == a.userId && r.kind == a.kind && r.currency == a.currency
    ensures r.name == p.name.GetOr(a.name)
    ensures r.balance == p.balance.GetOr(a.balance)
    ensures r.isActive == p.isActive.GetOr(a.isActive)
    ensures r.isExcludedFromTotal == p.isExcludedFromTotal.GetOr(a.isExcludedFromTotal)
    ensures r.displayOrder == p.displayOrder.GetOr(a.displayOrder)
    ensures r.icon == OrKeep(p.icon, a.icon) && r.color == OrKeep(p.color, a.color)
    ensures r.bankBin == OrKeep(p.bankBin, a.bankBin)
    ensures r.bankCode == OrKeep(p.bankCode, a.bankCode)
    ensures r.bankName == OrKeep(p.bankName, a.bankName)
    ensures r.accountNumber == OrKeep(p.accountNumber, a.accountNumber)
    ensures r.cardNumber == OrKeep(p.cardNumber, a.cardNumber)
    ensures r.creditLimit == OrKeep(p.creditLimit, a.creditLimit)
    ensures r.statementDate == OrKeep(p.statementDate, a.statementDate)
    ensures r.dueDate == OrKeep(p.dueDate, a.dueDate)
  {
    Account(a.id, a.userId, p.name.GetOr(a.name), a.kind, p.balance.GetOr(a.balance), a.currency,
            OrKeep(p.icon, a.icon), OrKeep(p.color, a.color), OrKeep(p.bankBin, a.bankBin),
            OrKeep(p.bankCode, a.bankCode), OrKeep(p.bankName, a.bankName),
            OrKeep(p.accountNumber, a.accountNumber), OrKeep(p.cardNumber, a.cardNumber),
            OrKeep(p.creditLimit, a.creditLimit), OrKeep(p.statementDate, a.statementDate),
            OrKeep(p.dueDate, a.dueDate), p.isActive.GetOr(a.isActive),
            p.isExcludedFromTotal.GetOr(a.isExcludedFromTotal), p.displayOrder.GetOr(a.displayOrder))
  }

  const EmptyAccountPatch := AccountPatch(None, None, None, None, None, None, None, None, None, None, None, None, None, None, None)

  /** A patch that supplies nothing leaves the account as it is. */
  lemma EmptyPatchKeepsAccount(a: Account)
    ensures PatchAccount(a, EmptyAccountPatch) == a
  {
  }

  function PatchOwned(s: seq<Account>, id: string, owner: string, p: AccountPatch): (r: seq<Account>)
    ensures |r| == |s|
    ensures forall i | 0 <= i < |s| :: r[i] == (if Owned(s[i], id, owner) then PatchAccount(s[i], p) else s[i])
  {
    if |s| == 0 then []
    else [if Owned(s[0], id, owner) then PatchAccount(s[0], p) else s[0]] + PatchOwned(s[1..], id, owner, p)
  }

  datatype Updated = Updated(store: seq<Account>, account: Option<Account>)

  /** Update: patch the (id, owner) document and return it; no match returns nothing and writes nothing. */
  function Update(s: seq<Account>, id: string, owner: string, p: AccountPatch, fails: bool)
    : (r: Result<Updated, StoreError>)
    ensures r.Failure? <==> fails
    ensures r.Success? && GetByID(s, id, owner).None? ==> r.value == Updated(s, None)
    ensures r.Success? && GetByID(s, id, owner).Some? ==>
      && r.value.account == Some(PatchAccount(GetByID(s, id, owner).value, p))
      && r.value.store == PatchOwned(s, id, owner, p)
      && |r.value.store| == |s|
      && forall i | 0 <= i < |s| :: !Owned(s[i], id, owner) ==> r.value.store[i] == s[i]
  {
    if fails then Failure(StoreFailure)
    else match GetByID(s, id, owner)
      case None => Success(Updated(s, None))
      case Some(a) => Success(Updated(PatchOwned(s, id, owner, p), Some(PatchAccount(a, p))))
  }

  /**
   * After an update that found its document, a lookup returns the patched account,
   * the store keeps its size, and every document with another id is untouched.
   */
  lemma {:induction false} UpdateThenGet(s: seq<Account>, id: string, owner: string, p: AccountPatch)
    requires UniqueIds(s)
    requires GetByID(s, id, owner).Some?
    ensures var u := Update(s, id, owner, p, false).value;
      && |u.store| == |s|
      && UniqueIds(u.store)
      && GetByID(u.store, id, owner) == u.account
      && forall i | 0 <= i < |s| && s[i].id != id :: u.store[i] == s[i]
  {
    var a := GetByID(s, id, owner).value;
    var t := PatchOwned(s, id, owner, p);
    PatchOwnedKeepsKeys(s, id, owner, p);
    var k :| 0 <= k < |s| && s[k] == a;
    assert t[k] == PatchAccount(a, p);
    FoundAt(t, k, id, owner);
  }

  /** A patch never changes an id or an owner, so distinct ids stay distinct. */
  lemma {:induction false} PatchOwnedKeepsKeys(s: seq<Account>, id: string, owner: string, p: AccountPatch)
    ensures forall i | 0 <= i < |s| ::
      PatchOwned(s, id, owner, p)[i].id == s[i].id && PatchOwned(s, id, owner, p)[i].userId == s[i].userId
    ensures UniqueIds(s) ==> UniqueIds(PatchOwned(s, id, owner, p))
  {
  }

  /** With distinct ids, the document at position k is what a lookup of its id and owner finds. */
  lemma {:induction false} FoundAt(s: seq<Account>, k: nat, id: string, owner: string)
    requires UniqueIds(s) && k < |s| && Owned(s[k], id, owner)
    ensures GetByID(s, id, owner) == Some(s[k])
  {
    assert s[k] in s;
  }

  /** Every stored statement and due day lies in 1..31. */
  predicate DaysValid(s: seq<Account>) {
    forall i | 0 <= i < |s| :: DayOfMonth(s[i].statementDate) && DayOfMonth(s[i].dueDate)
  }

  /**
   * Writes made through requests that passed binding keep every stored
   * statement and due day in 1..31.
   */
  lemma BindingKeepsDays(s: seq<Account>, owner: string, req: CreateAccountRequest, newId: string,
                         id: string, p: AccountPatch)
    requires DaysValid(s) && BindsCreateAccount(req) && BindsAccountPatch(p)
    ensures Create(s, owner, req, newId, false, false).Success? ==>
      DaysValid(Create(s, owner, req, newId, false, false).value.store)
    ensures DaysValid(Update(s, id, owner, p, false).value.store)
  {
  }

  // ---------------------------------------------------------------------------
  // Totals

  /** Counted in the owner's total: active and not excluded from totals. */
  predicate InTotal(a: Account, owner: string) {
    a.userId == owner && a.isActive && !a.isExcludedFromTotal
  }

  /** GetTotalBalance: the summed balance of the owner's accounts counted in totals. */
  function GetTotalBalance(s: seq<Account>, owner: string): (r: int)
    ensures (forall a | a in s :: !InTotal(a, owner)) ==> r == 0
    ensures (forall a | a in s && InTotal(a, owner) :: a.balance >= 0) ==> r >= 0
  {
    if |s| == 0 then 0
    else
      assert forall a | a in s[1..] :: a in s;
      (if InTotal(s[0], owner) then s[0].balance else 0) + GetTotalBalance(s[1..], owner)
  }

  /** The total of a concatenation is the sum of the totals. */
  lemma {:induction false} TotalAppend(s: seq<Account>, t: seq<Account>, owner: string)
    ensures GetTotalBalance(s + t, owner) == GetTotalBalance(s, owner) + GetTotalBalance(t, owner)
  {
    if |s| > 0 {
      assert (s + t)[0] == s[0];
      assert (s + t)[1..] == s[1..] + t;
      TotalAppend(s[1..], t, owner);
    } else {
      assert s + t == t;
    }
  }

  /** Creating an account raises the owner's total by its opening balance unless it is excluded. */
  lemma {:induction false} CreateMovesTotal(s: seq<Account>, owner: string, req: CreateAccountRequest, newId: string,
                                           lookupFails: bool, fails: bool)
    requires Create(s, owner, req, newId, lookupFails, fails).Success?
    ensures GetTotalBalance(Create(s, owner, req, newId, lookupFails, fails).value.store, owner)
      == GetTotalBalance(s, owner) + (if req.isExcludedFromTotal then 0 else req.balance)
  {
    var c := Create(s, owner, req, newId, lookupFails, fails).value;
    TotalAppend(s, [c.account], owner);
  }

  lemma {:induction false} IncrementTail(s: seq<Account>, id: string, owner: string, delta: int)
    requires |s| > 0
    ensures Increment(s, id, owner, delta)[1..] == Increment(s[1..], id, owner, delta)
  {
    var x := Increment(s, id, owner, delta)[1..];
    var y := Increment(s[1..], id, owner, delta);
    forall i | 0 <= i < |x| ensures x[i] == y[i] {
      assert x[i] == Increment(s, id, owner, delta)[i + 1];
      assert s[1..][i] == s[i + 1];
    }
  }

  /**
   * A balance increment moves the owner's total by exactly the increment when the
   * account counts in totals, and leaves it unchanged otherwise.
   */
  lemma {:induction false} IncrementMovesTotal(s: seq<Account>, id: string, owner: string, delta: int)
    requires UniqueIds(s)
    ensures var a := GetByID(s, id, owner);
      GetTotalBalance(Increment(s, id, owner, delta), owner)
        == GetTotalBalance(s, owner) + (if a.Some? && InTotal(a.value, owner) then delta else 0)
  {
    if |s| > 0 {
      assert UniqueIds(s[1..]);
      IncrementMovesTotal(s[1..], id, owner, delta);
      IncrementTail(s, id, owner, delta);
      if Owned(s[0], id, owner) {
        assert GetByID(s[1..], id, owner).None? by {
          forall a | a in s[1..] ensures !Owned(a, id, owner) {
            var k :| 0 <= k < |s[1..]| && s[1..][k] == a;
            assert s[k + 1] == a;
          }
        }
      }
    }
  }

  // ---------------------------------------------------------------------------
  // Summary

  function CountActive(s: seq<Account>, owner: string): nat {
    if |s| == 0 then 0
    else (if s[0].userId == owner && s[0].isActive then 1 else 0) + CountActive(s[1..], owner)
  }

  function CountActiveOfKind(s: seq<Account>, owner: string, kind: string): nat {
    if |s| == 0 then 0
    else (if s[0].userId == owner && s[0].isActive && s[0].kind == kind then 1 else 0)
         + CountActiveOfKind(s[1..], owner, kind)
  }

  datatype AccountSummary = AccountSummary(
    totalAccounts: nat,
    totalBalance: int,
    totalIncome: int,
    totalExpense: int,
    netWorth: int,
    accountsByType: map<string, nat>)

  function Bump(m: map<string, nat>, k: string): map<string, nat> {
    m[k := if k in m then m[k] + 1 else 1]
  }

  /**
   * GetSummary: active accounts counted overall and per type; the balance total
   * leaves out excluded accounts; net worth equals that total; income and expense
   * are never filled in.
   */
  function GetSummary(s: seq<Account>, owner: string): (r: AccountSummary)
    ensures r.totalAccounts == CountActive(s, owner)
    ensures r.totalBalance == GetTotalBalance(s, owner)
    ensures r.netWorth == r.totalBalance
    ensures r.totalIncome == 0 && r.totalExpense == 0
    ensures forall k :: k in r.accountsByType <==> CountActiveOfKind(s, owner, k) > 0
    ensures forall k | k in r.accountsByType :: r.accountsByType[k] == CountActiveOfKind(s, owner, k)
  {
    if |s| == 0 then AccountSummary(0, 0, 0, 0, 0, map[])
    else
      var rest := GetSummary(s[1..], owner);
      var a := s[0];
      if a.userId == owner && a.isActive then
        var total := rest.totalBalance + (if !a.isExcludedFromTotal then a.balance else 0);
        AccountSummary(rest.totalAccounts + 1, total, 0, 0, total, Bump(rest.accountsByType, a.kind))
      else rest
  }

  // ---------------------------------------------------------------------------
  // Delete

  function RemoveOwned(s: seq<Account>, id: string, owner: string): (r: seq<Account>)
    ensures forall a :: a in r <==> a in s && !Owned(a, id, owner)
    ensures |r| <= |s|
    ensures UniqueIds(s) ==> UniqueIds(r)
  {
    if |s| == 0 then []
    else if Owned(s[0], id, owner) then RemoveOwned(s[1..], id, owner)
    else
      var rest := RemoveOwned(s[1..], id, owner);
      assert forall a | a in rest :: a in s[1..];
      assert UniqueIds(s) ==> forall a | a in rest :: a.id != s[0].id by {
        if UniqueIds(s) {
          forall a | a in rest ensures a.id != s[0].id {
            var k :| 0 <= k < |s[1..]| && s[1..][k] == a;
            assert s[k + 1] == a;
          }
        }
      }
      [s[0]] + rest
  }

  /** Delete: removes the (id, owner) document; reports NoDocuments when nothing matched. */
  function Delete(s: seq<Account>, id: string, owner: string, fails: bool): (r: Result<seq<Account>, StoreError>)
    ensures fails ==> r == Failure(StoreFailure)
    ensures !fails && GetByID(s, id, owner).None? ==> r == Failure(NoDocuments)
    ensures r.Success? ==> GetByID(s, id, owner).Some?
    ensures r.Success? ==> forall a :: a in r.value <==> a in s && !Owned(a, id, owner)
  {
    if fails then Failure(StoreFailure)
    else if GetByID(s, id, owner).None? then Failure(NoDocuments)
    else Success(RemoveOwned(s, id, owner))
  }
}
