/**
 * The transaction service: validation, persistence and balance reconciliation of
 * creates, updates, deletes and bulk operations, in the order the service performs
 * them, with the best-effort compensation it attempts when a later step fails.
 */
module TransactionService {
  import opened Wrappers
  import opened Models
  import AR = AccountRepository
  import TR = TransactionRepository
  import CR = CategoryRepository
  import opened Reconciliation
  import opened TransactionOrder

  /** What a request sees: the accounts, transactions and categories of one database. */
  datatype Db = Db(accounts: seq<Account>, transactions: seq<Transaction>, categories: seq<Category>)

  /**
   * Store failures, named up front: which balance increments of the request
   * fail (by position), which lookups fail, and whether the transaction write
   * fails.
   */
  datatype Faults = Faults(
    increments: set<nat>,
    accountLookups: set<string>,
    categoryLookups: set<string>,
    transactionLookups: set<string>,
    write: bool)

  /** No store call of the request fails. */
  predicate NoFaults(f: Faults) {
    f.increments == {} && f.accountLookups == {} && f.categoryLookups == {} && f.transactionLookups == {} && !f.write
  }

  datatype TxError =
    | InvalidType
    | AccountNotFound
    | DestinationRequired
    | SameAccount
    | DestinationNotFound
    | CategoryRequired
    | CategoryNotFound
    | CategoryTypeMismatch
    | InsufficientBalance
    | TransactionNotFound
    | StoreFailed
    | RevertFailed
    | BalanceUpdateFailed

  /** The database after the request, and the request's result. */
  datatype Outcome<T> = Outcome(db: Db, result: Result<T, TxError>)

  /** A request-scoped ledger over the database's accounts, before any increment. */
  function Start(db: Db): Ledger {
    Ledger(db.accounts, 0)
  }

  // ---------------------------------------------------------------------------
  // Lookups that may fail

  function FindAccount(db: Db, id: string, owner: string, f: Faults): (r: Result<Option<Account>, TxError>)
    ensures r.Failure? <==> id in f.accountLookups
    ensures r.Failure? ==> r.error == StoreFailed
    ensures r.Success? ==> r.value == AR.GetByID(db.accounts, id, owner)
  {
    if id in f.accountLookups then Failure(StoreFailed) else Success(AR.GetByID(db.accounts, id, owner))
  }

  function FindCategory(db: Db, id: string, owner: string, f: Faults): (r: Result<Option<Category>, TxError>)
    ensures r.Failure? <==> id in f.categoryLookups
    ensures r.Failure? ==> r.error == StoreFailed
    ensures r.Success? ==> r.value == CR.GetByID(db.categories, id, owner)
  {
    if id in f.categoryLookups then Failure(StoreFailed) else Success(CR.GetByID(db.categories, id, owner))
  }

  function FindTransaction(db: Db, id: string, owner: string, f: Faults): (r: Result<Option<Transaction>, TxError>)
    ensures r.Failure? <==> id in f.transactionLookups
    ensures r.Failure? ==> r.error == StoreFailed
    ensures r.Success? ==> r.value == TR.GetByID(db.transactions, id, owner)
  {
    if id in f.transactionLookups then Failure(StoreFailed) else Success(TR.GetByID(db.transactions, id, owner))
  }

  // ---------------------------------------------------------------------------
  // Create

  /** What a create needs to succeed, checks in any order. */
  predicate Admissible(db: Db, owner: string, req: CreateTxRequest) {
    && ParseTxType(req.kind).Some?
    && AR.GetByID(db.accounts, req.accountId, owner).Some?
    && (req.kind == "transfer" ==>
          && Given(req.toAccountId)
          && req.toAccountId.value != req.accountId
          && AR.GetByID(db.accounts, req.toAccountId.value, owner).Some?)
    && (req.kind != "transfer" ==>
          && Given(req.categoryId)
          && CR.GetByID(db.categories, req.categoryId.value, owner).Some?
          && CategoryFits(CR.GetByID(db.categories, req.categoryId.value, owner).value, req.kind))
    && ((req.kind == "expense" || req.kind == "transfer") ==>
          AR.GetByID(db.accounts, req.accountId, owner).value.balance >= req.amount)
  }

  /** A category serves a transaction of its own type, or of any type when it is "both". */
  predicate CategoryFits(c: Category, kind: string) {
    c.kind == kind || c.kind == "both"
  }

  /** The transfer checks: a non-empty destination, not the source, that exists; the category is dropped. */
  function CheckDestination(db: Db, owner: string, req: CreateTxRequest, f: Faults): (r: Result<CreateTxRequest, TxError>)
    ensures r.Success? ==> r.value == req.(categoryId := None)
  {
    if !Given(req.toAccountId) then Failure(DestinationRequired)
    else if req.toAccountId.value == req.accountId then Failure(SameAccount)
    else match FindAccount(db, req.toAccountId.value, owner, f)
      case Failure(e) => Failure(e)
      case Success(None) => Failure(DestinationNotFound)
      case Success(Some(_)) => Success(req.(categoryId := None))
  }

  /** The income/expense checks: a non-empty category that exists and fits the type. */
  function CheckCategory(db: Db, owner: string, req: CreateTxRequest, f: Faults): (r: Result<CreateTxRequest, TxError>)
    ensures r.Success? ==> r.value == req
  {
    if !Given(req.categoryId) then Failure(CategoryRequired)
    else match FindCategory(db, req.categoryId.value, owner, f)
      case Failure(e) => Failure(e)
      case Success(None) => Failure(CategoryNotFound)
      case Success(Some(c)) => if !CategoryFits(c, req.kind) then Failure(CategoryTypeMismatch) else Success(req)
  }

  /**
   * The create checks, in the service's order: type, source account, transfer or
   * category checks, then the source balance for debits. The result is the request
   * to persist.
   */
  function CheckCreate(db: Db, owner: string, req: CreateTxRequest, f: Faults): (r: Result<CreateTxRequest, TxError>)
    ensures ParseTxType(req.kind).None? ==> r == Failure(InvalidType)
    ensures r.Success? ==> ParseTxType(r.value.kind).Some? && r.value.kind == req.kind
    ensures r.Success? ==> r.value == (if req.kind == "transfer" then req.(categoryId := None) else req)
  {
    if ParseTxType(req.kind).None? then Failure(InvalidType)
    else match FindAccount(db, req.accountId, owner, f)
      case Failure(e) => Failure(e)
      case Success(None) => Failure(AccountNotFound)
      case Success(Some(account)) =>
        var checked := if req.kind == "transfer" then CheckDestination(db, owner, req, f) else CheckCategory(db, owner, req, f);
        if checked.Failure? then checked
        else if (req.kind == "expense" || req.kind == "transfer") && account.balance < req.amount then Failure(InsufficientBalance)
        else checked
  }

  /** Without failing lookups the checks accept exactly the admissible requests. */
  lemma CheckCreateMeaning(db: Db, owner: string, req: CreateTxRequest, f: Faults)
    requires f.accountLookups == {} && f.categoryLookups == {}
    ensures CheckCreate(db, owner, req, f).Success? <==> Admissible(db, owner, req)
  {
  }

  /** Failing lookups only ever turn an acceptance into a rejection. */
  lemma CheckCreateNeedsAdmissible(db: Db, owner: string, req: CreateTxRequest, f: Faults)
    ensures CheckCreate(db, owner, req, f).Success? ==> Admissible(db, owner, req)
  {
  }

  /** The order of the checks: each rejection implies every earlier check passed. */
  lemma CheckCreateOrder(db: Db, owner: string, req: CreateTxRequest, f: Faults)
    ensures var r := CheckCreate(db, owner, req, f);
      && (r == Failure(AccountNotFound) ==> ParseTxType(req.kind).Some? && req.accountId !in f.accountLookups)
      && (r == Failure(DestinationRequired) || r == Failure(SameAccount) || r == Failure(DestinationNotFound) ==>
            req.kind == "transfer" && AR.GetByID(db.accounts, req.accountId, owner).Some?)
      && (r == Failure(SameAccount) ==> Given(req.toAccountId))
      && (r == Failure(CategoryRequired) || r == Failure(CategoryNotFound) || r == Failure(CategoryTypeMismatch) ==>
            ParseTxType(req.kind).Some? && req.kind != "transfer" && AR.GetByID(db.accounts, req.accountId, owner).Some?)
      && (r == Failure(InsufficientBalance) ==>
            && (req.kind == "expense" || req.kind == "transfer")
            && req.accountId !in f.accountLookups
            && Admissible(db, owner, req.(amount := AR.GetByID(db.accounts, req.accountId, owner).value.balance))
            && AR.GetByID(db.accounts, req.accountId, owner).value.balance < req.amount)
  {
  }

  /**
   * CreateTransaction: persist the checked request, then apply its effect. A
   * rejection writes nothing; a failed balance update leaves the transaction stored
   * and reports the failure.
   */
  function CreateTransaction(db: Db, owner: string, req: CreateTxRequest, newId: string, now: int, f: Faults)
    : (r: Outcome<Transaction>)
    ensures r.result.Failure? && r.result.error != BalanceUpdateFailed ==> r.db == db
    ensures r.result.Success? ==> Admissible(db, owner, req)
    ensures r.result.Success? ==> var t := r.result.value;
      && r.db.transactions == db.transactions + [t]
      && r.db.accounts == Shifted(db.accounts, t, owner, Forward)
      && r.db.categories == db.categories
      && t.id == newId && t.userId == owner && TypeName(t.kind) == req.kind && t.amount == req.amount
      && t.accountId == req.accountId && t.toAccountId == req.toAccountId
      && (t.kind == Transfer ==> t.categoryId.None?)
      && (t.kind != Transfer ==> t.categoryId == req.categoryId)
    ensures r.result == Failure(BalanceUpdateFailed) ==>
      && |r.db.transactions| == |db.transactions| + 1
      && r.db.transactions[..|db.transactions|] == db.transactions
      && (2 !in f.increments ==> r.db.accounts == db.accounts)
    ensures NoFaults(f) && Admissible(db, owner, req) && !TR.IdUsed(db.transactions, newId) ==> r.result.Success?
  {
    CheckCreateNeedsAdmissible(db, owner, req, f);
    match CheckCreate(db, owner, req, f)
    case Failure(e) => Outcome(db, Failure(e))
    case Success(checked) =>
      match TR.Create(db.transactions, owner, checked, newId, now, f.write)
      case Failure(_) => Outcome(db, Failure(StoreFailed))
      case Success(c) =>
        var step := Apply(Start(db), f.increments, owner, c.tx);
        var db' := db.(accounts := step.ledger.accounts, transactions := c.store);
        if step.ok then Outcome(db', Success(c.tx)) else Outcome(db', Failure(BalanceUpdateFailed))
  }

  // ---------------------------------------------------------------------------
  // Update

  /**
   * The update checks, in order: the transaction exists; a new type is valid, a
   * new transfer names a destination, and a transfer turned into income or expense
   * names a category; a new account, destination and category exist. Category fit,
   * self-transfer and balance are not checked.
   */
  function CheckUpdate(db: Db, id: string, owner: string, p: TxPatch, f: Faults): (r: Result<Transaction, TxError>)
    ensures r.Success? ==> TR.GetByID(db.transactions, id, owner) == Some(r.value)
    ensures r.Success? ==> TR.PatchTypeKnown(p)
    ensures id !in f.transactionLookups && TR.GetByID(db.transactions, id, owner).None? ==> r == Failure(TransactionNotFound)
  {
    match FindTransaction(db, id, owner, f)
    case Failure(e) => Failure(e)
    case Success(None) => Failure(TransactionNotFound)
    case Success(Some(existing)) =>
      var typed := CheckNewType(existing, p);
      if typed.Failure? then Failure(typed.error)
      else
        var refs := CheckReferences(db, owner, p, f);
        if refs.Failure? then Failure(refs.error) else Success(existing)
  }

  function CheckNewType(existing: Transaction, p: TxPatch): (r: Result<(), TxError>)
    ensures r.Success? ==> TR.PatchTypeKnown(p)
  {
    if p.kind.None? then Success(())
    else if ParseTxType(p.kind.value).None? then Failure(InvalidType)
    else if p.kind.value == "transfer" && !Given(p.toAccountId) then Failure(DestinationRequired)
    else if existing.kind == Transfer && p.kind.value != "transfer" && !Given(p.categoryId) then Failure(CategoryRequired)
    else Success(())
  }

  function CheckReferences(db: Db, owner: string, p: TxPatch, f: Faults): (r: Result<(), TxError>) {
    var account := if p.accountId.Some? then FindAccount(db, p.accountId.value, owner, f) else Success(None);
    if account.Failure? then Failure(account.error)
    else if p.accountId.Some? && account.value.None? then Failure(AccountNotFound)
    else
      var dest := if Given(p.toAccountId) then FindAccount(db, p.toAccountId.value, owner, f) else Success(None);
      if dest.Failure? then Failure(dest.error)
      else if Given(p.toAccountId) && dest.value.None? then Failure(DestinationNotFound)
      else
        var cat := if Given(p.categoryId) then FindCategory(db, p.categoryId.value, owner, f) else Success(None);
        if cat.Failure? then Failure(cat.error)
        else if Given(p.categoryId) && cat.value.None? then Failure(CategoryNotFound)
        else Success(())
  }

  /**
   * UpdateTransaction: after the checks, revert the old effect (abort if that
   * fails), write the patch (re-apply the old effect if that fails), then apply
   * the new effect (if that fails the patch stays written and the old effect
   * stays reverted).
   */
  function UpdateTransaction(db: Db, id: string, owner: string, p: TxPatch, f: Faults): (r: Outcome<Transaction>)
    ensures r.result.Failure? && r.result.error !in {RevertFailed, StoreFailed, BalanceUpdateFailed} ==> r.db == db
    ensures id !in f.transactionLookups && TR.GetByID(db.transactions, id, owner).None? ==>
      r == Outcome(db, Failure(TransactionNotFound))
    ensures r.db.categories == db.categories
  {
    match CheckUpdate(db, id, owner, p, f)
    case Failure(e) => Outcome(db, Failure(e))
    case Success(existing) =>
      var reverted := Revert(Start(db), f.increments, owner, existing);
      if !reverted.ok then Outcome(db.(accounts := reverted.ledger.accounts), Failure(RevertFailed))
      else match TR.Update(db.transactions, id, owner, p, f.write)
        case Failure(_) =>
          var restored := Apply(reverted.ledger, f.increments, owner, existing);
          Outcome(db.(accounts := restored.ledger.accounts), Failure(StoreFailed))
        case Success(u) =>
          var updated := u.tx.GetOr(existing);
          var applied := Apply(reverted.ledger, f.increments, owner, updated);
          var db' := db.(accounts := applied.ledger.accounts, transactions := u.store);
          if applied.ok then Outcome(db', Success(updated)) else Outcome(db', Failure(BalanceUpdateFailed))
  }

  /** A successful update has swapped the old effect for the new one and written the patch. */
  lemma UpdateSucceeded(db: Db, id: string, owner: string, p: TxPatch, f: Faults)
    requires UpdateTransaction(db, id, owner, p, f).result.Success?
    ensures var r := UpdateTransaction(db, id, owner, p, f);
      var existing := TR.GetByID(db.transactions, id, owner);
      && existing.Some? && TR.PatchTypeKnown(p)
      && r.result.value == TR.PatchTx(existing.value, p)
      && r.db.transactions == TR.Update(db.transactions, id, owner, p, false).value.store
      && r.db.accounts == Shifted(Shifted(db.accounts, existing.value, owner, Backward), r.result.value, owner, Forward)
      && r.db.categories == db.categories
  {
  }

  /** A failed revert aborts the update with the transaction unwritten and, unless its compensation failed, no balance moved. */
  lemma UpdateRevertFailed(db: Db, id: string, owner: string, p: TxPatch, f: Faults)
    requires UpdateTransaction(db, id, owner, p, f).result == Failure(RevertFailed)
    ensures var r := UpdateTransaction(db, id, owner, p, f);
      && r.db.transactions == db.transactions
      && (2 !in f.increments ==> r.db.accounts == db.accounts)
  {
  }

  /** A failed write re-applies the reverted effect, which restores every balance when no increment fails. */
  lemma {:induction false} UpdateStoreFailed(db: Db, id: string, owner: string, p: TxPatch, f: Faults)
    requires CheckUpdate(db, id, owner, p, f).Success?
    requires UpdateTransaction(db, id, owner, p, f).result == Failure(StoreFailed)
    ensures var r := UpdateTransaction(db, id, owner, p, f);
      && f.write
      && r.db.transactions == db.transactions
      && (NoneFailFrom(f.increments, 0, 6) ==> r.db.accounts == db.accounts)
  {
    var existing := CheckUpdate(db, id, owner, p, f).value;
    if NoneFailFrom(f.increments, 0, 6) {
      CallsBound(Start(db), f.increments, owner, existing, Backward);
      ApplyUndoesRevert(Start(db), f.increments, owner, existing);
    }
  }

  /**
   * A failed application of the new effect leaves the patch written and the old
   * effect reverted: the stored transaction no longer matches the balances.
   */
  lemma {:induction false} UpdateBalanceFailed(db: Db, id: string, owner: string, p: TxPatch, f: Faults)
    requires UpdateTransaction(db, id, owner, p, f).result == Failure(BalanceUpdateFailed)
    ensures var r := UpdateTransaction(db, id, owner, p, f);
      var existing := TR.GetByID(db.transactions, id, owner);
      && existing.Some? && TR.PatchTypeKnown(p)
      && r.db.transactions == TR.Update(db.transactions, id, owner, p, false).value.store
      && TR.GetByID(r.db.transactions, id, owner).Some?
      && (NoneFailFrom(f.increments, 0, 6) ==> r.db.accounts == Shifted(db.accounts, existing.value, owner, Backward))
  {
    UpdateWrote(db, id, owner, p, f);
    var existing := TR.GetByID(db.transactions, id, owner).value;
    UpdatedStillFound(db.transactions, id, owner, p, existing);
    if NoneFailFrom(f.increments, 0, 6) {
      CallsBound(Start(db), f.increments, owner, existing, Backward);
      assert Revert(Start(db), f.increments, owner, existing).ledger.calls + 2 < 6;
    }
  }

  /** An update that got past the revert and the write: the new effect applied to the reverted balances. */
  lemma {:induction false} UpdateWrote(db: Db, id: string, owner: string, p: TxPatch, f: Faults)
    requires var r := UpdateTransaction(db, id, owner, p, f).result;
      r.Success? || r == Failure(BalanceUpdateFailed)
    ensures var existing := TR.GetByID(db.transactions, id, owner);
      && existing.Some? && TR.PatchTypeKnown(p) && !f.write
      && var reverted := Revert(Start(db), f.increments, owner, existing.value);
      && reverted.ok
      && var applied := Apply(reverted.ledger, f.increments, owner, TR.PatchTx(existing.value, p));
      && UpdateTransaction(db, id, owner, p, f).db
           == db.(accounts := applied.ledger.accounts, transactions := TR.Update(db.transactions, id, owner, p, false).value.store)
      && (UpdateTransaction(db, id, owner, p, f).result.Success? <==> applied.ok)
  {
    var existing := CheckUpdate(db, id, owner, p, f).value;
    var reverted := Revert(Start(db), f.increments, owner, existing);
    assert reverted.ok && !f.write;
    var u := TR.Update(db.transactions, id, owner, p, false).value;
    assert u.tx == Some(TR.PatchTx(existing, p));
  }

  /** The patched document is still found under its id and owner. */
  lemma {:induction false} UpdatedStillFound(s: seq<Transaction>, id: string, owner: string, p: TxPatch, existing: Transaction)
    requires TR.PatchTypeKnown(p) && TR.GetByID(s, id, owner) == Some(existing)
    ensures TR.GetByID(TR.Update(s, id, owner, p, false).value.store, id, owner).Some?
  {
    var k :| 0 <= k < |s| && s[k] == existing;
    assert TR.Owned(TR.Update(s, id, owner, p, false).value.store[k], id, owner);
  }

  /** One cash account, one expense category and one expense of 5 from the account. */
  function ExpenseDb(): Db {
    Db([Account("a", "u", "Cash", "cash", 0, "VND", None, None, None, None, None, None, None, None, None, None, true, false, 0)],
       [Transaction("t", "u", "a", None, Some("c"), Expense, 5, None, None, 0, None, [], None, 0)],
       [Category("c", "u", "Food", "expense", None, None, None, false)])
  }

  /**
   * The update path checks neither the self-transfer rule nor the balance: the
   * expense can become a transfer from its account to itself.
   */
  lemma UpdateAllowsSelfTransfer()
    ensures var p := TxPatch(None, Some("a"), None, Some("transfer"), None, None, None, None, None, None, None);
      var r := UpdateTransaction(ExpenseDb(), "t", "u", p, Faults({}, {}, {}, {}, false)).result;
      && r.Success?
      && r.value.kind == Transfer
      && r.value.accountId == "a"
      && r.value.toAccountId == Some("a")
  {
  }

  /** The create path refuses the same transfer. */
  lemma CreateRefusesSelfTransfer()
    ensures CheckCreate(ExpenseDb(), "u", CreateTxRequest("a", Some("a"), None, "transfer", 5, None, None, 0, None, None, None),
                        Faults({}, {}, {}, {}, false))
      == Failure(SameAccount)
  {
  }

  /** None of the increments `lo .. hi - 1` of the request fails. */
  predicate NoneFailFrom(failing: set<nat>, lo: nat, hi: nat) {
    forall n: nat | lo <= n < hi :: n !in failing
  }

  /** A reconciliation issues at most three increments. */
  lemma CallsBound(l: Ledger, failing: set<nat>, owner: string, t: Transaction, d: Direction)
    ensures l.calls <= Reconcile(l, failing, owner, t, d).ledger.calls <= l.calls + 3
  {
  }

  // ---------------------------------------------------------------------------
  // Delete

  /**
   * DeleteTransaction: revert the effect (nothing is deleted if that fails), delete
   * the document, and re-apply the effect if the delete fails.
   */
  function DeleteTransaction(db: Db, id: string, owner: string, f: Faults): (r: Outcome<()>)
  {
    match FindTransaction(db, id, owner, f)
    case Failure(e) => Outcome(db, Failure(e))
    case Success(None) => Outcome(db, Failure(TransactionNotFound))
    case Success(Some(existing)) =>
      var reverted := Revert(Start(db), f.increments, owner, existing);
      if !reverted.ok then Outcome(db.(accounts := reverted.ledger.accounts), Failure(RevertFailed))
      else match TR.Delete(db.transactions, id, owner, f.write)
        case Failure(_) =>
          var restored := Apply(reverted.ledger, f.increments, owner, existing);
          Outcome(db.(accounts := restored.ledger.accounts), Failure(StoreFailed))
        case Success(d) => Outcome(db.(accounts := reverted.ledger.accounts, transactions := d.store), Success(()))
  }

  /** The outcomes of a delete. */
  lemma {:induction false} DeleteOutcome(db: Db, id: string, owner: string, f: Faults)
    ensures var r := DeleteTransaction(db, id, owner, f);
      var existing := TR.GetByID(db.transactions, id, owner);
      && (id !in f.transactionLookups && existing.None? ==> r == Outcome(db, Failure(TransactionNotFound)))
      && (r.result.Success? ==>
            && existing.Some?
            && (forall t :: t in r.db.transactions <==> t in db.transactions && !TR.Owned(t, id, owner))
            && r.db.accounts == Shifted(db.accounts, existing.value, owner, Backward))
      && (r.result == Failure(RevertFailed) ==>
            r.db.transactions == db.transactions && (2 !in f.increments ==> r.db.accounts == db.accounts))
      && (r.result == Failure(StoreFailed) ==>
            r.db.transactions == db.transactions && (NoneFailFrom(f.increments, 0, 6) ==> r.db.accounts == db.accounts))
      && r.db.categories == db.categories
  {
    var existing := TR.GetByID(db.transactions, id, owner);
    if id !in f.transactionLookups && existing.Some? {
      var reverted := Revert(Start(db), f.increments, owner, existing.value);
      if reverted.ok && f.write && NoneFailFrom(f.increments, 0, 6) {
        CallsBound(Start(db), f.increments, owner, existing.value, Backward);
        ApplyUndoesRevert(Start(db), f.increments, owner, existing.value);
      }
    }
  }

  // ---------------------------------------------------------------------------
  // Bulk category update

  /** BulkUpdateCategory: the category must exist for the owner; then the store's bulk write. */
  function BulkUpdateCategory(db: Db, owner: string, ids: seq<string>, categoryId: string, f: Faults): (r: Outcome<nat>)
    ensures r.db.accounts == db.accounts && r.db.categories == db.categories
    ensures categoryId !in f.categoryLookups && CR.GetByID(db.categories, categoryId, owner).None? ==>
      r == Outcome(db, Failure(CategoryNotFound))
    ensures r.result.Success? ==>
      && CR.GetByID(db.categories, categoryId, owner).Some?
      && r.db.transactions == TR.SetCategory(db.transactions, owner, (set i | i in ids), categoryId)
      && r.result.value == TR.CountWhere(db.transactions, owner, (set i | i in ids), true)
    ensures r.result.Failure? ==> r.db == db
  {
    match FindCategory(db, categoryId, owner, f)
    case Failure(e) => Outcome(db, Failure(e))
    case Success(None) => Outcome(db, Failure(CategoryNotFound))
    case Success(Some(_)) =>
      match TR.RecategoriseMany(db.transactions, owner, ids, categoryId, f.write)
      case Failure(_) => Outcome(db, Failure(StoreFailed))
      case Success((store, count)) => Outcome(db.(transactions := store), Success(count))
  }

  // ---------------------------------------------------------------------------
  // Bulk delete

  /** The transactions loaded for a bulk delete: ids whose lookup fails or finds nothing are skipped. */
  function LoadAll(db: Db, owner: string, ids: seq<string>, f: Faults): (r: seq<Transaction>)
    ensures |r| <= |ids|
    ensures forall t | t in r :: t in db.transactions && t.userId == owner && t.id in ids && t.id !in f.transactionLookups
    ensures Distinct(ids) ==> TR.UniqueIds(r)
  {
    if |ids| == 0 then []
    else
      var rest := LoadAll(db, owner, ids[1..], f);
      assert Distinct(ids) ==> Distinct(ids[1..]) && ids[0] !in ids[1..];
      match FindTransaction(db, ids[0], owner, f)
      case Success(Some(t)) =>
        UniqueIdsCons(t, rest);
        [t] + rest
      case _ => rest
  }

  predicate Distinct(ids: seq<string>) {
    forall i, j | 0 <= i < j < |ids| :: ids[i] != ids[j]
  }

  /** Each id once. */
  function Dedup(ids: seq<string>): (r: seq<string>)
    ensures Distinct(r)
    ensures forall i :: i in r <==> i in ids
  {
    if |ids| == 0 then []
    else
      var rest := Dedup(ids[1..]);
      if ids[0] in rest then rest else [ids[0]] + rest
  }

  /** Prefixing a transaction whose id is new keeps the ids distinct. */
  lemma {:induction false} UniqueIdsCons(t: Transaction, rest: seq<Transaction>)
    ensures TR.UniqueIds(rest) && (forall u | u in rest :: u.id != t.id) ==> TR.UniqueIds([t] + rest)
  {
    var s := [t] + rest;
    if TR.UniqueIds(rest) && forall u | u in rest :: u.id != t.id {
      forall i, j | 0 <= i < j < |s| ensures s[i].id != s[j].id {
        if i == 0 {
          assert s[j] == rest[j - 1];
        } else {
          assert s[i] == rest[i - 1] && s[j] == rest[j - 1];
        }
      }
    }
  }

  /** Revert (or apply) each transaction in turn, carrying the ledger on; failures are ignored. */
  function ReconcileAll(l: Ledger, failing: set<nat>, owner: string, ts: seq<Transaction>, d: Direction): (r: Ledger)
    ensures r.calls >= l.calls
    decreases |ts|
  {
    if |ts| == 0 then l
    else ReconcileAll(Reconcile(l, failing, owner, ts[0], d).ledger, failing, owner, ts[1..], d)
  }

  /**
   * BulkDelete as written: load each listed id, revert each loaded transaction
   * (continuing past failures), delete every listed id, and re-apply every loaded
   * transaction when the delete fails.
   */
  function BulkDelete(db: Db, owner: string, ids: seq<string>, f: Faults): (r: Outcome<nat>)
    ensures r.db.categories == db.categories
    ensures r.result.Failure? ==> r.db.transactions == db.transactions && r.result.error == StoreFailed
    ensures r.result.Success? ==>
      && (forall t :: t in r.db.transactions <==> t in db.transactions && !(t.userId == owner && t.id in ids))
      && r.result.value == TR.CountWhere(db.transactions, owner, (set i | i in ids), false)
  {
    var loaded := LoadAll(db, owner, ids, f);
    var reverted := ReconcileAll(Start(db), f.increments, owner, loaded, Backward);
    match TR.DeleteMany(db.transactions, owner, ids, f.write)
    case Failure(_) =>
      var restored := ReconcileAll(reverted, f.increments, owner, loaded, Forward);
      Outcome(db.(accounts := restored.accounts), Failure(StoreFailed))
    case Success((store, count)) => Outcome(db.(accounts := reverted.accounts, transactions := store), Success(count))
  }

  /** When no two consecutive increments fail, a failed reconciliation moves no balance. */
  lemma {:induction false} CleanStep(l: Ledger, failing: set<nat>, owner: string, t: Transaction, d: Direction)
    ensures NoConsecutive(failing) && !Reconcile(l, failing, owner, t, d).ok ==>
      Reconcile(l, failing, owner, t, d).ledger.accounts == l.accounts
  {
    ReconcileMeaning(l, failing, owner, t, d);
    if t.kind == Transfer && t.toAccountId.Some? {
      MoveOutcome(l, failing, owner, t.accountId, t.toAccountId.value, Signed(d, t.amount));
    }
  }

  /** No two consecutive increments of the request fail. */
  predicate NoConsecutive(failing: set<nat>) {
    forall n: nat | n in failing :: n + 1 !in failing
  }

  /** Revert each transaction in turn and keep those whose revert succeeded. */
  function RevertEach(l: Ledger, failing: set<nat>, owner: string, ts: seq<Transaction>): (r: (Ledger, seq<Transaction>))
    ensures forall t | t in r.1 :: t in ts && (t.kind != Transfer || t.toAccountId.Some?)
    ensures TR.UniqueIds(ts) ==> TR.UniqueIds(r.1)
    ensures NoConsecutive(failing) ==> r.0.accounts == ShiftedAll(l.accounts, r.1, owner, Backward)
    ensures failing == {} ==> r.0.accounts == ShiftedAll(l.accounts, r.1, owner, Backward)
    decreases |ts|
  {
    if |ts| == 0 then (l, [])
    else
      var step := Reconcile(l, failing, owner, ts[0], Backward);
      var rest := RevertEach(step.ledger, failing, owner, ts[1..]);
      ReconcileMeaning(l, failing, owner, ts[0], Backward);
      CleanStep(l, failing, owner, ts[0], Backward);
      assert TR.UniqueIds(ts) ==> TR.UniqueIds(ts[1..]) && forall u | u in rest.1 :: u.id != ts[0].id by {
        if TR.UniqueIds(ts) {
          forall u | u in rest.1 ensures u.id != ts[0].id {
            var k :| 0 <= k < |ts[1..]| && ts[1..][k] == u;
            assert ts[k + 1] == u;
          }
        }
      }
      if step.ok then
        UniqueIdsCons(ts[0], rest.1);
        (rest.0, [ts[0]] + rest.1)
      else rest
  }

  /** Without failures, re-applying transactions that could be reverted shifts each of them forward. */
  lemma {:induction false} ReapplyClean(l: Ledger, owner: string, ts: seq<Transaction>)
    requires forall t | t in ts :: t.kind != Transfer || t.toAccountId.Some?
    ensures ReconcileAll(l, {}, owner, ts, Forward).accounts == ShiftedAll(l.accounts, ts, owner, Forward)
    decreases |ts|
  {
    if |ts| > 0 {
      ReconcileMeaning(l, {}, owner, ts[0], Forward);
      ReapplyClean(Reconcile(l, {}, owner, ts[0], Forward).ledger, owner, ts[1..]);
    }
  }

  function Ids(ts: seq<Transaction>): (r: seq<string>)
    ensures |r| == |ts| && forall i | 0 <= i < |ts| :: r[i] == ts[i].id
  {
    seq(|ts|, i requires 0 <= i < |ts| => ts[i].id)
  }

  /** The ids of a list, as a set, are the ids of its members. */
  lemma {:induction false} IdSet(ts: seq<Transaction>)
    ensures (set i | i in Ids(ts)) == set t | t in ts :: t.id
  {
    forall t | t in ts ensures t.id in Ids(ts) {
      var k :| 0 <= k < |ts| && ts[k] == t;
      assert Ids(ts)[k] == t.id;
    }
  }

  /** The transactions the corrected bulk delete reverts: each listed id once, those whose revert succeeds. */
  function Reverted(db: Db, owner: string, ids: seq<string>, f: Faults): seq<Transaction> {
    RevertEach(Start(db), f.increments, owner, LoadAll(db, owner, Dedup(ids), f)).1
  }

  /**
   * The corrected bulk delete: load each listed id once, revert each loaded
   * transaction, delete exactly those whose revert succeeded, and re-apply only
   * those when the delete fails.
   */
  function BulkDeleteFixed(db: Db, owner: string, ids: seq<string>, f: Faults): (r: Outcome<nat>)
    ensures r.db.categories == db.categories
    ensures r.result.Failure? ==> r.db.transactions == db.transactions && r.result.error == StoreFailed
    ensures r.result.Success? ==>
      forall t :: t in r.db.transactions <==> t in db.transactions && !(t.userId == owner && t.id in Ids(Reverted(db, owner, ids, f)))
  {
    var loaded := LoadAll(db, owner, Dedup(ids), f);
    var reverted := RevertEach(Start(db), f.increments, owner, loaded);
    match TR.DeleteMany(db.transactions, owner, Ids(reverted.1), f.write)
    case Failure(_) =>
      var restored := ReconcileAll(reverted.0, f.increments, owner, reverted.1, Forward);
      Outcome(db.(accounts := restored.accounts), Failure(StoreFailed))
    case Success((store, count)) => Outcome(db.(accounts := reverted.0.accounts, transactions := store), Success(count))
  }

  /**
   * The corrected bulk delete removes exactly the transactions it reverted, each
   * reverted once; their effects leave the balances unless two consecutive
   * increments fail, and a failed delete without failing increments restores
   * every balance.
   */
  lemma {:induction false} BulkDeleteFixedDeletesReverted(db: Db, owner: string, ids: seq<string>, f: Faults)
    requires TR.UniqueIds(db.transactions)
    ensures var rev := Reverted(db, owner, ids, f);
      var r := BulkDeleteFixed(db, owner, ids, f);
      && TR.UniqueIds(rev)
      && (forall t | t in rev :: t in db.transactions && t.userId == owner && t.id in ids)
      && (r.result.Success? ==> forall t | t in db.transactions :: t in r.db.transactions <==> t !in rev)
      && (r.result.Success? ==> forall t | t in r.db.transactions :: t in db.transactions)
      && (r.result.Success? && NoConsecutive(f.increments) ==> r.db.accounts == ShiftedAll(db.accounts, rev, owner, Backward))
      && (r.result.Failure? && f.increments == {} ==> r.db.accounts == db.accounts)
  {
    var r := BulkDeleteFixed(db, owner, ids, f);
    if r.result.Success? {
      FixedDeletesExactly(db, owner, ids, f);
    } else if f.increments == {} {
      var rev := Reverted(db, owner, ids, f);
      var reverted := RevertEach(Start(db), f.increments, owner, LoadAll(db, owner, Dedup(ids), f));
      ReapplyClean(reverted.0, owner, rev);
      ShiftedAllInverse(db.accounts, rev, owner, Backward);
    }
  }

  /** After a successful corrected bulk delete, a stored transaction is gone exactly when it was reverted. */
  lemma {:induction false} FixedDeletesExactly(db: Db, owner: string, ids: seq<string>, f: Faults)
    requires TR.UniqueIds(db.transactions)
    requires BulkDeleteFixed(db, owner, ids, f).result.Success?
    ensures var rev := Reverted(db, owner, ids, f);
      var r := BulkDeleteFixed(db, owner, ids, f);
      forall t | t in db.transactions :: t in r.db.transactions <==> t !in rev
  {
    var rev := Reverted(db, owner, ids, f);
    var r := BulkDeleteFixed(db, owner, ids, f);
    forall t | t in db.transactions && t !in r.db.transactions ensures t in rev {
      assert t.userId == owner && t.id in Ids(rev);
      var k :| 0 <= k < |rev| && rev[k].id == t.id;
      var found := TR.GetByID(db.transactions, t.id, owner);
      assert found.None? ==> !TR.Owned(t, t.id, owner);
      assert t == found.value && rev[k] == found.value;
    }
    IdSet(rev);
  }

  /** With no failing increment, a run of reconciliations shifts every account by the combined effect. */
  lemma {:induction false} ReconcileAllClean(l: Ledger, owner: string, ts: seq<Transaction>, d: Direction)
    ensures ReconcileAll(l, {}, owner, ts, d).accounts == ShiftedAll(l.accounts, ts, owner, d)
    decreases |ts|
  {
    if |ts| > 0 {
      var step := Reconcile(l, {}, owner, ts[0], d);
      ReconcileMeaning(l, {}, owner, ts[0], d);
      if !step.ok {
        var x := Shifted(l.accounts, ts[0], owner, d);
        forall i | 0 <= i < |x| ensures x[i] == l.accounts[i] {
        }
      }
      ReconcileAllClean(step.ledger, owner, ts[1..], d);
    }
  }

  /**
   * The bulk delete as written, when no increment fails: a successful delete
   * leaves every loaded transaction reverted (a repeated id once per listing),
   * and a failed one re-applies them all, restoring every balance.
   */
  lemma {:induction false} BulkDeleteBalances(db: Db, owner: string, ids: seq<string>, f: Faults)
    ensures var r := BulkDelete(db, owner, ids, f);
      && (f.increments == {} && r.result.Success? ==>
            r.db.accounts == ShiftedAll(db.accounts, LoadAll(db, owner, ids, f), owner, Backward))
      && (f.increments == {} && r.result.Failure? ==> r.db.accounts == db.accounts)
  {
    if f.increments == {} {
      var loaded := LoadAll(db, owner, ids, f);
      var reverted := ReconcileAll(Start(db), {}, owner, loaded, Backward);
      ReconcileAllClean(Start(db), owner, loaded, Backward);
      ReconcileAllClean(reverted, owner, loaded, Forward);
      ShiftedAllInverse(db.accounts, loaded, owner, Backward);
    }
  }

  /** A list of distinct ids is its own deduplication. */
  lemma {:induction false} DedupDistinct(ids: seq<string>)
    requires Distinct(ids)
    ensures Dedup(ids) == ids
  {
    if |ids| > 0 {
      assert Distinct(ids[1..]);
      DedupDistinct(ids[1..]);
      assert ids[0] !in ids[1..];
      assert [ids[0]] + ids[1..] == ids;
    }
  }

  /** With no failing lookup, every listed id the owner holds is loaded. */
  lemma {:induction false} LoadAllFinds(db: Db, owner: string, ids: seq<string>, f: Faults)
    requires f.transactionLookups == {}
    ensures forall id | id in ids && TR.GetByID(db.transactions, id, owner).Some? ::
      TR.GetByID(db.transactions, id, owner).value in LoadAll(db, owner, ids, f)
  {
    if |ids| > 0 {
      LoadAllFinds(db, owner, ids[1..], f);
    }
  }

  /** Reverting transactions that all can be reverted, with no failing increment, keeps every one. */
  lemma {:induction false} RevertEachKeepsAll(l: Ledger, owner: string, ts: seq<Transaction>)
    requires forall t | t in ts :: t.kind != Transfer || t.toAccountId.Some?
    ensures RevertEach(l, {}, owner, ts).1 == ts
    decreases |ts|
  {
    if |ts| > 0 {
      ReconcileMeaning(l, {}, owner, ts[0], Backward);
      RevertEachKeepsAll(Reconcile(l, {}, owner, ts[0], Backward).ledger, owner, ts[1..]);
      assert [ts[0]] + ts[1..] == ts;
    }
  }

  /** Two id sets that agree on the owner's transactions remove and count the same ones. */
  lemma {:induction false} WhereAgree(s: seq<Transaction>, owner: string, a: set<string>, b: set<string>)
    requires forall t | t in s && t.userId == owner :: t.id in a <==> t.id in b
    ensures TR.RemoveWhere(s, owner, a) == TR.RemoveWhere(s, owner, b)
    ensures TR.CountWhere(s, owner, a, false) == TR.CountWhere(s, owner, b, false)
  {
    if |s| > 0 {
      assert s[0] in s;
      WhereAgree(s[1..], owner, a, b);
    }
  }

  /**
   * On ordinary input the bulk delete as written and the corrected one agree:
   * distinct ids, distinct stored ids, no failing lookup or increment, and every
   * loaded transfer with a destination.
   */
  lemma {:induction false} BulkDeleteAgreesOnOrdinaryInput(db: Db, owner: string, ids: seq<string>, f: Faults)
    requires Distinct(ids) && TR.UniqueIds(db.transactions)
    requires f.increments == {} && f.transactionLookups == {}
    requires forall t | t in LoadAll(db, owner, ids, f) :: t.kind != Transfer || t.toAccountId.Some?
    ensures BulkDelete(db, owner, ids, f) == BulkDeleteFixed(db, owner, ids, f)
  {
    var loaded := LoadAll(db, owner, ids, f);
    DedupDistinct(ids);
    RevertEachKeepsAll(Start(db), owner, loaded);
    var rev := RevertEach(Start(db), {}, owner, loaded);
    var asWritten := ReconcileAll(Start(db), {}, owner, loaded, Backward);
    ReconcileAllClean(Start(db), owner, loaded, Backward);
    assert rev.0.accounts == asWritten.accounts;
    ReconcileAllClean(rev.0, owner, loaded, Forward);
    ReconcileAllClean(asWritten, owner, loaded, Forward);
    LoadAllFinds(db, owner, ids, f);
    IdSet(loaded);
    var a := set i | i in ids;
    var b := set i | i in Ids(loaded);
    forall t | t in db.transactions && t.userId == owner ensures t.id in a <==> t.id in b {
      if t.id in a {
        var found := TR.GetByID(db.transactions, t.id, owner);
        assert TR.Owned(t, t.id, owner);
        assert found.value in loaded;
      }
    }
    WhereAgree(db.transactions, owner, a, b);
  }

  /** A concrete database for the bulk-delete comparisons: one account holding the 5 of one income. */
  function SampleDb(): Db {
    Db([Account("a", "u", "Cash", "cash", 5, "VND", None, None, None, None, None, None, None, None, None, None, true, false, 0)],
       [Transaction("t", "u", "a", None, Some("c"), Income, 5, None, None, 0, None, [], None, 0)],
       [])
  }

  /** A listed id given twice is reverted twice but deleted once: the account loses the income twice. */
  lemma BulkDeleteRevertsDuplicatesTwice()
    ensures BulkDelete(SampleDb(), "u", ["t", "t"], Faults({}, {}, {}, {}, false))
      == Outcome(SampleDb().(accounts := [SampleDb().accounts[0].(balance := -5)], transactions := []), Success(1))
  {
  }

  /** The corrected bulk delete reverts a repeated id once. */
  lemma BulkDeleteFixedRevertsOnce()
    ensures BulkDeleteFixed(SampleDb(), "u", ["t", "t"], Faults({}, {}, {}, {}, false))
      == Outcome(SampleDb().(accounts := [SampleDb().accounts[0].(balance := 0)], transactions := []), Success(1))
  {
  }

  /** A transaction whose lookup failed is deleted without being reverted: its income stays on the account. */
  lemma BulkDeleteSkipsFailedLookups()
    ensures var faults := Faults({}, {}, {}, {"t"}, false);
      && BulkDelete(SampleDb(), "u", ["t"], faults) == Outcome(SampleDb().(transactions := []), Success(1))
      && BulkDeleteFixed(SampleDb(), "u", ["t"], faults) == Outcome(SampleDb(), Success(0))
  {
  }

  /** A transaction whose revert failed is re-applied when the delete fails: its income is counted twice. */
  lemma BulkDeleteReappliesUnreverted()
    ensures var faults := Faults({0}, {}, {}, {}, true);
      && BulkDelete(SampleDb(), "u", ["t"], faults) == Outcome(SampleDb().(accounts := [SampleDb().accounts[0].(balance := 10)]), Failure(StoreFailed))
      && BulkDeleteFixed(SampleDb(), "u", ["t"], faults) == Outcome(SampleDb(), Failure(StoreFailed))
  {
  }

  // ---------------------------------------------------------------------------
  // Reads

  /** GetTransaction: the owner's transaction, or not-found. */
  function GetTransaction(db: Db, id: string, owner: string, f: Faults): (r: Result<Transaction, TxError>)
    ensures r.Success? ==> r.value in db.transactions && TR.Owned(r.value, id, owner)
    ensures id !in f.transactionLookups ==> (r.Failure? <==> TR.GetByID(db.transactions, id, owner).None?)
  {
    match FindTransaction(db, id, owner, f)
    case Failure(e) => Failure(e)
    case Success(None) => Failure(TransactionNotFound)
    case Success(Some(t)) => Success(t)
  }

  /** GetRecentTransactions' limit: non-positive means 5, and at most 50. */
  function RecentLimit(limit: int): (r: int)
    ensures 1 <= r <= 50
    ensures 1 <= limit <= 50 ==> r == limit
    ensures limit <= 0 ==> r == 5
    ensures limit > 50 ==> r == 50
  {
    if limit <= 0 then 5 else if limit > 50 then 50 else limit
  }

  /**
   * GetRecentTransactions: the owner's latest transactions, never more than 50:
   * the first rows of the owner's listing newest first, as many as the limit
   * allows, and none left out newer than one returned.
   */
  function GetRecentTransactions(db: Db, owner: string, limit: int, fails: bool): (r: Result<seq<Transaction>, TxError>)
    ensures r.Success? ==> |r.value| <= RecentLimit(limit) <= 50
    ensures r.Failure? <==> fails
    ensures r.Failure? ==> r.error == StoreFailed
    ensures r.Success? ==> var owned := TR.OwnedBy(db.transactions, owner);
      && |r.value| == (if |owned| < RecentLimit(limit) then |owned| else RecentLimit(limit))
      && r.value == Sort(owned, NewestFirst)[..|r.value|]
      && (forall t, u | t in r.value && u in multiset(owned) - multiset(r.value) :: Before(t, u, NewestFirst))
  {
    match TR.GetRecent(db.transactions, owner, RecentLimit(limit), fails)
    case Failure(_) => Failure(StoreFailed)
    case Success(items) => Success(items)
  }

  /** The paginated listing: the page, the filter's total and the page count. */
  datatype PageResult = PageResult(data: seq<Transaction>, page: int, limit: int, totalItems: nat, totalPages: nat)

  /**
   * GetAllTransactions: with the paging defaulted, the repository's page as the data,
   * the defaulted page and limit, the repository's total and the number of pages of
   * that limit.
   */
  function GetAllTransactions(db: Db, owner: string, q: TR.TxFilter, re: string -> string -> bool, fails: bool)
    : (r: Result<PageResult, TxError>)
    requires SetDefaults(q.paging).page >= 1 && SetDefaults(q.paging).limit >= 1
    ensures r.Failure? <==> fails
    ensures r.Failure? ==> r.error == StoreFailed
    ensures r.Success? ==>
      && r.value.data == TR.PageOf(db.transactions, owner, q, re)
      && r.value.page == SetDefaults(q.paging).page
      && r.value.limit == SetDefaults(q.paging).limit
      && r.value.totalItems == |TR.Select(db.transactions, owner, q, re)|
      && JustEnoughPages(r.value.totalPages, r.value.limit, r.value.totalItems)
  {
    var p := SetDefaults(q.paging);
    SetDefaultsIdempotent(q.paging);
    TR.SelectIgnoresPaging(db.transactions, owner, q, p, re);
    var listing := TR.GetAll(db.transactions, owner, q.(paging := p), re, fails);
    if listing.Failure? then Failure(StoreFailed)
    else Success(Paged(listing.value.items, p.page, p.limit, listing.value.total))
  }

  /**
   * The first page, with a limit no smaller than the number of matches, holds every
   * match and is the only page.
   */
  lemma {:induction false} SinglePageHoldsAll(db: Db, owner: string, q: TR.TxFilter, re: string -> string -> bool)
    requires SetDefaults(q.paging).page == 1 && SetDefaults(q.paging).limit >= |TR.Select(db.transactions, owner, q, re)|
    ensures var r := GetAllTransactions(db, owner, q, re, false);
      && multiset(r.value.data) == multiset(TR.Select(db.transactions, owner, q, re))
      && r.value.totalPages <= 1
  {
    TR.FirstPageHoldsAll(db.transactions, owner, q, re);
    var r := GetAllTransactions(db, owner, q, re, false);
    assert TR.GetAll(db.transactions, owner, q, re, false).value.items == r.value.data;
    OnePageEnough(r.value.totalPages, r.value.limit, r.value.totalItems);
  }

  lemma OnePageEnough(pages: nat, limit: int, total: nat)
    requires limit >= 1 && total <= limit && JustEnoughPages(pages, limit, total)
    ensures pages <= 1
  {
    if pages > 1 {
      assert (pages - 1) * limit >= limit;
    }
  }

  /** A page with its count of pages: just enough pages of `limit` items to hold the total. */
  function Paged(items: seq<Transaction>, page: int, limit: int, total: nat): (r: PageResult)
    requires limit >= 1
    ensures r.data == items && r.page == page && r.limit == limit && r.totalItems == total
    ensures JustEnoughPages(r.totalPages, limit, total)
  {
    PageResult(items, page, limit, total, TotalPages(total, limit))
  }
}
