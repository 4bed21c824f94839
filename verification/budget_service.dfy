/**
 * Budgets: one limit per (owner, month, scope, category), created or updated in
 * place, and the amount spent against it, recomputed from the month's expenses.
 */
module BudgetService {
  import opened Wrappers
  import opened Models
  import opened Calendar
  import opened Amounts
  import opened TransactionOrder
  import TR = TransactionRepository
  import CR = CategoryRepository

  datatype BudgetError =
    | CategoryRequired
    | CategoryForbidden
    | CategoryNotFound
    | BudgetNotFound
    | InvalidMonth
    | StoreFailed

  // ---------------------------------------------------------------------------
  // The month of a budget

  /**
   * parseMonthRange: a "2006-01" month gives its first instant and its last
   * second, one second before the first of the next month.
   */
  function ParseMonthRange(month: string): (r: Option<(int, int)>)
    ensures r.Some? <==> ParseYearMonth(month).Some?
    ensures r.Some? ==> r.value == MonthRange(ParseYearMonth(month).value.0, ParseYearMonth(month).value.1)
  {
    var ym := ParseYearMonth(month);
    if ym.None? then None else Some(MonthRange(ym.value.0, ym.value.1))
  }

  /** The budget's scope selects its expenses: every one for "total", one category's for "category". */
  datatype Scope = All | OfCategory(id: string) | Nothing

  function ScopeOf(b: Budget): Scope {
    if b.scope == "total" then All
    else if b.scope == "category" && b.categoryId.Some? then OfCategory(b.categoryId.value)
    else Nothing
  }

  /** The search pattern is empty in a budget's listing, so no pattern is ever matched. */
  const NoPattern: string -> string -> bool := (pattern: string) => (text: string) => false

  /**
   * The listing query for a budget of month (y, m): expenses from the month's first
   * day to its last day, formatted as "2006-01-02", of the scope's category if any,
   * with zero paging.
   */
  function SpendFilter(y: int, m: int, categoryId: string): (f: TR.TxFilter)
    requires 0 <= y <= 9999 && ValidMonth(m)
  {
    TR.TxFilter(PaginationQuery(0, 0), "", categoryId, "expense", "",
                FormatDate(y, m, 1), FormatDate(y, m, DaysIn(y, m)), None, None, "", "", "", "")
  }

  /** The expenses a budget of month (y, m) counts, stated without the listing. */
  predicate Counts(t: Transaction, owner: string, y: int, m: int, categoryId: string)
    requires ValidMonth(m)
  {
    && t.userId == owner
    && t.kind == Expense
    && (categoryId != "" ==> t.categoryId == Some(categoryId))
    && MonthStart(y, m) <= t.date < MonthStart(y, m + 1)
  }

  /** The listing query selects exactly the owner's expenses of the month (and category). */
  lemma {:induction false} SpendFilterMeaning(t: Transaction, owner: string, y: int, m: int, categoryId: string)
    requires 0 <= y <= 9999 && ValidMonth(m)
    ensures TR.MatchesAsWritten(t, owner, SpendFilter(y, m, categoryId), NoPattern) <==> Counts(t, owner, y, m, categoryId)
  {
    FormatParseRoundTrip(y, m, 1);
    FormatParseRoundTrip(y, m, DaysIn(y, m));
    NextMonthStart(y, m);
    assert TR.MonthBounds("").None?;
    assert TypeName(t.kind) == "expense" <==> t.kind == Expense;
  }

  /** The spent amount as written: the sum over the single page the listing returns (at most 10). */
  function SpentAsWritten(s: seq<Transaction>, owner: string, y: int, m: int, categoryId: string): int
    requires 0 <= y <= 9999 && ValidMonth(m)
  {
    Sum(TR.PageOf(s, owner, SpendFilter(y, m, categoryId), NoPattern))
  }

  /** The spent amount as intended: the sum over every matching expense. */
  function Spent(s: seq<Transaction>, owner: string, y: int, m: int, categoryId: string): int
    requires 0 <= y <= 9999 && ValidMonth(m)
  {
    Sum(TR.Select(s, owner, SpendFilter(y, m, categoryId), NoPattern))
  }

  /** The expenses of the month, summed directly over the store. */
  function CountedSum(s: seq<Transaction>, owner: string, y: int, m: int, categoryId: string): int
    requires ValidMonth(m)
  {
    if |s| == 0 then 0
    else (if Counts(s[0], owner, y, m, categoryId) then s[0].amount else 0) + CountedSum(s[1..], owner, y, m, categoryId)
  }

  /** The intended spent amount is the sum of the counted expenses. */
  lemma {:induction false} SpentIsCountedSum(s: seq<Transaction>, owner: string, y: int, m: int, categoryId: string)
    requires 0 <= y <= 9999 && ValidMonth(m)
    ensures Spent(s, owner, y, m, categoryId) == CountedSum(s, owner, y, m, categoryId)
  {
    if |s| > 0 {
      SpentIsCountedSum(s[1..], owner, y, m, categoryId);
      SpendFilterMeaning(s[0], owner, y, m, categoryId);
    }
  }

  /**
   * With positive amounts, the written spent amount equals the intended one
   * exactly when the month has at most 10 matching expenses; beyond that it falls short.
   */
  lemma {:induction false} SpentFirstPageOnly(s: seq<Transaction>, owner: string, y: int, m: int, categoryId: string)
    requires 0 <= y <= 9999 && ValidMonth(m)
    requires forall t | t in s :: t.amount > 0
    ensures var n := |TR.Select(s, owner, SpendFilter(y, m, categoryId), NoPattern)|;
      && (n <= 10 ==> SpentAsWritten(s, owner, y, m, categoryId) == Spent(s, owner, y, m, categoryId))
      && (n > 10 ==> SpentAsWritten(s, owner, y, m, categoryId) < Spent(s, owner, y, m, categoryId))
  {
    var f := SpendFilter(y, m, categoryId);
    var all := TR.Select(s, owner, f, NoPattern);
    var ordered := TR.Ordered(s, owner, f, NoPattern);
    assert TR.Paging(f.paging) == (0, 10);
    SumMultiset(ordered, all);
    var page := TR.PageOf(s, owner, f, NoPattern);
    if |all| <= 10 {
      assert page == ordered;
    } else {
      assert page == ordered[..10];
      assert forall t | t in ordered :: t in multiset(all);
      PrefixShort(ordered, 10);
    }
  }

  /** An expense of one, on the first of March 2024. */
  function MarchExpense(): Transaction {
    Transaction("e", "u", "a", None, None, Expense, 1, None, None, MonthStart(2024, 3), None, [], None, 0)
  }

  /** Eleven copies of that expense. */
  function ElevenMarch(): seq<Transaction> {
    seq(11, i => MarchExpense())
  }

  /** Eleven expenses of one in March 2024: the written spent amount is 10, the intended one 11. */
  lemma ElevenExpensesCountTen()
    ensures Spent(ElevenMarch(), "u", 2024, 3, "") == 11
    ensures SpentAsWritten(ElevenMarch(), "u", 2024, 3, "") == 10
  {
    var s := ElevenMarch();
    assert forall t | t in s :: t == MarchExpense();
    ElevenSelected(s);
    UnitSum(s);
    ElevenFirstPage(s);
  }

  /** The single page the listing returns holds ten of the eleven. */
  lemma {:induction false} ElevenFirstPage(s: seq<Transaction>)
    requires s == ElevenMarch()
    ensures SpentAsWritten(s, "u", 2024, 3, "") == 10
  {
    ElevenSelected(s);
    var f := SpendFilter(2024, 3, "");
    var ordered := TR.Ordered(s, "u", f, NoPattern);
    assert forall t | t in ordered :: t in multiset(s);
    assert TR.Paging(f.paging) == (0, 10);
    var page := TR.PageOf(s, "u", f, NoPattern);
    assert forall t | t in page :: t in ordered;
    UnitSum(page);
  }

  /** The March listing selects every one of the eleven expenses. */
  lemma {:induction false} ElevenSelected(s: seq<Transaction>)
    requires s == ElevenMarch()
    ensures TR.Select(s, "u", SpendFilter(2024, 3, ""), NoPattern) == s
  {
    var f := SpendFilter(2024, 3, "");
    NextMonthStart(2024, 3);
    SpendFilterMeaning(MarchExpense(), "u", 2024, 3, "");
    assert TR.MatchesAsWritten(MarchExpense(), "u", f, NoPattern);
    assert forall i | 0 <= i < |s| :: s[i] == MarchExpense();
    SelectAll(s, "u", f);
  }

  lemma {:induction false} SelectAll(s: seq<Transaction>, owner: string, f: TR.TxFilter)
    requires forall i | 0 <= i < |s| :: TR.MatchesAsWritten(s[i], owner, f, NoPattern)
    ensures TR.Select(s, owner, f, NoPattern) == s
  {
    if |s| > 0 {
      SelectAll(s[1..], owner, f);
    }
  }

  lemma {:induction false} UnitSum(s: seq<Transaction>)
    requires forall t | t in s :: t.amount == 1
    ensures Sum(s) == |s|
  {
    if |s| > 0 {
      assert s[0] in s;
      assert forall t | t in s[1..] :: t in s;
      UnitSum(s[1..]);
    }
  }

  // ---------------------------------------------------------------------------
  // The budget store

  predicate Owned(b: Budget, id: string, owner: string) {
    b.id == id && b.userId == owner
  }

  function GetByID(bs: seq<Budget>, id: string, owner: string): (r: Option<Budget>)
    ensures r.Some? ==> r.value in bs && Owned(r.value, id, owner)
    ensures r.None? <==> forall b | b in bs :: !Owned(b, id, owner)
  {
    if |bs| == 0 then None
    else if Owned(bs[0], id, owner) then Some(bs[0])
    else GetByID(bs[1..], id, owner)
  }

  /**
   * GetByMonthAndScope's filter: owner, month and scope, plus the category for a
   * category budget that names one, or no category at all for a total budget.
   */
  predicate SameSlot(b: Budget, owner: string, month: string, scope: string, categoryId: Option<string>) {
    && b.userId == owner && b.month == month && b.scope == scope
    && (scope == "category" && categoryId.Some? ==> b.categoryId == categoryId)
    && (scope == "total" ==> b.categoryId.None?)
  }

  /** The first budget in the slot, or none. */
  function FindSlot(bs: seq<Budget>, owner: string, month: string, scope: string, categoryId: Option<string>)
    : (r: Option<Budget>)
    ensures r.Some? ==> r.value in bs && SameSlot(r.value, owner, month, scope, categoryId)
    ensures r.None? <==> forall b | b in bs :: !SameSlot(b, owner, month, scope, categoryId)
  {
    if |bs| == 0 then None
    else if SameSlot(bs[0], owner, month, scope, categoryId) then Some(bs[0])
    else FindSlot(bs[1..], owner, month, scope, categoryId)
  }

  predicate UniqueIds(bs: seq<Budget>) {
    forall i, j | 0 <= i < j < |bs| :: bs[i].id != bs[j].id
  }

  /** Update: the request's settings on the (id, owner) budget. */
  function Reconfigured(bs: seq<Budget>, id: string, owner: string, req: CreateBudgetRequest): (r: seq<Budget>)
    ensures |r| == |bs|
    ensures forall i | 0 <= i < |bs| :: r[i] == (if Owned(bs[i], id, owner) then Reconfigure(bs[i], req) else bs[i])
  {
    if |bs| == 0 then []
    else [if Owned(bs[0], id, owner) then Reconfigure(bs[0], req) else bs[0]] + Reconfigured(bs[1..], id, owner, req)
  }

  /** After the update the id finds the reconfigured budget, or still finds none. */
  lemma {:induction false} ReconfiguredFinds(bs: seq<Budget>, id: string, owner: string, req: CreateBudgetRequest)
    ensures GetByID(Reconfigured(bs, id, owner, req), id, owner)
      == if GetByID(bs, id, owner).Some? then Some(Reconfigure(GetByID(bs, id, owner).value, req)) else None
  {
    if |bs| > 0 {
      ReconfiguredFinds(bs[1..], id, owner, req);
      assert Reconfigured(bs, id, owner, req)[1..] == Reconfigured(bs[1..], id, owner, req);
    }
  }

  /** UpdateSpent: the (id, owner) budget's spent amount set to `amount`. */
  function WithSpent(bs: seq<Budget>, id: string, owner: string, amount: int): (r: seq<Budget>)
    ensures |r| == |bs|
    ensures forall i | 0 <= i < |bs| :: r[i] == (if Owned(bs[i], id, owner) then bs[i].(spent := amount) else bs[i])
  {
    if |bs| == 0 then []
    else [if Owned(bs[0], id, owner) then bs[0].(spent := amount) else bs[0]] + WithSpent(bs[1..], id, owner, amount)
  }

  /** After the update the id finds the budget with its new spent amount, or still finds none. */
  lemma {:induction false} WithSpentFinds(bs: seq<Budget>, id: string, owner: string, amount: int)
    ensures GetByID(WithSpent(bs, id, owner, amount), id, owner)
      == if GetByID(bs, id, owner).Some? then Some(GetByID(bs, id, owner).value.(spent := amount)) else None
  {
    if |bs| > 0 {
      WithSpentFinds(bs[1..], id, owner, amount);
      assert WithSpent(bs, id, owner, amount)[1..] == WithSpent(bs[1..], id, owner, amount);
    }
  }

  /** The update the upsert sends: the limit and the alert flag always, the threshold when given. */
  function Reconfigure(b: Budget, req: CreateBudgetRequest): (r: Budget)
    ensures r.id == b.id && r.userId == b.userId && r.month == b.month && r.scope == b.scope
    ensures r.categoryId == b.categoryId && r.spent == b.spent
    ensures r.limit == req.limit && r.alertEnabled == req.alertEnabled
    ensures r.alertThreshold == (if req.alertThreshold.Some? then req.alertThreshold else b.alertThreshold)
  {
    b.(limit := req.limit, alertEnabled := req.alertEnabled,
       alertThreshold := if req.alertThreshold.Some? then req.alertThreshold else b.alertThreshold)
  }

  /** A new budget from the request: nothing spent yet. */
  function NewBudget(owner: string, req: CreateBudgetRequest, newId: string): (r: Budget)
    ensures r.id == newId && r.userId == owner && r.spent == 0
    ensures r.month == req.month && r.scope == req.scope && r.categoryId == req.categoryId
    ensures r.limit == req.limit && r.alertEnabled == req.alertEnabled && r.alertThreshold == req.alertThreshold
  {
    Budget(newId, owner, req.month, req.scope, req.categoryId, req.limit, 0, req.alertEnabled, req.alertThreshold)
  }

  // ---------------------------------------------------------------------------
  // The service

  datatype Db = Db(budgets: seq<Budget>, transactions: seq<Transaction>, categories: seq<Category>)

  /**
   * The store round trips of a budget call, any of which may fail: the category
   * lookup of the scope check, the slot lookup, the write; inside UpdateBudgetSpent
   * the budget's lookup, the expense listing and the spent write; and the final read.
   * A call is given the set of trips that fail.
   */
  datatype Trip = CategoryLookup | SlotLookup | Write | BudgetLookup | Listing | SpentWrite | Reread

  /**
   * UpdateBudgetSpent: look the budget up, parse its month, sum the single listing
   * page of its month and scope, and store that sum as its spent amount.
   */
  function UpdateBudgetSpent(db: Db, id: string, owner: string, fails: set<Trip>): (r: Result<seq<Budget>, BudgetError>)
    ensures BudgetLookup in fails ==> r == Failure(StoreFailed)
    ensures BudgetLookup !in fails && GetByID(db.budgets, id, owner).None? ==> r == Failure(BudgetNotFound)
    ensures BudgetLookup !in fails && GetByID(db.budgets, id, owner).Some? ==> var b := GetByID(db.budgets, id, owner).value;
      && (ParseYearMonth(b.month).None? ==> r == Failure(InvalidMonth))
      && (ParseYearMonth(b.month).Some? ==>
            if (ScopeOf(b) != Nothing && Listing in fails) || SpentWrite in fails then r == Failure(StoreFailed)
            else r == Success(WithSpent(db.budgets, id, owner, SpentOfAsWritten(db.transactions, b))))
  {
    if BudgetLookup in fails then Failure(StoreFailed)
    else match GetByID(db.budgets, id, owner)
    case None => Failure(BudgetNotFound)
    case Some(b) =>
      if ParseMonthRange(b.month).None? then Failure(InvalidMonth)
      else if ScopeOf(b) != Nothing && Listing in fails then Failure(StoreFailed)
      else if SpentWrite in fails then Failure(StoreFailed)
      else Success(WithSpent(db.budgets, id, owner, SpentOfAsWritten(db.transactions, b)))
  }

  /** The month and category of the listing a budget's spent amount is summed over, if it has one. */
  function SpendQuery(b: Budget): (r: Option<(int, int, string)>)
    ensures r.Some? <==> ParseYearMonth(b.month).Some? && ScopeOf(b) != Nothing
    ensures r.Some? ==> 0 <= r.value.0 <= 9999 && ValidMonth(r.value.1)
  {
    match ParseYearMonth(b.month)
    case None => None
    case Some((y, m)) =>
      match ScopeOf(b)
      case All => Some((y, m, ""))
      case OfCategory(c) => Some((y, m, c))
      case Nothing => None
  }

  /** What UpdateBudgetSpent stores: the sum over the single page of the listing; nothing without a listing. */
  function SpentOfAsWritten(s: seq<Transaction>, b: Budget): (r: int)
    ensures SpendQuery(b).None? ==> r == 0
  {
    match SpendQuery(b)
    case None => 0
    case Some((y, m, c)) => SpentAsWritten(s, b.userId, y, m, c)
  }

  /** What a budget has spent as intended: the counted expenses of its month and scope; nothing for another scope. */
  function SpentOf(s: seq<Transaction>, b: Budget): (r: int)
    ensures SpendQuery(b).Some? ==>
      var (y, m, c) := SpendQuery(b).value;
      r == CountedSum(s, b.userId, y, m, c)
    ensures SpendQuery(b).None? ==> r == 0
  {
    match SpendQuery(b)
    case None => 0
    case Some((y, m, c)) => SpentIsCountedSum(s, b.userId, y, m, c); Spent(s, b.userId, y, m, c)
  }

  /**
   * With positive amounts, the stored spent amount is the intended one exactly when
   * the budget's listing has at most 10 matches, and less than it beyond that.
   */
  lemma {:induction false} SpentOfAsWrittenMeaning(s: seq<Transaction>, b: Budget)
    requires forall t | t in s :: t.amount > 0
    ensures SpendQuery(b).None? ==> SpentOfAsWritten(s, b) == SpentOf(s, b) == 0
    ensures SpendQuery(b).Some? ==>
      var (y, m, c) := SpendQuery(b).value;
      var n := |TR.Select(s, b.userId, SpendFilter(y, m, c), NoPattern)|;
      && (n <= 10 ==> SpentOfAsWritten(s, b) == SpentOf(s, b))
      && (n > 10 ==> SpentOfAsWritten(s, b) < SpentOf(s, b))
  {
    if SpendQuery(b).Some? {
      var (y, m, c) := SpendQuery(b).value;
      SpentFirstPageOnly(s, b.userId, y, m, c);
      assert SpentOfAsWritten(s, b) == SpentAsWritten(s, b.userId, y, m, c);
      assert SpentOf(s, b) == Spent(s, b.userId, y, m, c);
    }
  }

  /** The scope rules: a category budget names a category, a total budget names none, and a named category is the caller's. */
  function CheckScope(db: Db, owner: string, req: CreateBudgetRequest, fails: set<Trip>): (r: Result<(), BudgetError>)
    ensures r.Success? <==>
      && !(req.scope == "category" && req.categoryId.None?)
      && !(req.scope == "total" && req.categoryId.Some?)
      && (req.categoryId.Some? && req.categoryId.value != "" ==>
            CategoryLookup !in fails && CR.GetByID(db.categories, req.categoryId.value, owner).Some?)
    ensures req.scope == "category" && req.categoryId.None? ==> r == Failure(CategoryRequired)
    ensures req.scope == "total" && req.categoryId.Some? ==> r == Failure(CategoryForbidden)
    ensures r.Failure? && r.error == StoreFailed <==>
      && !(req.scope == "category" && req.categoryId.None?)
      && !(req.scope == "total" && req.categoryId.Some?)
      && req.categoryId.Some? && req.categoryId.value != "" && CategoryLookup in fails
  {
    if req.scope == "category" && req.categoryId.None? then Failure(CategoryRequired)
    else if req.scope == "total" && req.categoryId.Some? then Failure(CategoryForbidden)
    else if req.categoryId.Some? && req.categoryId.value != "" && CategoryLookup in fails then Failure(StoreFailed)
    else if req.categoryId.Some? && req.categoryId.value != "" && CR.GetByID(db.categories, req.categoryId.value, owner).None? then
      Failure(CategoryNotFound)
    else Success(())
  }

  /** The write of the upsert: reconfigure the budget in the slot, or append a new one; and its id. */
  function Upsert(bs: seq<Budget>, owner: string, req: CreateBudgetRequest, newId: string): (r: (seq<Budget>, string))
    ensures var slot := FindSlot(bs, owner, req.month, req.scope, req.categoryId);
      && (slot.Some? ==> r == (Reconfigured(bs, slot.value.id, owner, req), slot.value.id))
      && (slot.None? ==> r == (bs + [NewBudget(owner, req, newId)], newId))
  {
    match FindSlot(bs, owner, req.month, req.scope, req.categoryId)
    case Some(existing) => (Reconfigured(bs, existing.id, owner, req), existing.id)
    case None => (bs + [NewBudget(owner, req, newId)], newId)
  }

  /** The budgets after the call, and what the call returns; a failed spent update keeps the write. */
  datatype Upserted = Upserted(budgets: seq<Budget>, result: Result<Budget, BudgetError>)

  /**
   * CreateOrUpdateBudget: after the scope checks, look up the slot, update the
   * budget already in it or create one, then recompute its spent amount and read it
   * back. A failure after the write keeps the write.
   */
  function CreateOrUpdateBudget(db: Db, owner: string, req: CreateBudgetRequest, newId: string, fails: set<Trip>)
    : (r: Upserted)
    ensures CheckScope(db, owner, req, fails).Failure? ==> r == Upserted(db.budgets, Failure(CheckScope(db, owner, req, fails).error))
    ensures CheckScope(db, owner, req, fails).Success? && (SlotLookup in fails || Write in fails) ==> r == Upserted(db.budgets, Failure(StoreFailed))
    ensures r.result.Success? ==> FindSlot(db.budgets, owner, req.month, req.scope, req.categoryId).Some? || !IdUsed(db.budgets, newId)
  {
    if CheckScope(db, owner, req, fails).Failure? then Upserted(db.budgets, Failure(CheckScope(db, owner, req, fails).error))
    else if SlotLookup in fails || Write in fails then Upserted(db.budgets, Failure(StoreFailed))
    else if FindSlot(db.budgets, owner, req.month, req.scope, req.categoryId).None? && IdUsed(db.budgets, newId) then
      Upserted(db.budgets, Failure(StoreFailed))
    else
      var (written, id) := Upsert(db.budgets, owner, req, newId);
      match UpdateBudgetSpent(db.(budgets := written), id, owner, fails)
      case Failure(e) => Upserted(written, Failure(e))
      case Success(bs) =>
        if Reread in fails then Upserted(bs, Failure(StoreFailed))
        else match GetByID(bs, id, owner)
        case None => Upserted(bs, Failure(BudgetNotFound))
        case Some(b) => Upserted(bs, Success(b))
  }

  predicate IdUsed(bs: seq<Budget>, id: string) {
    exists b | b in bs :: b.id == id
  }

  /** The new budget is found under its id when the id was free. */
  lemma {:induction false} AppendedFound(bs: seq<Budget>, b: Budget)
    requires !IdUsed(bs, b.id)
    ensures GetByID(bs + [b], b.id, b.userId) == Some(b)
  {
    if |bs| > 0 {
      assert (bs + [b])[1..] == bs[1..] + [b];
      assert forall x | x in bs[1..] :: x in bs;
      AppendedFound(bs[1..], b);
    }
  }

  /** With distinct ids, the budget in the slot is the one its id finds. */
  lemma {:induction false} SlotFound(bs: seq<Budget>, owner: string, req: CreateBudgetRequest)
    requires UniqueIds(bs)
    requires FindSlot(bs, owner, req.month, req.scope, req.categoryId).Some?
    ensures var existing := FindSlot(bs, owner, req.month, req.scope, req.categoryId).value;
      GetByID(bs, existing.id, owner) == Some(existing)
  {
    var existing := FindSlot(bs, owner, req.month, req.scope, req.categoryId).value;
    var k :| 0 <= k < |bs| && bs[k] == existing;
    assert Owned(existing, existing.id, owner) && existing in bs;
    var found := GetByID(bs, existing.id, owner).value;
    assert Owned(found, existing.id, owner);
    var j :| 0 <= j < |bs| && bs[j] == found;
    assert bs[j].id == bs[k].id;
    assert j == k;
  }

  /** After the write, the budget's id finds the reconfigured or the new budget. */
  lemma {:induction false} UpsertFinds(bs: seq<Budget>, owner: string, req: CreateBudgetRequest, newId: string)
    requires UniqueIds(bs)
    requires FindSlot(bs, owner, req.month, req.scope, req.categoryId).None? ==> !IdUsed(bs, newId)
    ensures var slot := FindSlot(bs, owner, req.month, req.scope, req.categoryId);
      var (written, id) := Upsert(bs, owner, req, newId);
      GetByID(written, id, owner) == Some(if slot.Some? then Reconfigure(slot.value, req) else NewBudget(owner, req, newId))
  {
    if FindSlot(bs, owner, req.month, req.scope, req.categoryId).Some? {
      SlotFound(bs, owner, req);
      ReconfiguredFinds(bs, FindSlot(bs, owner, req.month, req.scope, req.categoryId).value.id, owner, req);
    } else {
      AppendedFound(bs, NewBudget(owner, req, newId));
    }
  }

  /** A budget is only ever stored in a slot its scope rules allow, with a month that parses. */
  lemma {:induction false} UpsertRespectsScope(db: Db, owner: string, req: CreateBudgetRequest, newId: string, fails: set<Trip>)
    requires UniqueIds(db.budgets)
    requires CreateOrUpdateBudget(db, owner, req, newId, fails).result.Success?
    ensures req.scope == "category" ==> req.categoryId.Some?
    ensures req.scope == "total" ==> req.categoryId.None?
    ensures req.categoryId.Some? && req.categoryId.value != "" ==> CR.GetByID(db.categories, req.categoryId.value, owner).Some?
    ensures Write !in fails && SpentWrite !in fails && ParseYearMonth(req.month).Some?
  {
    UpsertFinds(db.budgets, owner, req, newId);
  }

  /** The budget the upsert leaves in the slot, before its spent amount is recomputed. */
  function SlotBudget(bs: seq<Budget>, owner: string, req: CreateBudgetRequest, newId: string): Budget {
    var slot := FindSlot(bs, owner, req.month, req.scope, req.categoryId);
    if slot.Some? then Reconfigure(slot.value, req) else NewBudget(owner, req, newId)
  }

  /** A successful call stores the slot's budget with its spent amount recomputed over the listing's page, and returns it. */
  lemma {:induction false} UpsertStores(db: Db, owner: string, req: CreateBudgetRequest, newId: string)
    requires UniqueIds(db.budgets)
    requires CreateOrUpdateBudget(db, owner, req, newId, {}).result.Success?
    ensures var found := SlotBudget(db.budgets, owner, req, newId);
      var amount := SpentOfAsWritten(db.transactions, found);
      var up := Upsert(db.budgets, owner, req, newId);
      CreateOrUpdateBudget(db, owner, req, newId, {})
        == Upserted(WithSpent(up.0, up.1, owner, amount), Success(found.(spent := amount)))
  {
    UpsertFinds(db.budgets, owner, req, newId);
    var up := Upsert(db.budgets, owner, req, newId);
    var written, id := up.0, up.1;
    var found := SlotBudget(db.budgets, owner, req, newId);
    assert GetByID(written, id, owner) == Some(found);
    var amount := SpentOfAsWritten(db.transactions, found);
    var stored := WithSpent(written, id, owner, amount);
    WithSpentFinds(written, id, owner, amount);
    assert UpdateBudgetSpent(db.(budgets := written), id, owner, {}) == Success(stored);
    assert GetByID(stored, id, owner) == Some(found.(spent := amount));
  }

  /**
   * With distinct budget ids the upsert never duplicates a slot: with a budget already in
   * the slot the store keeps its size and that budget takes the request's settings;
   * otherwise exactly one budget is added, with the request's fields. Either way
   * the returned budget's spent amount is recomputed over the listing's page.
   */
  lemma {:induction false} UpsertNoDuplicate(db: Db, owner: string, req: CreateBudgetRequest, newId: string)
    requires UniqueIds(db.budgets)
    requires CreateOrUpdateBudget(db, owner, req, newId, {}).result.Success?
    ensures var bs := CreateOrUpdateBudget(db, owner, req, newId, {}).budgets;
      var b := CreateOrUpdateBudget(db, owner, req, newId, {}).result.value;
      var slot := FindSlot(db.budgets, owner, req.month, req.scope, req.categoryId);
      && (slot.Some? ==> |bs| == |db.budgets| && b == Reconfigure(slot.value, req).(spent := b.spent))
      && (slot.None? ==> |bs| == |db.budgets| + 1 && b == NewBudget(owner, req, newId).(spent := b.spent))
      && b.spent == SpentOfAsWritten(db.transactions, b)
  {
    UpsertStores(db, owner, req, newId);
    var found := SlotBudget(db.budgets, owner, req, newId);
    var amount := SpentOfAsWritten(db.transactions, found);
    var up := Upsert(db.budgets, owner, req, newId);
    var b := found.(spent := amount);
    assert CreateOrUpdateBudget(db, owner, req, newId, {}) == Upserted(WithSpent(up.0, up.1, owner, amount), Success(b));
    assert |WithSpent(up.0, up.1, owner, amount)| == |up.0|;
    UpsertShape(db.budgets, owner, req, newId);
    SpentIgnoresSpent(db.transactions, found, amount);
  }

  /** The upsert's write keeps the store's size when the slot is taken and adds one budget otherwise. */
  lemma {:induction false} UpsertShape(bs: seq<Budget>, owner: string, req: CreateBudgetRequest, newId: string)
    ensures var slot := FindSlot(bs, owner, req.month, req.scope, req.categoryId);
      var found := SlotBudget(bs, owner, req, newId);
      && (slot.Some? ==> |Upsert(bs, owner, req, newId).0| == |bs| && found == Reconfigure(slot.value, req))
      && (slot.None? ==> |Upsert(bs, owner, req, newId).0| == |bs| + 1 && found == NewBudget(owner, req, newId))
  {
  }

  /** The spent amount a budget is given depends on its month and scope, not on what it had spent. */
  lemma {:induction false} SpentIgnoresSpent(s: seq<Transaction>, b: Budget, amount: int)
    ensures SpentOfAsWritten(s, b.(spent := amount)) == SpentOfAsWritten(s, b)
  {
    assert ScopeOf(b.(spent := amount)) == ScopeOf(b);
    assert SpendQuery(b.(spent := amount)) == SpendQuery(b);
  }

  /**
   * The month is not checked before the write: a request whose month does not parse
   * is still stored (updated or created) and the call then fails with InvalidMonth.
   */
  lemma {:induction false} BadMonthStillWritten(db: Db, owner: string, req: CreateBudgetRequest, newId: string)
    requires UniqueIds(db.budgets)
    requires CheckScope(db, owner, req, {}).Success? && ParseYearMonth(req.month).None?
    requires FindSlot(db.budgets, owner, req.month, req.scope, req.categoryId).Some? || !IdUsed(db.budgets, newId)
    ensures CreateOrUpdateBudget(db, owner, req, newId, {})
      == Upserted(Upsert(db.budgets, owner, req, newId).0, Failure(InvalidMonth))
  {
    UpsertFinds(db.budgets, owner, req, newId);
  }

  /**
   * A failure after the write keeps it: when the budget's lookup or the spent write
   * of the recomputation fails, the slot's budget is stored and the call fails.
   */
  lemma {:induction false} FailureAfterWriteKeepsIt(db: Db, owner: string, req: CreateBudgetRequest, newId: string, fails: set<Trip>)
    requires UniqueIds(db.budgets)
    requires CheckScope(db, owner, req, fails).Success? && SlotLookup !in fails && Write !in fails
    requires FindSlot(db.budgets, owner, req.month, req.scope, req.categoryId).Some? || !IdUsed(db.budgets, newId)
    requires BudgetLookup in fails || (ParseYearMonth(req.month).Some? && SpentWrite in fails)
    ensures CreateOrUpdateBudget(db, owner, req, newId, fails)
      == Upserted(Upsert(db.budgets, owner, req, newId).0, Failure(StoreFailed))
  {
    UpsertFinds(db.budgets, owner, req, newId);
  }
}
