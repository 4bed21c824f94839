/**
 * The documents and request shapes of the finance backend: accounts, categories,
 * transactions, budgets, the pagination query shared by the listings, users and
 * their one-time tokens.
 *
 * Money is an integer number of minor units; instants are integer seconds since
 * the Unix epoch in UTC. Optional document fields (Go pointers) are `Option`s.
 */
module Models {
  import opened Wrappers

  // ---------------------------------------------------------------------------
  // Transactions

  /** The closed set of transaction types. Requests carry the type as a string. */
  datatype TxType = Income | Expense | Transfer

  function TypeName(t: TxType): string {
    match t
    case Income => "income"
    case Expense => "expense"
    case Transfer => "transfer"
  }

  /** The service's `validTypes` lookup: exactly the three type names are accepted. */
  function ParseTxType(s: string): (r: Option<TxType>)
    ensures r.Some? <==> (s == "income" || s == "expense" || s == "transfer")
    ensures r.Some? ==> TypeName(r.value) == s
  {
    if s == "income" then Some(Income)
    else if s == "expense" then Some(Expense)
    else if s == "transfer" then Some(Transfer)
    else None
  }

  lemma TypeNameRoundTrip(t: TxType)
    ensures ParseTxType(TypeName(t)) == Some(t)
  {
  }

  datatype Transaction = Transaction(
    id: string,
    userId: string,
    accountId: string,
    toAccountId: Option<string>,
    categoryId: Option<string>,
    kind: TxType,
    amount: int,
    merchant: Option<string>,
    description: Option<string>,
    date: int,
    notes: Option<string>,
    tags: seq<string>,
    attachmentUrl: Option<string>,
    createdAt: int)

  /** CreateTransactionRequest; `tags == None` is a JSON body without a tag list. */
  datatype CreateTxRequest = CreateTxRequest(
    accountId: string,
    toAccountId: Option<string>,
    categoryId: Option<string>,
    kind: string,
    amount: int,
    merchant: Option<string>,
    description: Option<string>,
    date: int,
    notes: Option<string>,
    tags: Option<seq<string>>,
    attachmentUrl: Option<string>)

  /** UpdateTransactionRequest: every field optional, only supplied fields are written. */
  datatype TxPatch = TxPatch(
    accountId: Option<string>,
    toAccountId: Option<string>,
    categoryId: Option<string>,
    kind: Option<string>,
    amount: Option<int>,
    merchant: Option<string>,
    description: Option<string>,
    date: Option<int>,
    notes: Option<string>,
    tags: Option<seq<string>>,
    attachmentUrl: Option<string>)

  /** Request binding of a create: type is one of the three names and amount > 0. */
  predicate BindsCreateTx(req: CreateTxRequest)
  {
    (req.kind == "income" || req.kind == "expense" || req.kind == "transfer") && req.amount > 0
  }

  /** Request binding of an update: type and amount, when supplied, obey the create rules. */
  predicate BindsTxPatch(p: TxPatch)
  {
    && (p.kind.Some? ==> (p.kind.value == "income" || p.kind.value == "expense" || p.kind.value == "transfer"))
    && (p.amount.Some? ==> p.amount.value > 0)
  }

  /** A bound create request always passes the service's type check. */
  lemma BoundCreateHasKnownType(req: CreateTxRequest)
    requires BindsCreateTx(req)
    ensures ParseTxType(req.kind).Some?
    ensures req.amount > 0
  {
  }

  /** A bound patch that changes the type always passes the service's type check. */
  lemma BoundPatchHasKnownType(p: TxPatch)
    requires BindsTxPatch(p)
    ensures p.kind.Some? ==> ParseTxType(p.kind.value).Some?
    ensures p.amount.Some? ==> p.amount.value > 0
  {
  }

  // ---------------------------------------------------------------------------
  // Accounts

  datatype Account = Account(
    id: string,
    userId: string,
    name: string,
    kind: string,
    balance: int,
    currency: string,
    icon: Option<string>,
    color: Option<string>,
    bankBin: Option<string>,
    bankCode: Option<string>,
    bankName: Option<string>,
    accountNumber: Option<string>,
    cardNumber: Option<string>,
    creditLimit: Option<int>,
    statementDate: Option<int>,
    dueDate: Option<int>,
    isActive: bool,
    isExcludedFromTotal: bool,
    displayOrder: int)

  datatype CreateAccountRequest = CreateAccountRequest(
    name: string,
    kind: string,
    balance: int,
    currency: string,
    icon: Option<string>,
    color: Option<string>,
    bankBin: Option<string>,
    bankCode: Option<string>,
    bankName: Option<string>,
    accountNumber: Option<string>,
    cardNumber: Option<string>,
    creditLimit: Option<int>,
    statementDate: Option<int>,
    dueDate: Option<int>,
    isExcludedFromTotal: bool,
    displayOrder: Option<int>)

  /** UpdateAccountRequest: only supplied fields are written, the balance included. */
  datatype AccountPatch = AccountPatch(
    name: Option<string>,
    balance: Option<int>,
    icon: Option<string>,
    color: Option<string>,
    bankBin: Option<string>,
    bankCode: Option<string>,
    bankName: Option<string>,
    accountNumber: Option<string>,
    cardNumber: Option<string>,
    creditLimit: Option<int>,
    statementDate: Option<int>,
    dueDate: Option<int>,
    isActive: Option<bool>,
    isExcludedFromTotal: Option<bool>,
    displayOrder: Option<int>)

  /** A day of the month as the binding accepts it for statement and due dates. */
  predicate DayOfMonth(d: Option<int>) {
    d.Some? ==> 1 <= d.value <= 31
  }

  /** Request binding of an account create: name 1..100 long, type cash/bank/credit,
      a currency present, days 1..31. */
  predicate BindsCreateAccount(req: CreateAccountRequest)
  {
    && 1 <= |req.name| <= 100
    && (req.kind == "cash" || req.kind == "bank" || req.kind == "credit")
    && |req.currency| > 0
    && DayOfMonth(req.statementDate)
    && DayOfMonth(req.dueDate)
  }

  /** Request binding of an account update: a supplied name is 1..100 long, days 1..31. */
  predicate BindsAccountPatch(p: AccountPatch)
  {
    && (p.name.Some? ==> 1 <= |p.name.value| <= 100)
    && DayOfMonth(p.statementDate)
    && DayOfMonth(p.dueDate)
  }

  // ---------------------------------------------------------------------------
  // Categories (with the parent reference the category service uses)

  datatype Category = Category(
    id: string,
    userId: string,
    name: string,
    kind: string,
    parentId: Option<string>,
    icon: Option<string>,
    color: Option<string>,
    isDefault: bool)

  datatype CreateCategoryRequest = CreateCategoryRequest(
    name: string,
    kind: string,
    parentId: Option<string>,
    icon: Option<string>,
    color: Option<string>)

  datatype CategoryPatch = CategoryPatch(
    name: Option<string>,
    kind: Option<string>,
    parentId: Option<string>,
    icon: Option<string>,
    color: Option<string>)

  // ---------------------------------------------------------------------------
  // Budgets (with the month/scope/limit fields the budget service uses)

  datatype Budget = Budget(
    id: string,
    userId: string,
    month: string,
    scope: string,
    categoryId: Option<string>,
    limit: int,
    spent: int,
    alertEnabled: bool,
    alertThreshold: Option<int>)

  datatype CreateBudgetRequest = CreateBudgetRequest(
    month: string,
    scope: string,
    categoryId: Option<string>,
    limit: int,
    alertEnabled: bool,
    alertThreshold: Option<int>)

  // ---------------------------------------------------------------------------
  // Pagination

  datatype PaginationQuery = PaginationQuery(page: int, limit: int)

  /** Binding of the pagination query: page >= 1 and 1 <= limit <= 100. */
  predicate BindsPagination(p: PaginationQuery)
  {
    p.page >= 1 && 1 <= p.limit <= 100
  }

  /** Page 0 becomes 1 and limit 0 becomes 10; any other value is kept. */
  function SetDefaults(p: PaginationQuery): (r: PaginationQuery)
    ensures p.page != 0 ==> r.page == p.page
    ensures p.limit != 0 ==> r.limit == p.limit
    ensures p.page == 0 ==> r.page == 1
    ensures p.limit == 0 ==> r.limit == 10
    ensures r.page != 0 && r.limit != 0
    ensures p.page >= 0 && p.limit >= 0 ==> r.page >= 1 && r.limit >= 1
  {
    PaginationQuery(if p.page == 0 then 1 else p.page, if p.limit == 0 then 10 else p.limit)
  }

  lemma SetDefaultsIdempotent(p: PaginationQuery)
    ensures SetDefaults(SetDefaults(p)) == SetDefaults(p)
    ensures BindsPagination(p) ==> SetDefaults(p) == p
  {
  }

  /** Rows skipped before the page: (page - 1) * limit. */
  function GetOffset(p: PaginationQuery): (r: int)
    ensures p.page >= 1 && p.limit >= 0 ==> r >= 0
    ensures p.page == 1 ==> r == 0
  {
    (p.page - 1) * p.limit
  }

  /** Consecutive pages tile the result: page n+1 starts where page n ends. */
  lemma OffsetsTile(p: PaginationQuery)
    requires p.page >= 1 && p.limit >= 0
    ensures GetOffset(p.(page := p.page + 1)) == GetOffset(p) + p.limit
    ensures GetOffset(p) == p.limit * (p.page - 1)
  {
  }

  /** `pages` pages of `limit` items hold `total` items, and one page fewer would not. */
  predicate JustEnoughPages(pages: nat, limit: int, total: nat) {
    total <= pages * limit && (pages == 0 || (pages - 1) * limit < total)
  }

  /** The page count the transaction listing reports: ceil(total / limit). */
  function TotalPages(totalItems: nat, limit: int): (r: nat)
    requires limit >= 1
    ensures totalItems == 0 ==> r == 0
    ensures JustEnoughPages(r, limit, totalItems)
  {
    (totalItems + limit - 1) / limit
  }

  // ---------------------------------------------------------------------------
  // Users and one-time tokens

  /** A user. The password hash is absent for accounts created through Google sign-in. */
  datatype User = User(
    id: string,
    email: string,
    passwordHash: Option<string>,
    fullName: string,
    avatarUrl: Option<string>,
    googleId: Option<string>,
    authProvider: string,
    emailVerified: bool,
    isActive: bool,
    lastLoginAt: Option<int>,
    createdAt: int,
    updatedAt: int)

  /** The part of a user sent to clients. */
  datatype UserProfile = UserProfile(
    id: string,
    email: string,
    fullName: string,
    avatarUrl: Option<string>,
    authProvider: string,
    emailVerified: bool,
    lastLoginAt: Option<int>,
    createdAt: int)

  /** The two kinds of one-time token. */
  const EmailVerification: string := "email_verification"
  const PasswordReset: string := "password_reset"

  /** A one-time token for email verification or password reset. */
  datatype VerificationToken = VerificationToken(
    id: string,
    userId: string,
    token: string,
    kind: string,
    expiresAt: int,
    used: bool,
    createdAt: int)
}
