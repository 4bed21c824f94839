/**
 * The transaction collection: documents in insertion order, scoped by owner, with
 * the listing filters, the order and paging of listings, the single-document and
 * bulk writes, and the per-type and per-account aggregates.
 */
module TransactionRepository {
  import opened Wrappers
  import opened Models
  import opened Strings
  import Calendar
  import opened TransactionOrder

  datatype StoreError = StoreFailure | NoDocuments

  predicate Owned(t: Transaction, id: string, owner: string) {
    t.id == id && t.userId == owner
  }

  predicate UniqueIds(s: seq<Transaction>) {
    forall i, j | 0 <= i < j < |s| :: s[i].id != s[j].id
  }

  predicate IdUsed(s: seq<Transaction>, id: string) {
    exists t | t in s :: t.id == id
  }

  // ---------------------------------------------------------------------------
  // Lookup

  /** The transaction with this id and owner, or none when the id is missing or foreign. */
  function GetByID(s: seq<Transaction>, id: string, owner: string): (r: Option<Transaction>)
    ensures r.Some? ==> r.value in s && Owned(r.value, id, owner)
    ensures r.None? <==> (forall t | t in s :: !Owned(t, id, owner))
    ensures r.Some? && UniqueIds(s) ==> forall t | t in s && t.id == id :: t == r.value
  {
    if |s| == 0 then None
    else if Owned(s[0], id, owner) then Some(s[0])
    else GetByID(s[1..], id, owner)
  }

  // ---------------------------------------------------------------------------
  // Create

  /** The stored document for a create request; the request's type has been validated. */
  function NewTransaction(owner: string, req: CreateTxRequest, newId: string, now: int): (r: Transaction)
    requires ParseTxType(req.kind).Some?
    ensures r.id == newId && r.userId == owner && r.createdAt == now
    ensures TypeName(r.kind) == req.kind
    ensures r.accountId == req.accountId && r.toAccountId == req.toAccountId && r.categoryId == req.categoryId
    ensures r.amount == req.amount && r.date == req.date
    ensures r.merchant == req.merchant && r.description == req.description && r.notes == req.notes
    ensures r.attachmentUrl == req.attachmentUrl
    ensures req.tags.Some? ==> r.tags == req.tags.value
    ensures req.tags.None? ==> r.tags == []
  {
    Transaction(newId, owner, req.accountId, req.toAccountId, req.categoryId, ParseTxType(req.kind).value,
                req.amount, req.merchant, req.description, req.date, req.notes, req.tags.GetOr([]),
                req.attachmentUrl, now)
  }

  datatype Created = Created(store: seq<Transaction>, tx: Transaction)

  /** Create: insert the new document; a store failure or an id in use (duplicate key) fails. */
  function Create(s: seq<Transaction>, owner: string, req: CreateTxRequest, newId: string, now: int, fails: bool)
    : (r: Result<Created, StoreError>)
    requires ParseTxType(req.kind).Some?
    ensures r.Failure? <==> fails || IdUsed(s, newId)
    ensures r.Success? ==> r.value.store == s + [r.value.tx] && r.value.tx == NewTransaction(owner, req, newId, now)
    ensures r.Success? ==> UniqueIds(s) ==> UniqueIds(r.value.store)
  {
    if fails || IdUsed(s, newId) then Failure(StoreFailure)
    else
      var t := NewTransaction(owner, req, newId, now);
      Success(Created(s + [t], t))
  }

  /** A created transaction is found again by its id and owner. */
  lemma {:induction false} CreateThenGet(s: seq<Transaction>, owner: string, req: CreateTxRequest, newId: string, now: int, fails: bool)
    requires ParseTxType(req.kind).Some?
    requires Create(s, owner, req, newId, now, fails).Success?
    ensures GetByID(Create(s, owner, req, newId, now, fails).value.store, newId, owner)
      == Some(NewTransaction(owner, req, newId, now))
  {
    var c := Create(s, owner, req, newId, now, fails).value;
    var g := GetByID(c.store, newId, owner);
    assert c.tx in c.store;
  }

  // ---------------------------------------------------------------------------
  // Update (patch)

  /** A patch whose type, when supplied, has been validated. */
  predicate PatchTypeKnown(p: TxPatch) {
    p.kind.Some? ==> ParseTxType(p.kind.value).Some?
  }

  /** Supplied fields replace the document's; identity, owner and creation time are never written. */
  function PatchTx(t: Transaction, p: TxPatch): (r: Transaction)
    requires PatchTypeKnown(p)
    ensures r.id == t.id && r.userId == t.userId && r.createdAt == t.createdAt
    ensures r.accountId == p.accountId.GetOr(t.accountId)
    ensures p.toAccountId.Some? ==> r.toAccountId == p.toAccountId
    ensures p.toAccountId.None? ==> r.toAccountId == t.toAccountId
    ensures p.categoryId.Some? ==> r.categoryId == p.categoryId
    ensures p.categoryId.None? ==> r.categoryId == t.categoryId
    ensures p.kind.Some? ==> TypeName(r.kind) == p.kind.value
    ensures p.kind.None? ==> r.kind == t.kind
    ensures r.amount == p.amount.GetOr(t.amount) && r.date == p.date.GetOr(t.date)
    ensures r.tags == p.tags.GetOr(t.tags)
    ensures r.merchant == (if p.merchant.Some? then p.merchant else t.merchant)
    ensures r.description == (if p.description.Some? then p.description else t.description)
    ensures r.notes == (if p.notes.Some? then p.notes else t.notes)
    ensures r.attachmentUrl == (if p.attachmentUrl.Some? then p.attachmentUrl else t.attachmentUrl)
  {
    Transaction(t.id, t.userId, p.accountId.GetOr(t.accountId),
                if p.toAccountId.Some? then p.toAccountId else t.toAccountId,
                if p.categoryId.Some? then p.categoryId else t.categoryId,
                if p.kind.Some? then ParseTxType(p.kind.value).value else t.kind,
                p.amount.GetOr(t.amount),
                if p.merchant.Some? then p.merchant else t.merchant,
                if p.description.Some? then p.description else t.description,
                p.date.GetOr(t.date),
                if p.notes.Some? then p.notes else t.notes,
                p.tags.GetOr(t.tags),
                if p.attachmentUrl.Some? then p.attachmentUrl else t.attachmentUrl,
                t.createdAt)
  }

  const EmptyTxPatch := TxPatch(None, None, None, None, None, None, None, None, None, None, None)

  /** A patch that supplies nothing leaves the transaction as it is. */
  lemma EmptyPatchKeepsTransaction(t: Transaction)
    ensures PatchTx(t, EmptyTxPatch) == t
  {
  }

  /** Writing the same patch twice is writing it once. */
  lemma {:induction false} PatchIdempotent(t: Transaction, p: TxPatch)
    requires PatchTypeKnown(p)
    ensures PatchTx(PatchTx(t, p), p) == PatchTx(t, p)
  {
    if p.kind.Some? {
      TypeNameRoundTrip(PatchTx(t, p).kind);
    }
  }

  function PatchOwned(s: seq<Transaction>, id: string, owner: string, p: TxPatch): (r: seq<Transaction>)
    requires PatchTypeKnown(p)
    ensures |r| == |s|
    ensures forall i | 0 <= i < |s| :: r[i] == (if Owned(s[i], id, owner) then PatchTx(s[i], p) else s[i])
  {
    seq(|s|, i requires 0 <= i < |s| => if Owned(s[i], id, owner) then PatchTx(s[i], p) else s[i])
  }

  datatype Updated = Updated(store: seq<Transaction>, tx: Option<Transaction>)

  /** Update: patch the (id, owner) document and return it; no match returns nothing and writes nothing. */
  function Update(s: seq<Transaction>, id: string, owner: string, p: TxPatch, fails: bool)
    : (r: Result<Updated, StoreError>)
    requires PatchTypeKnown(p)
    ensures r.Failure? <==> fails
    ensures r.Success? && GetByID(s, id, owner).None? ==> r.value == Updated(s, None)
    ensures r.Success? && GetByID(s, id, owner).Some? ==>
      && r.value.tx == Some(PatchTx(GetByID(s, id, owner).value, p))
      && |r.value.store| == |s|
      && (forall i | 0 <= i < |s| :: !Owned(s[i], id, owner) ==> r.value.store[i] == s[i])
      && (forall i | 0 <= i < |s| :: r.value.store[i].id == s[i].id)
  {
    if fails then Failure(StoreFailure)
    else match GetByID(s, id, owner)
      case None => Success(Updated(s, None))
      case Some(t) => Success(Updated(PatchOwned(s, id, owner, p), Some(PatchTx(t, p))))
  }

  /** With distinct ids, the updated document is the one a later lookup finds. */
  lemma {:induction false} UpdateThenGet(s: seq<Transaction>, id: string, owner: string, p: TxPatch)
    requires PatchTypeKnown(p) && UniqueIds(s)
    requires Update(s, id, owner, p, false).value.tx.Some?
    ensures GetByID(Update(s, id, owner, p, false).value.store, id, owner) == Update(s, id, owner, p, false).value.tx
  {
    var old_ := GetByID(s, id, owner).value;
    var u := Update(s, id, owner, p, false).value;
    var k :| 0 <= k < |s| && s[k] == old_;
    assert u.store[k] == PatchTx(old_, p);
    assert UniqueIds(u.store);
    var g := GetByID(u.store, id, owner);
    assert g.Some? by { assert Owned(u.store[k], id, owner); }
  }

  // ---------------------------------------------------------------------------
  // Delete

  /** With distinct ids, the first document's id appears nowhere after it. */
  lemma {:induction false} HeadIdOnce(s: seq<Transaction>)
    requires UniqueIds(s) && |s| > 0
    ensures UniqueIds(s[1..])
    ensures forall t | t in s[1..] :: t.id != s[0].id
  {
    forall t | t in s[1..] ensures t.id != s[0].id {
      var k :| 0 <= k < |s[1..]| && s[1..][k] == t;
      assert s[k + 1] == t;
    }
  }

  /** A document whose id the rest lacks can lead distinct documents. */
  lemma {:induction false} ConsUnique(x: Transaction, rest: seq<Transaction>)
    requires UniqueIds(rest) && forall t | t in rest :: t.id != x.id
    ensures UniqueIds([x] + rest)
  {
    var r := [x] + rest;
    forall i, j | 0 <= i < j < |r| ensures r[i].id != r[j].id {
      assert r[j] == rest[j - 1];
      if i > 0 {
        assert r[i] == rest[i - 1];
      } else {
        assert rest[j - 1] in rest;
      }
    }
  }

  /** Keeping the first document in front of a subsequence of the rest keeps ids distinct. */
  lemma {:induction false} KeepHeadUnique(s: seq<Transaction>, rest: seq<Transaction>)
    requires |s| > 0 && forall t | t in rest :: t in s[1..]
    requires UniqueIds(s[1..]) ==> UniqueIds(rest)
    ensures UniqueIds(s) ==> UniqueIds([s[0]] + rest)
  {
    if UniqueIds(s) {
      HeadIdOnce(s);
      ConsUnique(s[0], rest);
    }
  }

  function RemoveWhere(s: seq<Transaction>, owner: string, ids: set<string>): (r: seq<Transaction>)
    ensures forall t :: t in r <==> t in s && !(t.userId == owner && t.id in ids)
    ensures |r| <= |s|
    ensures UniqueIds(s) ==> UniqueIds(r)
  {
    if |s| == 0 then []
    else if s[0].userId == owner && s[0].id in ids then RemoveWhere(s[1..], owner, ids)
    else
      var rest := RemoveWhere(s[1..], owner, ids);
      KeepHeadUnique(s, rest);
      [s[0]] + rest
  }

  datatype Deleted = Deleted(store: seq<Transaction>, tx: Transaction)

  /** Delete: remove the (id, owner) document and return it; nothing matched is NoDocuments. */
  function Delete(s: seq<Transaction>, id: string, owner: string, fails: bool): (r: Result<Deleted, StoreError>)
    ensures fails ==> r == Failure(StoreFailure)
    ensures !fails && GetByID(s, id, owner).None? ==> r == Failure(NoDocuments)
    ensures r.Success? ==> Some(r.value.tx) == GetByID(s, id, owner)
    ensures r.Success? ==> forall t :: t in r.value.store <==> t in s && !Owned(t, id, owner)
  {
    if fails then Failure(StoreFailure)
    else match GetByID(s, id, owner)
      case None => Failure(NoDocuments)
      case Some(t) => Success(Deleted(RemoveWhere(s, owner, {id}), t))
  }

  // ---------------------------------------------------------------------------
  // Bulk writes

  /** A bulk category write touches the owner's listed transactions that are not transfers. */
  predicate Recategorised(t: Transaction, owner: string, ids: set<string>) {
    t.userId == owner && t.id in ids && t.kind != Transfer
  }

  function CountWhere(s: seq<Transaction>, owner: string, ids: set<string>, skipTransfers: bool): (r: nat)
    ensures r <= |s|
  {
    if |s| == 0 then 0
    else (if s[0].userId == owner && s[0].id in ids && !(skipTransfers && s[0].kind == Transfer) then 1 else 0)
         + CountWhere(s[1..], owner, ids, skipTransfers)
  }

  function SetCategory(s: seq<Transaction>, owner: string, ids: set<string>, categoryId: string): (r: seq<Transaction>)
    ensures |r| == |s|
    ensures forall i | 0 <= i < |s| ::
      r[i] == (if Recategorised(s[i], owner, ids) then s[i].(categoryId := Some(categoryId)) else s[i])
  {
    seq(|s|, i requires 0 <= i < |s| =>
      if Recategorised(s[i], owner, ids) then s[i].(categoryId := Some(categoryId)) else s[i])
  }

  /**
   * BulkUpdateCategory, the repository's bulk write: set the category of the
   * owner's listed non-transfer transactions and report how many there were
   * (every matched document is modified, since its update time always changes).
   */
  function RecategoriseMany(s: seq<Transaction>, owner: string, ids: seq<string>, categoryId: string, fails: bool)
    : (r: Result<(seq<Transaction>, nat), StoreError>)
    ensures r.Failure? <==> fails
    ensures r.Success? ==> r.value.0 == SetCategory(s, owner, (set i | i in ids), categoryId)
    ensures r.Success? ==> r.value.1 == CountWhere(s, owner, (set i | i in ids), true)
  {
    if fails then Failure(StoreFailure)
    else
      var ids' := set i | i in ids;
      Success((SetCategory(s, owner, ids', categoryId), CountWhere(s, owner, ids', true)))
  }

  /** Transfers and other owners' documents never change under a bulk category write; a second identical write changes nothing. */
  lemma {:induction false} SetCategoryScope(s: seq<Transaction>, owner: string, ids: set<string>, categoryId: string)
    ensures forall i | 0 <= i < |s| && (s[i].kind == Transfer || s[i].userId != owner || s[i].id !in ids) ::
      SetCategory(s, owner, ids, categoryId)[i] == s[i]
    ensures SetCategory(SetCategory(s, owner, ids, categoryId), owner, ids, categoryId) == SetCategory(s, owner, ids, categoryId)
  {
    var once := SetCategory(s, owner, ids, categoryId);
    var twice := SetCategory(once, owner, ids, categoryId);
    forall i | 0 <= i < |s| ensures twice[i] == once[i] {
    }
  }

  /**
   * BulkDelete, the repository's bulk removal: remove the owner's listed
   * transactions and report how many were removed.
   */
  function DeleteMany(s: seq<Transaction>, owner: string, ids: seq<string>, fails: bool)
    : (r: Result<(seq<Transaction>, nat), StoreError>)
    ensures r.Failure? <==> fails
    ensures r.Success? ==> forall t :: t in r.value.0 <==> t in s && !(t.userId == owner && t.id in ids)
    ensures r.Success? ==> r.value.1 == CountWhere(s, owner, (set i | i in ids), false)
    ensures r.Success? ==> r.value.1 + |r.value.0| == |s|
  {
    if fails then Failure(StoreFailure)
    else
      var ids' := set i | i in ids;
      RemovedCount(s, owner, ids');
      Success((RemoveWhere(s, owner, ids'), CountWhere(s, owner, ids', false)))
  }

  lemma {:induction false} RemovedCount(s: seq<Transaction>, owner: string, ids: set<string>)
    ensures CountWhere(s, owner, ids, false) + |RemoveWhere(s, owner, ids)| == |s|
  {
    if |s| > 0 {
      RemovedCount(s[1..], owner, ids);
    }
  }

  // ---------------------------------------------------------------------------
  // Listing filters

  /** TransactionFilterQuery; the amount bounds are the parsed numbers, absent when empty or unparsable. */
  datatype TxFilter = TxFilter(
    paging: PaginationQuery,
    accountId: string,
    categoryId: string,
    kind: string,
    search: string,
    startDate: string,
    endDate: string,
    minAmount: Option<int>,
    maxAmount: Option<int>,
    month: string,
    tags: string,
    sortBy: string,
    sortOrder: string)

  /** An inclusive lower and an exclusive upper bound on the transaction date. */
  datatype Bounds = Bounds(from: Option<int>, until: Option<int>)

  predicate InBounds(x: int, b: Bounds) {
    (b.from.Some? ==> x >= b.from.value) && (b.until.Some? ==> x < b.until.value)
  }

  /** Midnight starting a "2006-01-02" date, absent when the text does not parse. */
  function DayStart(s: string): (r: Option<int>)
    ensures r.Some? <==> Calendar.ParseDate(s).Some?
    ensures r.Some? ==> r.value % Calendar.SecondsPerDay == 0
  {
    match Calendar.ParseDate(s)
    case Some(day) =>
      Calendar.WholeDays(day);
      Some(day * Calendar.SecondsPerDay)
    case None => None
  }

  /** Non-empty month text with exactly one '-'. */
  predicate TwoParts(month: string) {
    month != "" && |Split(month, '-')| == 2
  }

  /** The year and month a two-part month text names; a part that is not an integer reads as 0. */
  function MonthNumbers(month: string): (int, int)
    requires TwoParts(month)
  {
    var parts := Split(month, '-');
    (Atoi(parts[0]).GetOr(0), Atoi(parts[1]).GetOr(0))
  }

  /**
   * The month filter: text splitting on '-' into exactly two parts gives the month
   * from the first of (year, month) to the first of the next; out-of-range months
   * carry into the year.
   */
  function MonthBounds(month: string): (r: Option<(int, int)>)
    ensures r.Some? <==> TwoParts(month)
  {
    if !TwoParts(month) then None
    else
      var (y, m) := MonthNumbers(month);
      // Adding a month to the normalised first of (y, m) is the first of (y, m + 1), normalised.
      Some((Calendar.MonthStart(y, m), Calendar.MonthStart(y, m + 1)))
  }

  /** Any month text the filter accepts selects a non-empty range. */
  lemma {:induction false} MonthBoundsOrdered(month: string)
    requires TwoParts(month)
    ensures MonthBounds(month).value.0 < MonthBounds(month).value.1
  {
    var (y, m) := MonthNumbers(month);
    Calendar.MonthStartsIncrease(y, m);
  }

  /** The date bounds of a listing: a usable month replaces both the start and the end date. */
  function DateBounds(startDate: string, endDate: string, month: string): (r: Bounds)
    ensures MonthBounds(month).Some? ==> r == Bounds(Some(MonthBounds(month).value.0), Some(MonthBounds(month).value.1))
    ensures MonthBounds(month).None? ==> r.from == DayStart(startDate)
    ensures MonthBounds(month).None? ==> (r.until.Some? <==> DayStart(endDate).Some?)
    ensures MonthBounds(month).None? && r.until.Some? ==> r.until.value == DayStart(endDate).value + Calendar.SecondsPerDay
  {
    match MonthBounds(month)
    case Some(m) => Bounds(Some(m.0), Some(m.1))
    case None =>
      var from := if startDate != "" then DayStart(startDate) else None;
      var until := if endDate != "" && DayStart(endDate).Some? then Some(DayStart(endDate).value + Calendar.SecondsPerDay) else None;
      Bounds(from, until)
  }

  /** The end date is inclusive: every instant of that day is in bounds and the next midnight is not. */
  lemma EndDateInclusive(endDate: string, x: int)
    requires Calendar.ParseDate(endDate).Some?
    ensures var b := DateBounds("", endDate, "");
      InBounds(x, b) <==> Calendar.DayOf(x) <= Calendar.ParseDate(endDate).value
  {
  }

  /** A "2006-01" month selects exactly the instants of that calendar month. */
  lemma {:induction false} MonthFilterOnLayout(month: string)
    requires Calendar.ParseYearMonth(month).Some?
    ensures var ym := Calendar.ParseYearMonth(month).value;
      MonthBounds(month) == Some((Calendar.Midnight(ym.0, ym.1, 1),
                                  Calendar.Midnight(ym.0, ym.1, 1) + Calendar.DaysIn(ym.0, ym.1) * Calendar.SecondsPerDay))
  {
    var ym := Calendar.ParseYearMonth(month).value;
    var (y, m) := ym;
    SplitYearMonth(month);
    var parts := Split(month, '-');
    assert Atoi(parts[0]) == Some(y);
    assert Atoi(parts[1]) == Some(m);
    MonthBoundsOfParts(month, y, m);
    Calendar.MonthLength(y, m);
  }

  /** Month text whose two parts read as a valid year and month gives that month's first instant and the next month's. */
  lemma MonthBoundsOfParts(month: string, y: int, m: int)
    requires TwoParts(month)
    requires Atoi(Split(month, '-')[0]) == Some(y) && Atoi(Split(month, '-')[1]) == Some(m)
    ensures MonthBounds(month) == Some((Calendar.MonthStart(y, m), Calendar.MonthStart(y, m + 1)))
  {
    assert MonthNumbers(month) == (y, m);
  }

  /** "YYYY-MM" splits on '-' into its year and month digits. */
  lemma {:induction false} SplitYearMonth(month: string)
    requires Calendar.YearMonthShape(month)
    ensures Split(month, '-') == [month[..4], month[5..7]]
  {
    var parts := [month[..4], month[5..7]];
    assert Join(parts, '-') == month by {
      assert Join(parts, '-') == month[..4] + ['-'] + month[5..7];
    }
    assert forall i | 0 <= i < |parts| :: '-' !in parts[i] by {
      assert forall c | c in month[..4] :: IsDigit(c);
      assert forall c | c in month[5..7] :: IsDigit(c);
    }
    SplitJoinRoundTrip(parts, '-');
  }

  /** The account filter: the account is the source or the destination. */
  predicate TouchesAccount(t: Transaction, accountId: string) {
    t.accountId == accountId || t.toAccountId == Some(accountId)
  }

  /**
   * The search filter: the pattern matches the merchant, the description or the
   * notes. The match is a regular-expression search the model does not
   * interpret: it is the parameter `re(pattern)(text)`, true when the
   * case-insensitive pattern matches somewhere in the text.
   */
  predicate SearchHit(t: Transaction, pattern: string, re: string -> string -> bool) {
    || (t.merchant.Some? && re(pattern)(t.merchant.value))
    || (t.description.Some? && re(pattern)(t.description.value))
    || (t.notes.Some? && re(pattern)(t.notes.value))
  }

  /** The tag filter: some tag of the transaction is one of the comma-separated tags. */
  predicate HasListedTag(t: Transaction, tags: string) {
    exists k | 0 <= k < |t.tags| :: t.tags[k] in Split(tags, ',')
  }

  /** Every filter of the listing except the account and search filters. */
  predicate MatchesOtherFilters(t: Transaction, owner: string, f: TxFilter) {
    && t.userId == owner
    && (f.categoryId != "" ==> t.categoryId == Some(f.categoryId))
    && (f.kind != "" ==> TypeName(t.kind) == f.kind)
    && InBounds(t.date, DateBounds(f.startDate, f.endDate, f.month))
    && (f.minAmount.Some? ==> t.amount >= f.minAmount.value)
    && (f.maxAmount.Some? ==> t.amount <= f.maxAmount.value)
    && (f.tags != "" ==> HasListedTag(t, f.tags))
  }

  /**
   * The filter as the repository builds it: the search disjunction is stored under
   * the same key as the account disjunction, so a search replaces the account filter.
   */
  predicate MatchesAsWritten(t: Transaction, owner: string, f: TxFilter, re: string -> string -> bool) {
    && MatchesOtherFilters(t, owner, f)
    && (if f.search != "" then SearchHit(t, f.search, re)
        else f.accountId != "" ==> TouchesAccount(t, f.accountId))
  }

  /** The filter as intended: the account filter and the search both apply. */
  predicate Matches(t: Transaction, owner: string, f: TxFilter, re: string -> string -> bool) {
    && MatchesOtherFilters(t, owner, f)
    && (f.accountId != "" ==> TouchesAccount(t, f.accountId))
    && (f.search != "" ==> SearchHit(t, f.search, re))
  }

  /** Without a search term, or without an account, the written and the intended filter agree. */
  lemma FiltersAgreeWithoutOverlap(t: Transaction, owner: string, f: TxFilter, re: string -> string -> bool)
    requires f.search == "" || f.accountId == ""
    ensures MatchesAsWritten(t, owner, f, re) <==> Matches(t, owner, f, re)
  {
  }

  /** The intended filter keeps only transactions on the filtered account. */
  lemma MatchesRespectsAccount(t: Transaction, owner: string, f: TxFilter, re: string -> string -> bool)
    requires f.accountId != "" && Matches(t, owner, f, re)
    ensures t.accountId == f.accountId || t.toAccountId == Some(f.accountId)
  {
  }

  /** A matcher that takes the pattern literally: the text must equal it. */
  const Literal: string -> string -> bool := (pattern: string) => (text: string) => pattern == text

  /** The written filter lists another account's transaction once a search term is given. */
  lemma SearchDropsAccountFilter()
    ensures var t := Transaction("t1", "u", "other", None, None, Expense, 100, Some("coffee"), None, 0, None, [], None, 0);
      var f := TxFilter(PaginationQuery(1, 10), "mine", "", "", "coffee", "", "", None, None, "", "", "", "");
      MatchesAsWritten(t, "u", f, Literal) && !Matches(t, "u", f, Literal)
  {
    var f := TxFilter(PaginationQuery(1, 10), "mine", "", "", "coffee", "", "", None, None, "", "", "", "");
    assert MonthBounds(f.month).None?;
    assert DayStart("").None?;
  }

  /** The documents the repository's filter selects, in store order. */
  function Select(s: seq<Transaction>, owner: string, f: TxFilter, re: string -> string -> bool): (r: seq<Transaction>)
    ensures forall t :: t in r <==> t in s && MatchesAsWritten(t, owner, f, re)
    ensures multiset(r) <= multiset(s)
  {
    if |s| == 0 then []
    else
      var rest := Select(s[1..], owner, f, re);
      assert s == [s[0]] + s[1..];
      if MatchesAsWritten(s[0], owner, f, re) then [s[0]] + rest else rest
  }

  /** The documents the intended filter selects, in store order. */
  function SelectIntended(s: seq<Transaction>, owner: string, f: TxFilter, re: string -> string -> bool): (r: seq<Transaction>)
    ensures forall t :: t in r <==> t in s && Matches(t, owner, f, re)
    ensures multiset(r) <= multiset(s)
  {
    if |s| == 0 then []
    else
      var rest := SelectIntended(s[1..], owner, f, re);
      assert s == [s[0]] + s[1..];
      if Matches(s[0], owner, f, re) then [s[0]] + rest else rest
  }

  /**
   * The intended selection is the written one narrowed to the account: every
   * intended match is a written match, and without a search term or without an
   * account the two selections are the same list.
   */
  lemma {:induction false} SelectionsAgree(s: seq<Transaction>, owner: string, f: TxFilter, re: string -> string -> bool)
    ensures SelectIntended(s, owner, f, re) == Narrowed(Select(s, owner, f, re), f.accountId)
    ensures f.search == "" || f.accountId == "" ==> SelectIntended(s, owner, f, re) == Select(s, owner, f, re)
  {
    if |s| > 0 {
      SelectionsAgree(s[1..], owner, f, re);
      var t, written := s[0], Select(s[1..], owner, f, re);
      MatchesIsNarrowedWritten(t, owner, f, re);
      if MatchesAsWritten(t, owner, f, re) {
        assert Select(s, owner, f, re) == [t] + written;
        assert ([t] + written)[1..] == written;
      }
      if f.search == "" || f.accountId == "" {
        FiltersAgreeWithoutOverlap(t, owner, f, re);
      }
    }
  }

  /** A transaction matches as intended exactly when it matches as written and is on the account. */
  lemma MatchesIsNarrowedWritten(t: Transaction, owner: string, f: TxFilter, re: string -> string -> bool)
    ensures Matches(t, owner, f, re) <==>
      MatchesAsWritten(t, owner, f, re) && (f.accountId == "" || TouchesAccount(t, f.accountId))
  {
  }

  /** The transactions of a list on the account, in order; all of them for no account. */
  function Narrowed(s: seq<Transaction>, accountId: string): (r: seq<Transaction>)
    ensures forall t :: t in r <==> t in s && (accountId != "" ==> TouchesAccount(t, accountId))
  {
    if |s| == 0 then []
    else
      var rest := Narrowed(s[1..], accountId);
      assert s == [s[0]] + s[1..];
      if accountId == "" || TouchesAccount(s[0], accountId) then [s[0]] + rest else rest
  }

  /** Paging takes no part in which documents match. */
  lemma {:induction false} SelectIgnoresPaging(s: seq<Transaction>, owner: string, f: TxFilter, p: PaginationQuery, re: string -> string -> bool)
    ensures Select(s, owner, f.(paging := p), re) == Select(s, owner, f, re)
  {
    if |s| > 0 {
      SelectIgnoresPaging(s[1..], owner, f, p, re);
      assert MatchesAsWritten(s[0], owner, f.(paging := p), re) == MatchesAsWritten(s[0], owner, f, re);
    }
  }

  // ---------------------------------------------------------------------------
  // Listing

  /** A page of a listing and the number of documents the filter matches in all. */
  datatype Listing = Listing(items: seq<Transaction>, total: nat)

  /** The page actually served: page 0 and limit 0 take their defaults. */
  function Paging(p: PaginationQuery): (r: (nat, nat))
    requires SetDefaults(p).page >= 1 && SetDefaults(p).limit >= 1
    ensures r.0 == GetOffset(SetDefaults(p)) && r.1 == SetDefaults(p).limit
  {
    var q := SetDefaults(p);
    (GetOffset(q), q.limit)
  }

  /** Every match, in listing order. */
  function Ordered(s: seq<Transaction>, owner: string, f: TxFilter, re: string -> string -> bool): seq<Transaction> {
    Sort(Select(s, owner, f, re), ParseSort(f.sortBy, f.sortOrder))
  }

  /** The served page of the ordered matches. */
  function PageOf(s: seq<Transaction>, owner: string, f: TxFilter, re: string -> string -> bool): seq<Transaction>
    requires SetDefaults(f.paging).page >= 1 && SetDefaults(f.paging).limit >= 1
  {
    Window(Ordered(s, owner, f, re), Paging(f.paging).0, Paging(f.paging).1)
  }

  /** A window of a sorted list is sorted, and holds only elements of the list. */
  lemma {:induction false} WindowOfSorted(s: seq<Transaction>, spec: SortSpec, offset: nat, limit: nat)
    requires Sorted(s, spec)
    ensures Sorted(Window(s, offset, limit), spec)
    ensures forall t | t in Window(s, offset, limit) :: t in multiset(s)
  {
    var w := Window(s, offset, limit);
    forall i, j | 0 <= i < j < |w| ensures Before(w[i], w[j], spec) {
      assert w[i] == s[offset + i] && w[j] == s[offset + j];
    }
    forall t | t in w ensures t in multiset(s) {
      var k :| 0 <= k < |w| && w[k] == t;
      assert s[offset + k] == t;
    }
  }

  /**
   * GetAll: the total number of matches, and the requested page of the matches
   * ordered by the requested field and direction, newest creation first on ties.
   */
  function GetAll(s: seq<Transaction>, owner: string, f: TxFilter, re: string -> string -> bool, fails: bool)
    : (r: Result<Listing, StoreError>)
    requires SetDefaults(f.paging).page >= 1 && SetDefaults(f.paging).limit >= 1
    ensures r.Failure? <==> fails
    ensures r.Success? ==> r.value.total == |Select(s, owner, f, re)|
    ensures r.Success? ==> forall t | t in r.value.items :: t in s && MatchesAsWritten(t, owner, f, re)
    ensures r.Success? ==> Sorted(r.value.items, ParseSort(f.sortBy, f.sortOrder))
    ensures r.Success? ==> var (offset, limit) := Paging(f.paging);
      |r.value.items| == if offset >= r.value.total then 0 else if r.value.total - offset < limit then r.value.total - offset else limit
    ensures r.Success? ==> r.value.items == PageOf(s, owner, f, re)
  {
    if fails then Failure(StoreFailure)
    else
      var matches := Select(s, owner, f, re);
      WindowOfSorted(Ordered(s, owner, f, re), ParseSort(f.sortBy, f.sortOrder), Paging(f.paging).0, Paging(f.paging).1);
      Success(Listing(PageOf(s, owner, f, re), |matches|))
  }

  /** The first page with a limit no smaller than the total holds every match. */
  lemma {:induction false} FirstPageHoldsAll(s: seq<Transaction>, owner: string, f: TxFilter, re: string -> string -> bool)
    requires SetDefaults(f.paging).page == 1 && SetDefaults(f.paging).limit >= |Select(s, owner, f, re)|
    ensures multiset(GetAll(s, owner, f, re, false).value.items) == multiset(Select(s, owner, f, re))
  {
    assert Window(Ordered(s, owner, f, re), 0, SetDefaults(f.paging).limit) == Ordered(s, owner, f, re);
  }

  /**
   * The listing as intended: the page and total of the intended selection, which
   * keeps to the filtered account even when a search term is given.
   */
  function GetAllIntended(s: seq<Transaction>, owner: string, f: TxFilter, re: string -> string -> bool, fails: bool)
    : (r: Result<Listing, StoreError>)
    requires SetDefaults(f.paging).page >= 1 && SetDefaults(f.paging).limit >= 1
    ensures r.Failure? <==> fails
    ensures r.Success? ==> r.value.total == |SelectIntended(s, owner, f, re)|
    ensures r.Success? ==> forall t | t in r.value.items :: t in s && Matches(t, owner, f, re)
    ensures r.Success? && f.accountId != "" ==> forall t | t in r.value.items :: TouchesAccount(t, f.accountId)
    ensures r.Success? ==> Sorted(r.value.items, ParseSort(f.sortBy, f.sortOrder))
  {
    if fails then Failure(StoreFailure)
    else
      var spec := ParseSort(f.sortBy, f.sortOrder);
      var matches := SelectIntended(s, owner, f, re);
      var (offset, limit) := Paging(f.paging);
      WindowOfSorted(Sort(matches, spec), spec, offset, limit);
      Success(Listing(Window(Sort(matches, spec), offset, limit), |matches|))
  }

  /** Without a search term, or without an account, the listing is the intended one. */
  lemma GetAllAgreesWithoutOverlap(s: seq<Transaction>, owner: string, f: TxFilter, re: string -> string -> bool, fails: bool)
    requires SetDefaults(f.paging).page >= 1 && SetDefaults(f.paging).limit >= 1
    requires f.search == "" || f.accountId == ""
    ensures GetAll(s, owner, f, re, fails) == GetAllIntended(s, owner, f, re, fails)
  {
    SelectionsAgree(s, owner, f, re);
  }

  /**
   * With an account and a search term, the listing counts and serves another
   * account's transaction that the intended listing leaves out.
   */
  lemma GetAllListsOtherAccount()
    ensures var t := Transaction("t1", "u", "other", None, None, Expense, 100, Some("coffee"), None, 0, None, [], None, 0);
      var f := TxFilter(PaginationQuery(1, 10), "mine", "", "", "coffee", "", "", None, None, "", "", "", "");
      && GetAll([t], "u", f, Literal, false).value == Listing([t], 1)
      && GetAllIntended([t], "u", f, Literal, false).value == Listing([], 0)
  {
    var t := Transaction("t1", "u", "other", None, None, Expense, 100, Some("coffee"), None, 0, None, [], None, 0);
    var f := TxFilter(PaginationQuery(1, 10), "mine", "", "", "coffee", "", "", None, None, "", "", "", "");
    SearchDropsAccountFilter();
    assert [t][1..] == [];
    assert Select([t], "u", f, Literal) == [t];
    assert SelectIntended([t], "u", f, Literal) == [];
  }

  /** Pages follow on from each other: page n and page n+1 together are the window of twice the limit. */
  lemma {:induction false} PagesFollowOn(s: seq<Transaction>, owner: string, f: TxFilter, re: string -> string -> bool)
    requires f.paging.page >= 1 && f.paging.limit >= 1
    ensures var next := f.(paging := f.paging.(page := f.paging.page + 1));
      PageOf(s, owner, f, re) + PageOf(s, owner, next, re)
        == Window(Ordered(s, owner, f, re), GetOffset(f.paging), 2 * f.paging.limit)
  {
    var next := f.(paging := f.paging.(page := f.paging.page + 1));
    var o := GetOffset(f.paging);
    OffsetsTile(f.paging);
    assert Paging(f.paging) == (o, f.paging.limit);
    assert Paging(next.paging) == (o + f.paging.limit, f.paging.limit);
    SelectIgnoresPaging(s, owner, f, next.paging, re);
    var xs, l := Ordered(s, owner, f, re), f.paging.limit;
    assert Ordered(s, owner, next, re) == xs;
    var first := PageOf(s, owner, f, re);
    assert first == Window(xs, o, l);
    var second := PageOf(s, owner, next, re);
    PageIsWindow(s, owner, next, re, xs, o + l, l);
    AdjacentWindows(xs, first, second, o, l);
  }

  lemma PageIsWindow(s: seq<Transaction>, owner: string, f: TxFilter, re: string -> string -> bool,
                     xs: seq<Transaction>, o: nat, l: nat)
    requires SetDefaults(f.paging).page >= 1 && SetDefaults(f.paging).limit >= 1
    requires Ordered(s, owner, f, re) == xs && Paging(f.paging) == (o, l)
    ensures PageOf(s, owner, f, re) == Window(xs, o, l)
  {
  }

  lemma {:induction false} AdjacentWindows(xs: seq<Transaction>, a: seq<Transaction>, b: seq<Transaction>, o: nat, l: nat)
    requires a == Window(xs, o, l) && b == Window(xs, o + l, l)
    ensures a + b == Window(xs, o, 2 * l)
  {
    WindowsTile(xs, o, l);
  }

  // ---------------------------------------------------------------------------
  // Recent transactions

  function OwnedBy(s: seq<Transaction>, owner: string): (r: seq<Transaction>)
    ensures forall t :: t in r <==> t in s && t.userId == owner
    ensures multiset(r) <= multiset(s)
  {
    if |s| == 0 then []
    else
      var rest := OwnedBy(s[1..], owner);
      assert s == [s[0]] + s[1..];
      if s[0].userId == owner then [s[0]] + rest else rest
  }

  /** The first `k` rows of the owner's listing, newest first. */
  lemma {:induction false} NewestPrefix(s: seq<Transaction>, owner: string, k: nat)
    requires k <= |OwnedBy(s, owner)|
    ensures var items := Sort(OwnedBy(s, owner), NewestFirst)[..k];
      && |items| == k
      && Sorted(items, NewestFirst)
      && multiset(items) <= multiset(OwnedBy(s, owner))
      && (forall t | t in items :: t in s && t.userId == owner)
      && (forall t, u | t in items && u in multiset(OwnedBy(s, owner)) - multiset(items) :: Before(t, u, NewestFirst))
      && (k == |OwnedBy(s, owner)| ==> multiset(items) == multiset(OwnedBy(s, owner)))
  {
    var ordered := Sort(OwnedBy(s, owner), NewestFirst);
    var items := ordered[..k];
    PrefixLeadsRest(ordered, NewestFirst, k);
    forall t | t in items ensures t in s && t.userId == owner {
      assert t in multiset(items);
      assert t in multiset(OwnedBy(s, owner));
    }
    if k == |ordered| {
      assert items == ordered;
    }
  }

  /** The number of rows GetRecent keeps of `n` available under `limit`: 0 keeps all, a negative limit its magnitude. */
  function RecentCount(n: nat, limit: int): (r: nat)
    ensures r <= n
    ensures limit == 0 ==> r == n
    ensures limit != 0 ==> r == (if n < (if limit < 0 then -limit else limit) then n else (if limit < 0 then -limit else limit))
  {
    var cap := if limit < 0 then -limit else limit;
    if cap == 0 || n < cap then n else cap
  }

  /**
   * GetRecentTransactions: the owner's transactions, latest date first and newest
   * creation first on ties, cut to `limit`; a limit of 0 means no limit and a
   * negative one counts as its magnitude. The rows kept are a prefix of the
   * owner's listing in that order, and no row left out is newer than a kept one.
   */
  function GetRecent(s: seq<Transaction>, owner: string, limit: int, fails: bool)
    : (r: Result<seq<Transaction>, StoreError>)
    ensures r.Failure? <==> fails
    ensures r.Success? ==> Sorted(r.value, NewestFirst)
    ensures r.Success? ==> forall t | t in r.value :: t in s && t.userId == owner
    ensures r.Success? ==> |r.value| == RecentCount(|OwnedBy(s, owner)|, limit)
    ensures r.Success? ==> r.value == Sort(OwnedBy(s, owner), NewestFirst)[..|r.value|]
    ensures r.Success? ==> multiset(r.value) <= multiset(OwnedBy(s, owner))
    ensures r.Success? ==>
      forall t, u | t in r.value && u in multiset(OwnedBy(s, owner)) - multiset(r.value) :: Before(t, u, NewestFirst)
    ensures r.Success? && limit == 0 ==> multiset(r.value) == multiset(OwnedBy(s, owner))
  {
    if fails then Failure(StoreFailure)
    else
      var k := RecentCount(|OwnedBy(s, owner)|, limit);
      NewestPrefix(s, owner, k);
      Success(Sort(OwnedBy(s, owner), NewestFirst)[..k])
  }

  // ---------------------------------------------------------------------------
  // Summary by type

  /** The summary's selection: the owner's documents within the date and month bounds. */
  predicate InSummary(t: Transaction, owner: string, f: TxFilter) {
    t.userId == owner && InBounds(t.date, DateBounds(f.startDate, f.endDate, f.month))
  }

  function CountOfType(s: seq<Transaction>, owner: string, f: TxFilter, k: TxType): nat {
    if |s| == 0 then 0
    else (if InSummary(s[0], owner, f) && s[0].kind == k then 1 else 0) + CountOfType(s[1..], owner, f, k)
  }

  function AmountOfType(s: seq<Transaction>, owner: string, f: TxFilter, k: TxType): int {
    if |s| == 0 then 0
    else (if InSummary(s[0], owner, f) && s[0].kind == k then s[0].amount else 0) + AmountOfType(s[1..], owner, f, k)
  }

  function CountInSummary(s: seq<Transaction>, owner: string, f: TxFilter): nat {
    if |s| == 0 then 0 else (if InSummary(s[0], owner, f) then 1 else 0) + CountInSummary(s[1..], owner, f)
  }

  datatype TypeStats = TypeStats(count: nat, amount: int)

  /** The $group stage: one entry per type name present, with its count and summed amount. */
  function GroupByType(s: seq<Transaction>, owner: string, f: TxFilter): (r: map<string, TypeStats>)
    ensures forall name | name in r :: ParseTxType(name).Some?
    ensures forall k: TxType :: TypeName(k) in r <==> CountOfType(s, owner, f, k) > 0
    ensures forall k: TxType | TypeName(k) in r ::
      r[TypeName(k)] == TypeStats(CountOfType(s, owner, f, k), AmountOfType(s, owner, f, k))
  {
    if |s| == 0 then map[]
    else
      var rest := GroupByType(s[1..], owner, f);
      var t := s[0];
      if !InSummary(t, owner, f) then rest
      else
        var name := TypeName(t.kind);
        var prev := if name in rest then rest[name] else TypeStats(0, 0);
        ZeroCountZeroAmount(s[1..], owner, f, t.kind);
        TypeNameRoundTrip(t.kind);
        assert forall k: TxType :: TypeName(k) == name <==> k == t.kind;
        rest[name := TypeStats(prev.count + 1, prev.amount + t.amount)]
  }

  datatype TxSummary = TxSummary(
    totalTransactions: nat,
    totalIncome: int,
    totalExpense: int,
    netAmount: int,
    byType: map<string, TypeStats>)

  function StatsOf(m: map<string, TypeStats>, name: string): TypeStats {
    if name in m then m[name] else TypeStats(0, 0)
  }

  /**
   * GetSummary: the owner's transactions in the date bounds grouped by type; the
   * total counts every group, income and expense are their groups' sums, and the
   * net amount is income minus expense.
   */
  function GetSummary(s: seq<Transaction>, owner: string, f: TxFilter, fails: bool): (r: Result<TxSummary, StoreError>)
    ensures r.Failure? <==> fails
    ensures r.Success? ==> r.value.totalTransactions == CountInSummary(s, owner, f)
    ensures r.Success? ==> r.value.totalIncome == AmountOfType(s, owner, f, Income)
    ensures r.Success? ==> r.value.totalExpense == AmountOfType(s, owner, f, Expense)
    ensures r.Success? ==> r.value.netAmount == r.value.totalIncome - r.value.totalExpense
    ensures r.Success? ==> r.value.byType == GroupByType(s, owner, f)
  {
    if fails then Failure(StoreFailure)
    else
      var groups := GroupByType(s, owner, f);
      var income := StatsOf(groups, "income");
      var expense := StatsOf(groups, "expense");
      var transfer := StatsOf(groups, "transfer");
      assert income == TypeStats(CountOfType(s, owner, f, Income), AmountOfType(s, owner, f, Income)) by {
        if "income" !in groups { ZeroCountZeroAmount(s, owner, f, Income); }
      }
      assert expense == TypeStats(CountOfType(s, owner, f, Expense), AmountOfType(s, owner, f, Expense)) by {
        if "expense" !in groups { ZeroCountZeroAmount(s, owner, f, Expense); }
      }
      assert transfer.count == CountOfType(s, owner, f, Transfer) by {
        assert TypeName(Transfer) == "transfer";
      }
      CountSplitsByType(s, owner, f);
      Success(TxSummary(income.count + expense.count + transfer.count, income.amount, expense.amount,
                        income.amount - expense.amount, groups))
  }

  lemma {:induction false} ZeroCountZeroAmount(s: seq<Transaction>, owner: string, f: TxFilter, k: TxType)
    ensures CountOfType(s, owner, f, k) == 0 ==> AmountOfType(s, owner, f, k) == 0
  {
    if |s| > 0 {
      ZeroCountZeroAmount(s[1..], owner, f, k);
    }
  }

  /** Every selected transaction has exactly one type. */
  lemma {:induction false} CountSplitsByType(s: seq<Transaction>, owner: string, f: TxFilter)
    ensures CountInSummary(s, owner, f)
      == CountOfType(s, owner, f, Income) + CountOfType(s, owner, f, Expense) + CountOfType(s, owner, f, Transfer)
  {
    if |s| > 0 {
      CountSplitsByType(s[1..], owner, f);
    }
  }

  // ---------------------------------------------------------------------------
  // Per-account queries

  /** GetByAccountID: the owner's transactions from or to the account, in store order. */
  function GetByAccountID(s: seq<Transaction>, owner: string, accountId: string): (r: seq<Transaction>)
    ensures forall t :: t in r <==> t in s && t.userId == owner && TouchesAccount(t, accountId)
    ensures multiset(r) <= multiset(s)
  {
    if |s| == 0 then []
    else
      var rest := GetByAccountID(s[1..], owner, accountId);
      assert s == [s[0]] + s[1..];
      if s[0].userId == owner && TouchesAccount(s[0], accountId) then [s[0]] + rest else rest
  }

  /** CountByAccountID: how many documents GetByAccountID returns. */
  function CountByAccountID(s: seq<Transaction>, owner: string, accountId: string): (r: nat)
    ensures r == |GetByAccountID(s, owner, accountId)|
    ensures r == 0 <==> forall t | t in s :: !(t.userId == owner && TouchesAccount(t, accountId))
  {
    if |s| == 0 then 0
    else
      (if s[0].userId == owner && TouchesAccount(s[0], accountId) then 1 else 0) + CountByAccountID(s[1..], owner, accountId)
  }

  /** Counted as money into the account: income on it, or a transfer to it. */
  predicate MoneyIn(t: Transaction, owner: string, accountId: string) {
    t.userId == owner
    && ((t.accountId == accountId && t.kind == Income) || (t.toAccountId == Some(accountId) && t.kind == Transfer))
  }

  /** Counted as money out of the account: an expense or a transfer from it. */
  predicate MoneyOut(t: Transaction, owner: string, accountId: string) {
    t.userId == owner && t.accountId == accountId && (t.kind == Expense || t.kind == Transfer)
  }

  function SumIn(s: seq<Transaction>, owner: string, accountId: string): int {
    if |s| == 0 then 0 else (if MoneyIn(s[0], owner, accountId) then s[0].amount else 0) + SumIn(s[1..], owner, accountId)
  }

  function SumOut(s: seq<Transaction>, owner: string, accountId: string): int {
    if |s| == 0 then 0 else (if MoneyOut(s[0], owner, accountId) then s[0].amount else 0) + SumOut(s[1..], owner, accountId)
  }

  /**
   * GetTotalsByAccountID: income is the sum of income on the account and transfers
   * into it; expense the sum of expenses and transfers out of it. A store failure
   * on the second aggregate keeps the income already computed.
   */
  function GetTotalsByAccountID(s: seq<Transaction>, owner: string, accountId: string, incomeFails: bool, expenseFails: bool)
    : (r: (int, int, Option<StoreError>))
    ensures incomeFails ==> r == (0, 0, Some(StoreFailure))
    ensures !incomeFails ==> r.0 == SumIn(s, owner, accountId)
    ensures !incomeFails && expenseFails ==> r.1 == 0 && r.2 == Some(StoreFailure)
    ensures !incomeFails && !expenseFails ==> r.1 == SumOut(s, owner, accountId) && r.2 == None
  {
    if incomeFails then (0, 0, Some(StoreFailure))
    else if expenseFails then (SumIn(s, owner, accountId), 0, Some(StoreFailure))
    else (SumIn(s, owner, accountId), SumOut(s, owner, accountId), None)
  }
}
