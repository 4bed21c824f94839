# Finance Hub API — a Dafny model of its bookkeeping core

This project models the backend of a personal-finance application. Users keep
accounts, record income, expense and transfer transactions against them,
organise transactions in categories, set monthly budgets and read reports.
They sign in with a password or with Google.

The centre of the model is the balance reconciliation.

- Every transaction has a signed effect on one account, or on two for a
  transfer.
- Creating, updating and deleting a transaction applies or reverts that effect
  through separate, non-atomic balance increments.
- When a step fails, a single best-effort compensation runs.

The model states what each lifecycle operation does to the stored transactions
and to the balances under every pattern of failures. It also proves that the
balances stay equal to the net effect of the stored transactions whenever no
step fails.

Around that centre sit the other parts of the core:

- the transaction listing, with its filters, sort and pagination, and the
  account and transaction summaries;
- category hierarchy checks and delete guards;
- budget scope checks, upserts and spent amounts;
- the report aggregation: overview, per-category and per-merchant breakdowns,
  weekly series;
- the authentication flows: register, login, refresh, Google sign-in, email
  verification, password reset, password change;
- the user and one-time-token stores;
- password strength;
- the JWT lifetime parser;
- the VietQR bank search;
- the sliding-window rate limiter;
- the bearer and CORS middleware;
- the object-storage key and URL handling.

How the model is built:

- **Stores.** Each store is a sequence of documents in insertion order. A
  unique-id predicate stands for MongoDB's `_id` key, and a "find one" is the
  first match.
- **Failures.** A failing round trip to the database, or to another outside
  service, is passed in by the caller: a boolean, a set of step numbers, or a
  set of named round trips. The failures the model does not name this way are
  listed under "Left out".
- **Amounts** are integers in minor units. **Times** are integer seconds since
  the Unix epoch in UTC; the rate limiter and Go durations use nanoseconds.
- **Imported pieces.** Small modules stand for the pieces of the Go standard
  library the code relies on:
  - `Strings`: `strings.Split`, `TrimPrefix`, `Trim`, `Atoi`;
  - `Utf8`: byte lengths of runes;
  - `Calendar`: civil dates, `time.Date` month normalisation, weekdays;
  - `Durations`: int64 wrap-around.
- **Outside services** are parameters of the operations: bcrypt, JWT signing,
  Google's token check, random tokens, the clock, `time.ParseDuration` and the
  MongoDB regex.

Where the design description of the system and its code disagree, the model
follows the code. Each of these is stated and proved:

- An update that fails to apply the new effect does not restore the old
  balances (`TransactionService.UpdateBalanceFailed`).
- An update does not repeat the create checks for self-transfers, balances or
  category types (`TransactionService.UpdateAllowsSelfTransfer`).
- A balance increment on a missing or foreign account succeeds and changes
  nothing (`AccountRepository.UpdateBalance`).
- A bulk delete re-applies every loaded transaction, including one whose revert
  failed (`TransactionService.BulkDeleteReappliesUnreverted`).
- A bulk delete deletes ids it could not load (`TransactionService.BulkDeleteSkipsFailedLookups`).
- A failed balance application after a create is reported as the same
  balance-update error as any other. No separate partial-failure kind exists
  (`TransactionService.CreateTransaction`).
- The category hierarchy refuses only cycles of length one and two, and does
  not limit depth (`CategoryService.ThreeCycleAccepted`).

Other behaviours of the code that the model makes explicit:

- A day count large enough to overflow int64 wraps around in the JWT lifetime
  (`Jwt.HugeDayCountWraps`).
- When the duplicate-email lookup fails, user creation goes ahead
  (`UserRepository.LookupFailureAdmitsDuplicate`).
- A negative fractional access lifetime is reported as zero seconds while the
  token expires earlier (`AuthService.NegativeLifetimeDisagrees`).
- Google linking ends with a nil user when the re-read fails
  (`AuthService.LinkGoogleUser`).
- At the exact instant of expiry the three token queries disagree
  (`TokenRepository.ExpiryInstant`).
- A budget is still written when its month string does not parse
  (`BudgetService.BadMonthStillWritten`), and stays written when the spent
  recomputation after the write fails (`BudgetService.FailureAfterWriteKeepsIt`).
- When the lookup of the owner's highest display order fails, a new account
  gets display order 1 (`AccountRepository.Create`).
- The reports' month pre-check counts bytes, not characters
  (`ReportService.PreCheckCountsBytes`).
- In the transaction listing a search term replaces the account filter, so the
  listing and its total include another account's transactions that match the
  search (`TransactionRepository.GetAllListsOtherAccount`). Every listing in the
  model, the service's and the budget's included, uses the filter as written; the
  intended listing is `TransactionRepository.GetAllIntended`.

## Model

| member | source | states |
|---|---|---|
| Models.ParseTxType | internal/services/transaction_service.go:31-39 | a type is accepted exactly when it is "income", "expense" or "transfer", and the accepted type carries that same name |
| Models.TypeNameRoundTrip | internal/services/transaction_service.go:32-36 | every transaction type's name passes the type check and parses back to the same type |
| Models.BoundCreateHasKnownType | internal/models/models.go:186-191 | a create request that passes binding (`oneof=income expense transfer`, `gt=0`) always passes the service's type check and has a positive amount |
| Models.BoundPatchHasKnownType | internal/models/models.go:201-206 | a supplied type or amount in a bound update request obeys the same rules as a create |
| Models.SetDefaults | internal/models/models.go:292-300 | page 0 becomes 1 and limit 0 becomes 10, every other value is kept, and non-negative input gives a page and limit of at least 1 |
| Models.SetDefaultsIdempotent | internal/models/models.go:292-300 | applying the defaults twice is applying them once, and a query that passes binding is left as it is |
| Models.GetOffset | internal/models/models.go:302-305 | the offset is never negative for a valid page and is 0 on the first page |
| Models.OffsetsTile | internal/models/models.go:302-305 | page n+1 starts exactly one limit after page n, so consecutive pages tile the results |
| Models.TotalPages | internal/services/transaction_service.go:130 | the reported page count is the least number of pages of `limit` items that holds every item, and 0 when there are none |
| TransactionOrder.ParseSort | internal/repositories/transaction_repository.go:195-203 | the listing sorts by amount exactly when `sort_by` is "amount" (by date otherwise), and ascends exactly when `sort_order` is "asc" |
| TransactionOrder.SortedByPrimary | internal/repositories/transaction_repository.go:206-207 | in a listing the primary field never goes against the requested direction, and rows equal on it come newest creation first |
| TransactionOrder.Sort | internal/repositories/transaction_repository.go:206-207 | the listing order is a permutation of the matches that is sorted by the primary field, then by creation time descending |
| TransactionOrder.Window | internal/repositories/transaction_repository.go:210-212 | skip and limit keep the rows from the offset on, at most `limit` of them and none when the offset is past the end |
| TransactionOrder.PrefixLeadsRest | internal/repositories/transaction_repository.go:370-371 | a prefix of a sorted listing is sorted, is contained in the listing, and each of its rows may precede every row left after it |
| TransactionOrder.WindowsTile | internal/repositories/transaction_repository.go:210-212 | two adjacent windows of one limit together are the window of twice the limit |
| TransactionRepository.GetByID | internal/repositories/transaction_repository.go:66-82 | the result is a stored document with that id and owner; there is none exactly when no document has both; with distinct ids it is the only document carrying the id |
| TransactionRepository.NewTransaction | internal/repositories/transaction_repository.go:30-50 | the stored document takes the new id, the owner, the creation time and every request field; absent tags become an empty list |
| TransactionRepository.Create | internal/repositories/transaction_repository.go:30-63 | the insert fails exactly on a store failure or an id already in use; otherwise the new document is appended and ids stay distinct |
| TransactionRepository.CreateThenGet | internal/repositories/transaction_repository.go:30-82 | a created transaction is found again by its id and owner, unchanged |
| TransactionRepository.PatchTx | internal/repositories/transaction_repository.go:240-276 | each supplied field replaces the stored one and each absent field is kept, merchant, description, notes and attachment URL included; id, owner and creation time are never written |
| TransactionRepository.EmptyPatchKeepsTransaction | internal/repositories/transaction_repository.go:240-276 | a patch that supplies no field leaves the document as it was |
| TransactionRepository.PatchIdempotent | internal/repositories/transaction_repository.go:240-276 | applying the same patch twice gives the same document as applying it once |
| TransactionRepository.Update | internal/repositories/transaction_repository.go:234-297 | a missing (id, owner) document returns nothing and writes nothing; otherwise the returned document is the patched one, every other document is untouched and no id changes |
| TransactionRepository.UpdateThenGet | internal/repositories/transaction_repository.go:234-297 | with distinct ids, a lookup after the update returns exactly the document the update returned |
| TransactionRepository.Delete | internal/repositories/transaction_repository.go:300-316 | nothing matched is NoDocuments; otherwise the returned document is the one a lookup finds, and only that (id, owner) document leaves the store |
| TransactionRepository.RecategoriseMany | internal/repositories/transaction_repository.go:319-342 | on success the owner's listed non-transfer transactions get the category and the count reported is how many of them there were |
| TransactionRepository.SetCategoryScope | internal/repositories/transaction_repository.go:324-328 | transfers, other owners' documents and unlisted ids never change, and a second identical bulk write changes nothing more |
| TransactionRepository.DeleteMany | internal/repositories/transaction_repository.go:345-360 | exactly the owner's listed documents are removed, and the reported count plus the documents left is the size of the store before |
| TransactionRepository.DayStart | internal/repositories/transaction_repository.go:112-130 | a date filter yields a bound exactly when its text parses as a "2006-01-02" date, and the bound falls on a midnight |
| TransactionRepository.MonthBounds | internal/repositories/transaction_repository.go:133-147 | the month filter applies exactly when the text is non-empty and splits on '-' into two parts |
| TransactionRepository.MonthBoundsOrdered | internal/repositories/transaction_repository.go:136-146 | every month text the filter accepts, including non-numeric parts and out-of-range months, selects a non-empty date range |
| TransactionRepository.DateBounds | internal/repositories/transaction_repository.go:111-147 | a usable month replaces both date bounds; otherwise the start date gives the lower bound and the day after the end date the exclusive upper bound |
| TransactionRepository.EndDateInclusive | internal/repositories/transaction_repository.go:122-130 | with only an end date, an instant is in range exactly when it falls on or before that day |
| TransactionRepository.MonthFilterOnLayout | internal/repositories/transaction_repository.go:133-147 | a "YYYY-MM" month selects from that month's first midnight for exactly its number of days |
| TransactionRepository.MonthBoundsOfParts | internal/repositories/transaction_repository.go:136-141 | month text whose two parts read as numbers gives the first of that (normalised) month and the first of the next |
| TransactionRepository.SplitYearMonth | internal/repositories/transaction_repository.go:135 | "YYYY-MM" text splits on '-' into its four year digits and its two month digits |
| TransactionRepository.FiltersAgreeWithoutOverlap | internal/repositories/transaction_repository.go:92-98 | without a search term, or without an account filter, the filter as written and the intended filter select the same transactions |
| TransactionRepository.MatchesRespectsAccount | internal/repositories/transaction_repository.go:92-98 | the intended filter keeps only transactions whose source or destination is the filtered account |
| TransactionRepository.SearchDropsAccountFilter | internal/repositories/transaction_repository.go:173-180 | with an account and a search term, the filter as written lists another account's transaction that the intended filter excludes |
| TransactionRepository.Select | internal/repositories/transaction_repository.go:85-183 | the selected documents are exactly the stored ones matching the filter as the repository builds it, where a search term replaces the account condition, each at most as often as stored |
| TransactionRepository.SelectIntended | internal/repositories/transaction_repository.go:92-98 | the intended selection: exactly the stored documents matching the account condition and the search together with every other filter |
| TransactionRepository.SelectionsAgree | internal/repositories/transaction_repository.go:173-180 | the intended selection is the written one narrowed to the filtered account, in the same order, and the two are the same list without a search term or without an account |
| TransactionRepository.MatchesIsNarrowedWritten | internal/repositories/transaction_repository.go:173-180 | a transaction matches the intended filter exactly when it matches the filter as written and is from or to the filtered account, if one is given |
| TransactionRepository.SelectIgnoresPaging | internal/repositories/transaction_repository.go:185-212 | the page and limit take no part in which documents match, so the count is the same for every page |
| TransactionRepository.Paging | internal/repositories/transaction_repository.go:209-212 | the served window starts at the defaulted page's offset and is the defaulted limit long |
| TransactionRepository.WindowOfSorted | internal/repositories/transaction_repository.go:205-212 | a page cut from the sorted matches is itself sorted and holds only matches |
| TransactionRepository.GetAll | internal/repositories/transaction_repository.go:85-229 | the total is the number of documents the filter as written matches, a search term replacing the account condition; the page holds only such documents, is sorted by the requested field and direction with newest creation first on ties, and is as long as the remainder after the offset allows, up to the limit |
| TransactionRepository.GetAllIntended | internal/repositories/transaction_repository.go:85-229 | the intended listing: the total and the sorted page come from the intended selection, so with an account filter every listed transaction is from or to that account |
| TransactionRepository.GetAllAgreesWithoutOverlap | internal/repositories/transaction_repository.go:92-98 | without a search term, or without an account filter, the listing as written is the intended listing, total and page alike |
| TransactionRepository.GetAllListsOtherAccount | internal/repositories/transaction_repository.go:173-180 | for account "mine" and search "coffee", a transaction on account "other" whose merchant is "coffee" is counted and served, where the intended listing is empty |
| TransactionRepository.FirstPageHoldsAll | internal/repositories/transaction_repository.go:205-212 | the first page with a limit at least the total holds every match |
| TransactionRepository.PagesFollowOn | internal/repositories/transaction_repository.go:209-212 | page n followed by page n+1 is the window of twice the limit starting at page n's offset: no match is skipped or repeated between pages |
| TransactionRepository.OwnedBy | internal/repositories/transaction_repository.go:367 | the owner's documents are exactly the stored ones with that owner |
| TransactionRepository.GetRecent | internal/repositories/transaction_repository.go:363-389 | fails only on a store failure; otherwise exactly the first min(|limit|, owned) rows of the owner's transactions sorted latest date first and newest creation first (all of them for a zero limit), so no owned transaction left out is newer than one returned |
| TransactionRepository.NewestPrefix | internal/repositories/transaction_repository.go:367-371 | the first k rows of the owner's transactions sorted newest first are k sorted rows of the owner's, and each precedes every owned row left out |
| TransactionRepository.GroupByType | internal/repositories/transaction_repository.go:436-475 | one group per type that occurs in the selection, keyed by the type name, holding that type's count and amount sum |
| TransactionRepository.GetSummary | internal/repositories/transaction_repository.go:392-486 | the total counts every selected transaction, income and expense are the sums of their types, and the net amount is income minus expense |
| TransactionRepository.ZeroCountZeroAmount | internal/repositories/transaction_repository.go:440-444 | a type with no selected transaction has a zero amount, so an absent group reads as zero |
| TransactionRepository.CountSplitsByType | internal/repositories/transaction_repository.go:466 | the summary's total is the sum of the three types' counts |
| TransactionRepository.GetByAccountID | internal/repositories/transaction_repository.go:489-517 | exactly the owner's transactions from or to the account |
| TransactionRepository.CountByAccountID | internal/repositories/transaction_repository.go:520-533 | the count equals the length of GetByAccountID's list, and is zero exactly when the owner has no transaction on the account |
| TransactionRepository.GetTotalsByAccountID | internal/repositories/transaction_repository.go:536-598 | income sums income on the account and transfers into it; expense sums expenses and transfers out of it; a failure of the second aggregate keeps the income and reports the error |
| AccountRepository.GetByID | internal/repositories/account_repository.go:80-96 | an account is returned only when both id and owner match; none exactly when no stored account has both; with distinct ids it is the only one with that id |
| AccountRepository.Increment | internal/repositories/account_repository.go:306-318 | the (id, owner) account's balance moves by the delta and every other account is kept as it is |
| AccountRepository.UpdateBalance | internal/repositories/account_repository.go:306-318 | fails only when the store call fails; otherwise only balances change, each by the delta when it is the (id, owner) account and not at all otherwise, and a missing or foreign id succeeds with the store unchanged |
| AccountRepository.IncrementKeepsIds | internal/repositories/account_repository.go:306-318 | a balance increment never changes an id or an owner, so distinct ids stay distinct |
| AccountRepository.IncrementAdds | internal/repositories/account_repository.go:306-318 | two increments of the same account compose into one increment by their sum |
| AccountRepository.IncrementInverse | internal/repositories/account_repository.go:306-318 | an increment by zero changes nothing, and +d followed by -d restores the store exactly |
| AccountRepository.MaxDisplayOrder | internal/repositories/account_repository.go:31-39 | the largest display order among the owner's accounts, attained by one of them, or 0 when the owner has none |
| AccountRepository.Create | internal/repositories/account_repository.go:27-77 | the insert fails exactly on a store failure or an id in use; the new account is active, copies every field of the request, and takes the requested display order, or one above every existing order of the owner (1 for a first account), or 1 when the lookup of the current maximum fails |
| AccountRepository.PatchAccount | internal/repositories/account_repository.go:136-206 | each of the fifteen patchable fields, the balance included, takes the supplied value or keeps the stored one when absent; id, owner, type and currency are never written |
| AccountRepository.EmptyPatchKeepsAccount | internal/repositories/account_repository.go:136-206 | an update that supplies no field leaves the account as it was |
| AccountRepository.Update | internal/repositories/account_repository.go:136-206 | fails only on a store failure; an unmatched (id, owner) returns nothing and writes nothing; otherwise the returned account is the patched one, the stored document with that id and owner is replaced by its patch, and every other account is untouched |
| AccountRepository.UpdateThenGet | internal/repositories/account_repository.go:136-206 | after an update that found its document, the id finds the returned patched account, the store keeps its size and distinct ids, and every document with another id is untouched |
| AccountRepository.PatchOwnedKeepsKeys | internal/repositories/account_repository.go:140 | an update never changes an id or an owner, so distinct ids stay distinct |
| AccountRepository.GetTotalBalance | internal/repositories/account_repository.go:209-235 | the total is zero when no account counts and never negative when every counted balance is non-negative |
| AccountRepository.TotalAppend | internal/repositories/account_repository.go:209-235 | the total over two lists of accounts is the sum of their totals |
| AccountRepository.CreateMovesTotal | internal/repositories/account_repository.go:27-77 | creating an account raises the owner's total by its opening balance, or by nothing when it is excluded from totals |
| AccountRepository.IncrementMovesTotal | internal/repositories/account_repository.go:306-318 | with distinct ids, an increment moves the owner's total by exactly the delta when the account is active and not excluded, and leaves it unchanged otherwise |
| AccountRepository.GetSummary | internal/repositories/account_repository.go:238-276 | the active accounts are counted overall and per type, the balance total is GetTotalBalance's, net worth equals it, and income and expense stay zero |
| AccountRepository.RemoveOwned | internal/repositories/account_repository.go:288-303 | exactly the (id, owner) account leaves the store, and distinct ids stay distinct |
| AccountRepository.Delete | internal/repositories/account_repository.go:288-303 | a store failure is reported as such; nothing matched is NoDocuments; on success exactly the (id, owner) account is removed |
| AccountRepository.BindingKeepsDays | internal/models/models.go:135-136 | creating from a request that passed binding, or updating with a bound patch, keeps every stored statement and due day in 1..31 |
| Reconciliation.Inc | internal/repositories/account_repository.go:306-318 | each balance call is one more increment of the request; it succeeds exactly when that increment is not a failing one, and only then moves the balance |
| Reconciliation.EffectOn | internal/services/transaction_service.go:332-359 | a transaction moves nothing on another user's accounts or on an account it does not name, and a transfer to its own source moves nothing in total |
| Reconciliation.Shifted | internal/services/transaction_service.go:332-359 | every account is moved by the transaction's signed effect on it and by nothing else |
| Reconciliation.ShiftedInverse | internal/services/transaction_service.go:332-389 | shifting by a transaction's effect one way and then the other restores every account |
| Reconciliation.MoveOutcome | internal/services/transaction_service.go:346-355 | a transfer's increments: the source step failing moves nothing; the destination step failing compensates the source; only when that compensation also fails is the source left changed |
| Reconciliation.Apply | internal/services/transaction_service.go:332-359 | a successful apply credits income, debits expense and moves a transfer from source to destination, changing no other account; a failure moves nothing unless the transfer's compensation fails; without failures it fails only for a transfer with no destination |
| Reconciliation.Revert | internal/services/transaction_service.go:362-389 | a successful revert moves every account by the negated effect; a failure moves nothing unless the compensation fails; without failures it fails only for a transfer with no destination |
| Reconciliation.SingleShift | internal/services/transaction_service.go:334-340 | the one increment of an income or expense is its shifted effect |
| Reconciliation.TransferShift | internal/services/transaction_service.go:346-351 | debiting the source and then crediting the destination is the transfer's shifted effect |
| Reconciliation.ReconcileMeaning | internal/services/transaction_service.go:332-389 | a successful apply or revert shifts every account by the effect; a failed one leaves the store as it was, except when a transfer's compensation itself fails and leaves the source changed |
| Reconciliation.RevertUndoesApply | internal/services/transaction_service.go:332-389 | reverting an applied transaction restores every balance whenever both succeed |
| Reconciliation.ApplyUndoesRevert | internal/services/transaction_service.go:332-389 | applying a reverted transaction restores every balance whenever both succeed |
| Reconciliation.FailedCompensationLeavesSourceChanged | internal/services/transaction_service.go:351-354 | when the destination step and the compensation of a transfer both fail, the source stays debited and the destination untouched |
| Reconciliation.ShiftedAll | internal/services/transaction_service.go:294-299 | shifting by several transactions moves every account by their combined effect |
| Reconciliation.ShiftedAllInverse | internal/services/transaction_service.go:294-307 | shifting by several transactions one way and then the other restores every account |
| Consistency.NetAppend | internal/services/transaction_service.go:96-107 | the net effect of the stored transactions grows by exactly the new transaction's effect when one is stored |
| Consistency.NetRemoveOne | internal/services/transaction_service.go:243-254 | with distinct ids, deleting one owned document removes exactly its effect from the net |
| Consistency.RemoveTwice | internal/repositories/transaction_repository.go:345-360 | removing one set of ids and then another is removing their union |
| Consistency.NetRemoveAll | internal/services/transaction_service.go:294-302 | with distinct ids, deleting several owned documents removes exactly their combined effect |
| Consistency.RestRemains | internal/services/transaction_service.go:294-302 | after one listed document is deleted the other listed documents are still stored |
| Consistency.NetPatchOne | internal/services/transaction_service.go:210-224 | with distinct ids, patching one owned document swaps its old effect for its new one in the net |
| Consistency.CreatePreserves | internal/services/transaction_service.go:30-110 | a successful create keeps every balance equal to the opening balance plus the net effect of the stored transactions |
| Consistency.AppendPreserves | internal/services/transaction_service.go:96-107 | storing one more transaction and shifting the accounts by its effect keeps balances and transactions consistent |
| Consistency.DeletePreserves | internal/services/transaction_service.go:233-257 | a successful delete keeps balances and stored transactions consistent |
| Consistency.UpdatePreserves | internal/services/transaction_service.go:145-230 | a successful update keeps balances and stored transactions consistent |
| Consistency.PatchPreserves | internal/services/transaction_service.go:210-229 | patching one stored transaction and moving the accounts from its old effect to its new one keeps them consistent |
| Consistency.BulkDeleteFixedPreserves | internal/services/transaction_service.go:280-312 | the corrected bulk delete keeps balances and stored transactions consistent whenever no two consecutive increments fail |
| Consistency.BulkDeletePreservesOnOrdinaryInput | internal/services/transaction_service.go:280-312 | on that ordinary input a successful bulk delete as written keeps balances and stored transactions consistent |
| Consistency.FixedStore | internal/services/transaction_service.go:302 | the corrected bulk delete's store is the old store with exactly the reverted documents removed |
| Consistency.BulkDeleteBreaksBalance | internal/services/transaction_service.go:283-302 | the bulk delete as written, given a repeated id, leaves balances that no longer match the stored transactions |
| TransactionService.FindAccount | internal/services/transaction_service.go:42-48 | an account lookup fails exactly when the store call fails, and otherwise returns AccountRepository.GetByID's answer |
| TransactionService.FindCategory | internal/services/transaction_service.go:77-83 | a category lookup fails exactly when the store call fails, and otherwise returns CategoryRepository.GetByID's answer |
| TransactionService.FindTransaction | internal/services/transaction_service.go:147-153 | a transaction lookup fails exactly when the store call fails, and otherwise returns TransactionRepository.GetByID's answer |
| TransactionService.CheckDestination | internal/services/transaction_service.go:51-69 | an accepted transfer is persisted with its category cleared |
| TransactionService.CheckCategory | internal/services/transaction_service.go:70-89 | an accepted income or expense is persisted as requested |
| TransactionService.CheckCreate | internal/services/transaction_service.go:31-94 | an unknown type is rejected first; an accepted request keeps its type, and a transfer loses its category |
| TransactionService.CheckCreateMeaning | internal/services/transaction_service.go:31-94 | without failing lookups, the create checks accept exactly the admissible requests: known type, own source account, for a transfer a distinct existing destination, otherwise an existing category of the same type or "both", and enough source balance for a debit |
| TransactionService.CheckCreateNeedsAdmissible | internal/services/transaction_service.go:31-94 | failing lookups can only turn an acceptance into a rejection, never the reverse |
| TransactionService.CheckCreateOrder | internal/services/transaction_service.go:31-94 | each rejection implies every earlier check passed: type, then source account, then the transfer or category checks, then the balance; the destination balance is never checked |
| TransactionService.CreateTransaction | internal/services/transaction_service.go:30-110 | a rejection writes nothing; a success stores the new transaction and applies exactly its effect to the balances; a failed balance update leaves the transaction stored and reports the failure; an admissible request with no failing store call succeeds |
| TransactionService.CheckUpdate | internal/services/transaction_service.go:146-208 | the update proceeds only for an existing (id, owner) transaction and a valid new type; a missing one is TransactionNotFound |
| TransactionService.CheckNewType | internal/services/transaction_service.go:155-175 | a patch that passes the type checks carries a known type, if any |
| TransactionService.UpdateTransaction | internal/services/transaction_service.go:145-230 | a rejection by the checks writes nothing; a missing transaction is TransactionNotFound; categories are never touched |
| TransactionService.UpdateSucceeded | internal/services/transaction_service.go:210-229 | a successful update returns the patched transaction, writes the patch, and leaves the balances with the old effect reverted and the new one applied |
| TransactionService.UpdateRevertFailed | internal/services/transaction_service.go:210-213 | a failed revert aborts with the transaction unwritten and, unless its own compensation failed, no balance moved |
| TransactionService.UpdateStoreFailed | internal/services/transaction_service.go:215-221 | a failed write re-applies the old effect, which restores every balance when no increment fails |
| TransactionService.UpdateBalanceFailed | internal/services/transaction_service.go:223-227 | a failed application of the new effect leaves the patch written and, without further failures, the old effect reverted: the stored transaction and the balances disagree |
| TransactionService.UpdateWrote | internal/services/transaction_service.go:210-229 | an update that got past the revert and the write has applied the new effect to the reverted balances, and succeeds exactly when that application does |
| TransactionService.UpdatedStillFound | internal/repositories/transaction_repository.go:234-297 | the patched document is still found under its id and owner |
| TransactionService.UpdateAllowsSelfTransfer | internal/services/transaction_service.go:155-208 | the update path does not check self-transfers or balances: an expense can be turned into a transfer from its account to itself |
| TransactionService.CreateRefusesSelfTransfer | internal/services/transaction_service.go:55-57 | the create path refuses that same self-transfer |
| TransactionService.CallsBound | internal/services/transaction_service.go:332-389 | one apply or revert issues at most three balance increments |
| TransactionService.DeleteOutcome | internal/services/transaction_service.go:233-257 | a missing transaction is TransactionNotFound with nothing written; a success removes exactly that document and reverts its effect; a failed revert deletes nothing and, unless its compensation failed, moves no balance; a failed delete re-applies the effect, restoring every balance when no increment fails |
| TransactionService.BulkUpdateCategory | internal/services/transaction_service.go:260-277 | an unknown category is rejected with nothing written; a success recategorises exactly the owner's listed non-transfers and returns their count; balances never change |
| TransactionService.LoadAll | internal/services/transaction_service.go:282-291 | the loaded transactions are the owner's stored ones with listed ids whose lookup did not fail; distinct ids load distinct transactions |
| TransactionService.BulkDelete | internal/services/transaction_service.go:280-312 | on success exactly the owner's listed transactions are gone and the store's count is returned; on failure no transaction is removed |
| TransactionService.BulkDeleteBalances | internal/services/transaction_service.go:283-309 | with no failing increment, a successful bulk delete as written leaves the balances with every loaded transaction reverted (a repeated id once per listing), and a failed one restores every balance |
| TransactionService.ReconcileAllClean | internal/services/transaction_service.go:294-307 | with no failing increment, reverting or re-applying a list of transactions shifts the balances by each of their effects |
| TransactionService.LoadAllFinds | internal/services/transaction_service.go:283-291 | with no failing lookup, every listed id the owner holds is loaded |
| TransactionService.RevertEachKeepsAll | internal/services/transaction_service.go:294-299 | with no failing increment and no transfer lacking a destination, every revert succeeds |
| TransactionService.WhereAgree | internal/repositories/transaction_repository.go:345-360 | two id sets that agree on the owner's transactions delete and count the same transactions |
| TransactionService.BulkDeleteAgreesOnOrdinaryInput | internal/services/transaction_service.go:280-312 | with distinct listed ids, distinct stored ids, no failing lookup or increment, and every loaded transfer with a destination, the bulk delete as written and the corrected one give the same balances, store and count |
| TransactionService.CleanStep | internal/services/transaction_service.go:342-355 | when no two consecutive increments fail, a failed apply or revert leaves every balance as before |
| TransactionService.RevertEach | internal/services/transaction_service.go:294-299 | the transactions whose revert succeeded are among those given, and when no two consecutive increments fail the balances are exactly their effects reverted |
| TransactionService.ReapplyClean | internal/services/transaction_service.go:305-307 | without failures, re-applying a list of transactions shifts the balances forward by each of their effects |
| TransactionService.BulkDeleteFixed | internal/services/transaction_service.go:280-312 | the corrected bulk delete removes exactly the transactions it reverted and nothing when the delete fails |
| TransactionService.BulkDeleteFixedDeletesReverted | internal/services/transaction_service.go:280-312 | the corrected bulk delete reverts each listed transaction once and deletes exactly those; the balances lose exactly their effects unless two consecutive increments fail; a failed delete without failing increments restores every balance |
| TransactionService.FixedDeletesExactly | internal/services/transaction_service.go:302 | after a successful corrected bulk delete a stored transaction is gone exactly when it was reverted |
| TransactionService.BulkDeleteRevertsDuplicatesTwice | internal/services/transaction_service.go:283-302 | an id listed twice is reverted twice but deleted once, so the account loses the income twice |
| TransactionService.BulkDeleteFixedRevertsOnce | internal/services/transaction_service.go:283-302 | the corrected bulk delete reverts a repeated id once |
| TransactionService.BulkDeleteSkipsFailedLookups | internal/services/transaction_service.go:284-287 | a transaction whose lookup failed is deleted without being reverted, so its income stays on the account; the corrected version keeps it |
| TransactionService.BulkDeleteReappliesUnreverted | internal/services/transaction_service.go:295-307 | a transaction whose revert failed is re-applied when the delete fails, so its income is counted twice; the corrected version restores the balance |
| TransactionService.GetTransaction | internal/services/transaction_service.go:113-122 | the result is the owner's stored transaction with that id; with a working lookup it fails exactly when there is none |
| TransactionService.RecentLimit | internal/services/transaction_service.go:316-321 | a non-positive limit becomes 5, one above 50 becomes 50, and anything in 1..50 is kept |
| TransactionService.GetRecentTransactions | internal/services/transaction_service.go:315-324 | a store failure is reported; otherwise the first min(adjusted limit, owned) of the owner's transactions newest first, never more than 50, with none left out newer than one returned |
| TransactionService.GetAllTransactions | internal/services/transaction_service.go:125-142 | with the paging defaulted, the response carries the repository's page as its data, the defaulted page and limit, the repository's count of matches and just enough pages of that limit to hold them; a store error fails the call |
| TransactionService.SinglePageHoldsAll | internal/services/transaction_service.go:125-142 | on page one with a limit no smaller than the number of matches, the data holds every match and the page count is at most one |
| TransactionService.Paged | internal/services/transaction_service.go:130-141 | the page count is the least number of pages of `limit` items that holds the total |
| Calendar.NormalizeMonth | internal/repositories/transaction_repository.go:140-143 | a month number out of 1..12 carries into the year, and the absolute month count is unchanged |
| Calendar.MonthStartsIncrease | internal/repositories/transaction_repository.go:140-143 | whatever the month number, the first instant of the following month comes strictly later |
| Calendar.MonthLength | internal/services/report_service.go:415-418 | the next month starts exactly the month's number of days after this one |
| Calendar.MonthRange | internal/services/report_service.go:404-421 | the range opens at midnight of the first, closes one second before the next month starts, and that last second falls on the month's last day |
| Calendar.WeekStart | internal/services/report_service.go:393-401 | the result is a midnight falling on a Monday, no later than the instant and less than a week before it |
| Calendar.MondayBack | internal/services/report_service.go:394-399 | stepping back weekday - 1 days, with Sunday counted as the seventh day, lands on a Monday no more than six days back |
| Calendar.ParseYearMonth | internal/services/report_service.go:404-413 | a month string parses exactly when it is four digits, a dash and a month 01..12, and then gives that year and month |
| Calendar.ParseDate | internal/repositories/transaction_repository.go:112-124 | a date string parses exactly when it has the YYYY-MM-DD shape and names a day that exists, and then gives that day |
| Calendar.FormatParseRoundTrip | internal/services/budget_service.go:183-184 | a formatted date parses back to the same day |
| Password.ValidatePassword | internal/utils/password.go:22-45 | fewer than 8 bytes is refused; otherwise the password is accepted exactly when it has an upper-case letter, a lower-case letter and a digit |
| Password.UnclassifiedNeutral | internal/utils/password.go:33-42 | a character outside the three classes sets no flag and only adds its byte width |
| Password.UnclassifiedIrrelevant | internal/utils/password.go:22-45 | once the password is 8 bytes long, extra unclassified characters neither help nor hurt |
| Password.AsciiLength | internal/utils/password.go:24 | on ASCII text the 8-byte bound is an 8-character bound |
| Password.ShortInRunesAccepted | internal/utils/password.go:24 | the length is counted in bytes, so a six-character password with three two-byte letters is accepted |
| Password.NoDigitRefused | internal/utils/password.go:39-44 | eight letters with no digit are refused |
| Durations.Wrap64 | internal/utils/jwt.go:96-100 | the result is in int64 range, agrees with the input modulo 2^64, and equals it when it is already in range |
| Durations.WrapShift | internal/utils/jwt.go:96-100 | wrapping ignores whole multiples of 2^64 |
| Durations.WrapMul | internal/utils/jwt.go:96 | wrapping an intermediate product does not change the wrapped final product |
| R2Storage.ValidateFile | internal/utils/r2_storage.go:107-132 | too large is refused first, then a missing content type; otherwise the file passes exactly when some allowed type is a prefix of its content type |
| R2Storage.PrefixAcceptance | internal/handlers/upload_handler.go:99-100 | "image/png+evil" passes the avatar types, "text/html" does not, and an empty allowed type admits everything |
| R2Storage.Ext | internal/utils/r2_storage.go:55 | the extension is empty or starts with the final dot of the last path element and is a suffix of the name |
| R2Storage.ExtExamples | internal/utils/r2_storage.go:55 | only the last extension counts, and a dot in a directory name does not |
| R2Storage.ObjectName | internal/utils/r2_storage.go:56 | the stored name starts with the UUID, a dash and the timestamp, and ends with the original extension |
| R2Storage.UploadKey | internal/utils/r2_storage.go:59-62 | without a folder the key is the name; with one, the key is exactly the folder trimmed of surrounding slashes, then a slash, then the name (a prefix, a suffix and the sum of their lengths) |
| R2Storage.FolderSlashesIgnored | internal/utils/r2_storage.go:61 | surrounding slashes on the folder do not change the key |
| R2Storage.PublicUrl | internal/utils/r2_storage.go:85 | the URL ends in a slash and the key, and is the base, a slash and the key when the base has no trailing slash |
| R2Storage.StoredContentType | internal/utils/r2_storage.go:65-68 | the stored content type is never empty and is the given one when there is one |
| R2Storage.UploadFile | internal/utils/r2_storage.go:47-88 | a URL is returned exactly when both the read and the put succeed, and it is the public URL of the key built from folder and name |
| R2Storage.DeleteKeyAsWritten | internal/utils/r2_storage.go:91-93 | the key is the URL without the configured base and one slash, or the whole URL when it does not start that way |
| R2Storage.DeleteKeyAsWrittenRoundTrip | internal/utils/r2_storage.go:85-93 | with a base that does not end in a slash, the delete recovers the key of every uploaded URL |
| R2Storage.DeleteKeyAsWrittenLosesKey | internal/utils/r2_storage.go:85-93 | with a base that ends in a slash, the delete never recovers the uploaded key |
| R2Storage.TrailingSlashExample | internal/utils/r2_storage.go:85-93 | base "cdn/" uploads "a.png" to "cdn/a.png", and the delete then asks for the key "cdn/a.png" |
| R2Storage.DeleteKey | internal/utils/r2_storage.go:85-93 | the corrected delete strips the base exactly as the upload wrote it |
| R2Storage.DeleteKeyRoundTrip | internal/utils/r2_storage.go:85-93 | the corrected delete recovers the key of every upload, whatever the base |
| R2Storage.DeleteKeyAgrees | internal/utils/r2_storage.go:85-93 | the corrected and as-written deletes agree whenever the base has no trailing slash |
| CategoryRepository.GetByID | internal/repositories/category_repository.go:52-68 | the category found has that id and that owner, and nothing is found exactly when no stored category has both |
| CategoryRepository.GetByIDAnyOwner | internal/services/category_service.go:37 | the category found has that id, whoever owns it, and nothing is found exactly when no stored category has it |
| CategoryRepository.AnyOwnerAgrees | internal/services/category_service.go:37-47 | with distinct ids, the lookup by id alone finds a category of the caller's exactly when the owner-scoped lookup finds one, and then it is the same category |
| CategoryRepository.CountChildren | internal/services/category_service.go:174-180 | the count of the owner's children of a category is zero exactly when no stored category of the owner names it as parent |
| CategoryRepository.Create | internal/repositories/category_repository.go:27-49 | a created category is appended with the new id, the caller as owner, the request's fields, and is never a default one; the write fails only on a store error |
| CategoryRepository.PatchCategory | internal/services/category_service.go:156 | each supplied field (name, type, parent, icon, colour) replaces the category's and each absent one is kept; id, owner and the default flag are kept |
| CategoryRepository.Update | internal/services/category_service.go:156 | the (id, owner) category comes back patched and the stored document is replaced by that patch, every other one kept; with no such category the store is unchanged and nothing is returned; a store failure writes nothing |
| CategoryRepository.UpdateThenGet | internal/services/category_service.go:156 | after an update that found its category, the id finds the patched category, the store keeps its size, and every category with another id is untouched |
| CategoryRepository.Delete | internal/repositories/category_repository.go:123-143 | exactly the owner's non-default category with that id is removed; when there is none the call reports no documents |
| CategoryService.CheckParent | internal/services/category_service.go:35-48 | no named parent passes; a failing parent lookup is a store error; otherwise a named parent that is missing or someone else's is reported as not found |
| CategoryService.CheckParentMeaning | internal/services/category_service.go:35-48 | with distinct ids, the parent check passes exactly when no parent is named, or the parent lookup succeeds and the named parent is the caller's |
| CategoryService.CreateCategory | internal/services/category_service.go:24-51 | the type is checked first, then the parent, whose lookup error is passed on; the category is created exactly when the type is income, expense or both, the parent check passes and the store write succeeds |
| CategoryService.CreatedCategoryWellFormed | internal/services/category_service.go:24-51 | every created category has an accepted type, is not a default one, and with distinct ids has no parent or one owned by the caller |
| CategoryService.UpdateCategory | internal/services/category_service.go:104-157 | a failing category lookup is a store error, then a missing category is reported, then a default one; a parent lookup error is passed on; a successful update is the repository's patch of that category |
| CategoryService.UpdateAccepted | internal/services/category_service.go:104-157 | a successful update had no failing lookup or write and was of the caller's non-default category, with an accepted type if one was given, and a new parent that is the caller's, is not the category itself and is not its direct child |
| CategoryService.ChainUpdate | internal/services/category_service.go:131-156 | with a above b above c, making c the parent of a passes every check and patches a alone |
| CategoryService.ThreeCycleAccepted | internal/services/category_service.go:150-153 | only cycles of length one and two are refused: the update closing the cycle a, c, b, a succeeds |
| CategoryService.PatchedChainParents | internal/services/category_service.go:150-156 | after that update a's parent is c, c's is b and b's is a |
| CategoryService.CountByCategory | internal/services/category_service.go:183-189 | the count of the caller's transactions in a category is zero exactly when none of them names it |
| CategoryService.IsCategoryInUse | internal/services/category_service.go:195-222 | it fails exactly when the category lookup, the child count or the transaction count fails; otherwise the report names the category, and it is in use exactly when it has a child of the caller's or a transaction of the caller's |
| CategoryService.DeleteCategory | internal/services/category_service.go:160-192 | a failing lookup is a store error, then a missing category is refused, then a default one, then a failing child count, one with children, a failing transaction count, one used by transactions, in that order |
| CategoryService.DeleteIffUnused | internal/services/category_service.go:160-222 | a category is deleted exactly when it is the caller's, not default, its usage check succeeds and reports it unused, and the write succeeds; it is then the only category that disappears |
| BudgetService.ParseMonthRange | internal/services/budget_service.go:220-234 | a month string gives a range exactly when it parses, and the range runs from the month's first instant to one second before the next month |
| BudgetService.SpendFilterMeaning | internal/services/budget_service.go:180-205 | the listing query selects exactly the owner's expenses dated within the month, in the budget's category when it has one |
| BudgetService.SpentIsCountedSum | internal/services/budget_service.go:178-216 | the intended spent amount is the sum of the month's counted expenses taken directly over the store |
| BudgetService.SpentFirstPageOnly | internal/services/budget_service.go:188-212 | with positive amounts, the spent amount as written equals the intended one exactly when the month has at most 10 matching expenses, and falls short beyond that |
| BudgetService.ElevenExpensesCountTen | internal/services/budget_service.go:188-212 | eleven expenses of one in March 2024 count as 10 as written, and as 11 as intended |
| BudgetService.ElevenFirstPage | internal/services/budget_service.go:188-195 | the single default page the listing returns holds ten of the eleven expenses |
| BudgetService.ElevenSelected | internal/services/budget_service.go:182-188 | the March listing query selects every one of the eleven expenses |
| BudgetService.GetByID | internal/repositories/budget_repository.go:54-70 | the budget found has that id and owner, and nothing is found exactly when no stored budget has both |
| BudgetService.FindSlot | internal/repositories/budget_repository.go:101-130 | the budget found is in the caller's (month, scope, category) slot, and nothing is found exactly when the slot is empty |
| BudgetService.Reconfigured | internal/repositories/budget_repository.go:133-173 | only the (id, owner) budget changes, and it takes the request's settings |
| BudgetService.ReconfiguredFinds | internal/repositories/budget_repository.go:133-173 | after the update the budget's id finds it with the request's settings, and a missing budget stays missing |
| BudgetService.WithSpent | internal/repositories/budget_repository.go:176-194 | only the (id, owner) budget changes, and only its spent amount |
| BudgetService.WithSpentFinds | internal/repositories/budget_repository.go:176-194 | after the spent update the budget's id finds it with the new amount, and a missing budget stays missing |
| BudgetService.Reconfigure | internal/services/budget_service.go:59-65 | the upsert's update sets the limit and the alert flag, sets the threshold only when one is given, and keeps identity, slot and spent amount |
| BudgetService.NewBudget | internal/repositories/budget_repository.go:27-51 | a new budget takes the request's slot and settings, the caller as owner, and has spent nothing |
| BudgetService.UpdateBudgetSpent | internal/services/budget_service.go:163-217 | a failing budget lookup is a store error, a missing budget and an unparsable month are errors, a failing listing (when the budget has a scope) or spent write is a store error; otherwise the budget's spent amount becomes the sum over the single listing page of its month and scope |
| BudgetService.SpentOf | internal/services/budget_service.go:178-213 | as intended, a budget with a parsable month and a known scope has spent the counted sum of every matching expense; any other scope has spent nothing |
| BudgetService.SpendQuery | internal/services/budget_service.go:178-205 | a budget has a listing to sum exactly when its month parses and its scope is known; the listing's year and month are then in range |
| BudgetService.SpentOfAsWritten | internal/services/budget_service.go:178-213 | a budget without a listing to sum has spent nothing |
| BudgetService.SpentOfAsWrittenMeaning | internal/services/budget_service.go:188-212 | with positive amounts, what UpdateBudgetSpent stores equals the intended spent amount exactly when the listing has at most 10 matches and falls short beyond that; without a listing both are zero |
| BudgetService.CheckScope | internal/services/budget_service.go:32-50 | a category budget must name a category and a total budget must not; a named category's failing lookup is a store error, and otherwise it must be the caller's |
| BudgetService.Upsert | internal/services/budget_service.go:52-82 | the budget already in the slot is reconfigured in place; otherwise a new budget is appended under the new id |
| BudgetService.UpsertShape | internal/services/budget_service.go:52-82 | the upsert's write keeps the store's size and reconfigures the budget in a taken slot, and otherwise adds exactly one new budget |
| BudgetService.CreateOrUpdateBudget | internal/services/budget_service.go:31-90 | a scope error, a failing slot lookup or a failing write leaves the budgets unchanged and is reported; a success either filled an existing slot or used a fresh id |
| BudgetService.AppendedFound | internal/services/budget_service.go:79-89 | a budget appended under a fresh id is the one its id finds |
| BudgetService.SlotFound | internal/services/budget_service.go:53-75 | with distinct ids, the budget found in the slot is the one its id finds |
| BudgetService.UpsertFinds | internal/services/budget_service.go:52-89 | after the write, the budget's id finds the reconfigured or the new budget |
| BudgetService.UpsertRespectsScope | internal/services/budget_service.go:31-90 | a successful upsert had no failing write, obeys the scope rules, names only the caller's category, and has a month that parses |
| BudgetService.UpsertStores | internal/services/budget_service.go:31-90 | a successful upsert without store failures stores the slot's budget with its spent amount recomputed over the single listing page, and returns it |
| BudgetService.UpsertNoDuplicate | internal/services/budget_service.go:52-89 | with distinct ids the upsert never duplicates a slot: an existing budget keeps the store's size and takes the new settings with the first-page spent amount; otherwise exactly one budget is added |
| BudgetService.BadMonthStillWritten | internal/services/budget_service.go:52-89 | the month is not checked before the write: a budget whose month does not parse is still stored, and the call then fails |
| BudgetService.FailureAfterWriteKeepsIt | internal/services/budget_service.go:70-89 | when the budget's lookup or the spent write fails after the upsert's write, the written budget stays stored and the call reports a store error |
| ReportService.CountsPartition | internal/services/report_service.go:38-49 | every transaction is an income, an expense or a transfer, so the three counts add up to the list's length |
| ReportService.TotalsAppend | internal/services/report_service.go:38-49 | the count and total of each type over two lists together are the sums over each list |
| ReportService.SavingRate | internal/services/report_service.go:51-55 | with income, the rate times income is 100 times the net saving, positive exactly when saving is positive and 100 exactly when nothing was spent; without income it is 0 |
| ReportService.PercentageChange | internal/services/report_service.go:117-125 | from zero the change is 100 when the new value is positive and 0 otherwise; from a non-zero value it is the difference in percent of the old value, positive exactly when a positive value grew |
| ReportService.Compare | internal/services/report_service.go:81-114 | a failed fetch of the previous period gives zero changes; otherwise each change is the percentage change from the previous period's income, expense and saving |
| ReportService.GetOverview | internal/services/report_service.go:28-78 | transfers are neither counted nor totalled; net saving is income minus expense; the daily average spreads the expense over the period's days, a zero-length period counting as one day; the comparison is the change from the previous period's totals, or zero when that fetch failed |
| ReportService.TransferChangesNothing | internal/services/report_service.go:39-41 | adding a transfer to the period changes nothing in the overview |
| ReportService.OverviewAdds | internal/services/report_service.go:35-51 | the overview of two lists together adds up their counts, incomes and expenses |
| ReportService.CountForZero | internal/services/report_service.go:139-158 | a key counts zero expenses exactly when no counted expense carries it |
| ReportService.Find | internal/services/report_service.go:147 | the row found carries the key, and none is found exactly when no row does |
| ReportService.AddTo | internal/services/report_service.go:147-158 | one expense opens or bumps the row of its key, keeps keys distinct and leaves every other key's row alone |
| ReportService.AddToTotal | internal/services/report_service.go:144-158 | adding an expense to the rows raises their total by its amount |
| ReportService.Group | internal/services/report_service.go:136-159 | the rows have distinct keys, and the row under each key holds the amount and count of the counted expenses carrying it, or is absent when there are none |
| ReportService.GroupTotal | internal/services/report_service.go:137-159 | the rows add up to the amount of all counted expenses |
| ReportService.InsertDesc | internal/services/report_service.go:183-189 | inserting a row into a descending list keeps it descending and adds exactly that row |
| ReportService.SortDesc | internal/services/report_service.go:183-189 | the sorted rows are a permutation of the rows, with amounts descending |
| ReportService.Breakdown | internal/services/report_service.go:128-192 | the category breakdown is the grouping of the counted expenses, permuted into descending amounts |
| ReportService.BreakdownMeaning | internal/services/report_service.go:195-245 | a row is in a breakdown exactly when it holds the amount and count of the expenses under its key, and a key has a row exactly when some counted expense carries it |
| ReportService.BreakdownDistinct | internal/services/report_service.go:136-147 | no key has two rows in a breakdown |
| ReportService.ReportMonthRange | internal/services/report_service.go:403-421 | a string whose UTF-8 encoding is not 7 bytes with '-' at byte 4 is refused as badly formatted; otherwise the range exists exactly when the month parses, and runs from its first instant to its last second, less than 31 days later |
| ReportService.ShapeBytes | internal/services/report_service.go:404 | a string in the "2006-01" shape is ASCII: its encoding is 7 bytes with '-' at byte 4, so the byte pre-check never refuses a parsable month |
| ReportService.PreCheckCountsBytes | internal/services/report_service.go:404-411 | "2024-0é" (7 characters, 8 bytes) is refused as badly formatted, and "2024-é" (6 characters, 7 bytes) passes the pre-check and fails the layout |
| ReportService.Weeks | internal/services/report_service.go:278-315 | one window per seven days from the week start while the week starts no later than the month's end |
| ReportService.WeeksCapped | internal/services/report_service.go:309-314 | the capped loop yields a prefix of the uncapped weeks, no longer than the cap |
| ReportService.WeekWindowsAsWritten | internal/services/report_service.go:275-315 | the weeks as the reports' loops produce them are never more than five |
| ReportService.AtMostSixWeeks | internal/services/report_service.go:275-315 | a range of less than 31 days touches at most six Monday-to-Sunday weeks |
| ReportService.WeeksLength | internal/services/report_service.go:278-315 | the uncapped loop yields one week per seven days from the first week's start up to the range's end, the last one possibly partial |
| ReportService.CapHarmlessWhenShort | internal/services/report_service.go:312-314 | when the month ends before a sixth week would start, the five-week cap changes nothing |
| ReportService.SplitWindow | internal/services/report_service.go:282-300 | a window cut in two tallies what its halves tally |
| ReportService.WeeksCover | internal/services/report_service.go:278-300 | the weeks from a week start together tally exactly what lies between the later of it and the month's start, and the month's end |
| ReportService.WeekWindowsCoverMonth | internal/services/report_service.go:275-315 | the uncapped weekly windows of a month tally every selected transaction of the month exactly once |
| ReportService.CappedIsShorterStretch | internal/services/report_service.go:278-315 | the weeks of a loop that stops after n weeks are the uncapped weeks of the stretch ending with the n-th week, or at the range's end if that comes first |
| ReportService.WeekWindowsAsWrittenCover | internal/services/report_service.go:275-315 | the weeks the loop visits tally the selected transactions from the month's start to the end of the fifth week, or to the month's end if that comes first |
| ReportService.SeptemberLosesLastDay | internal/services/report_service.go:312-314 | September 2024 touches six weeks; the capped loop stops after the week ending the 29th, so an expense on the 30th is in no week, while the uncapped weeks count it |
| ReportService.SeptemberDays | internal/services/report_service.go:275 | the 1st and 30th of September 2024 fall on day numbers 19967 and 19996, and the week of the 1st starts on day 19961 |
| ReportService.AfterEveryWindow | internal/services/report_service.go:294-300 | a transaction dated after every window is counted in none of them |
| ReportService.GetWeeklySpending | internal/services/report_service.go:248-318 | it succeeds exactly when the month parses; then at most five rows, one per week the loop visits, named week_1 onward, each holding the amount and count of the selected expenses dated within that week |
| ReportService.GetWeeklySpendingIntended | internal/services/report_service.go:275-315 | the intended weekly spending: it succeeds exactly when the month parses; then one row per week the month touches, at most six, each holding the amount and count of the week's selected expenses |
| ReportService.SpendingRows | internal/services/report_service.go:291-307 | one row per window, named by its position, holding that window's tally |
| ReportService.GetWeeklyCashflow | internal/services/report_service.go:321-390 | it succeeds exactly when the month parses; then at most five rows, one per week the loop visits, each holding the week's income and expense, transfers left out, and their difference |
| ReportService.CashflowRows | internal/services/report_service.go:360-379 | one row per window, named by its position, with its income, expense and their difference |
| ReportService.WeeklySpendingAddsUp | internal/services/report_service.go:275-315 | the intended weekly rows, over every week the month touches, add up to the month's selected expenses, so nothing is lost or counted twice |
| ReportService.WeeklySpendingThroughFifthWeek | internal/services/report_service.go:248-318 | the weekly spending rows as written add up to the month's selected expenses up to the end of the fifth week, which is the whole month when the month ends within five weeks |
| ReportService.CashflowExpenseIsSpending | internal/services/report_service.go:248-390 | the cash-flow table has as many rows as the uncategorised spending table, with the same week names, and each expense column equals the spending amount |
| ReportService.RowsMatchWindows | internal/services/report_service.go:291-307 | rows holding their windows' tallies add up to the windows' combined tally |
| Jwt.NumericDate | internal/utils/jwt.go:30-32 | a date claim is the time truncated to the whole second below it |
| Jwt.TokenClaims | internal/utils/jwt.go:24-34 | the claims carry the user and email, are issued and valid from the second of `now`, and expire at the second of `now` plus the lifetime |
| Jwt.WholeSecondLifetime | internal/utils/jwt.go:30-32 | with a lifetime of whole seconds, expiry is exactly that many seconds after issue |
| Jwt.RefreshTokenSpan | internal/utils/jwt.go:41-43 | a refresh token expires seven days after issue, to the second |
| Jwt.SkipSpace | internal/utils/jwt.go:89 | scanning skips leading blanks, and a newline among them is an error |
| Jwt.DigitRun | internal/utils/jwt.go:89 | the run is a prefix of digits that the next character does not extend |
| Jwt.ScanInt | internal/utils/jwt.go:88-92 | a value read by the %d scan is in int64 range, and no value is read when the leading space holds a newline |
| Jwt.ScanPadded | internal/utils/jwt.go:88-92 | a zero-padded numeral followed by a non-digit reads as its value |
| Jwt.ScanSkipsBlank | internal/utils/jwt.go:89 | a leading blank does not change what is read |
| Jwt.ScanRefusesNewline | internal/utils/jwt.go:89 | a leading newline makes the scan fail |
| Jwt.UnitOf | internal/utils/jwt.go:94-101 | exactly d, h and m are units, each at least a minute |
| Jwt.Scaled | internal/utils/jwt.go:95-100 | the count times its unit, wrapped to int64 |
| Jwt.ParseTokenDuration | internal/utils/jwt.go:71-105 | the empty string gives 24 hours; what Go's duration parser accepts is taken as is; otherwise a string of at least two bytes whose last character is a unit and whose rest scans as an integer gives the scaled value, and anything else is the invalid-format error |
| Jwt.CustomRoundTrip | internal/utils/jwt.go:83-101 | a count written in decimal and followed by a unit parses back to the count times the unit, wrapped to int64 |
| Jwt.CustomExact | internal/utils/jwt.go:83-101 | when the product fits in int64 the round trip is exact |
| Jwt.SevenDays | internal/utils/jwt.go:95-96 | "7d" parses to the refresh-token lifetime |
| Jwt.HugeDayCountWraps | internal/utils/jwt.go:96 | "106752d" parses without error to a negative lifetime, because the product overflows int64 nanoseconds |
| Jwt.RefusedSingleByte | internal/utils/jwt.go:84 | a single byte that Go's parser refuses is refused |
| Jwt.RefusedNonNumeric | internal/utils/jwt.go:89-92 | a count that is not a number is refused |
| Jwt.RefusedNoUnit | internal/utils/jwt.go:94-104 | a number without a unit is refused |
| Jwt.AccessLifetime | internal/services/auth_service.go:311-314 | a configured lifetime the parser refuses falls back to 24 hours; otherwise it is the parsed value |
| VietQr.ToLower | internal/utils/vietqr.go:131-141 | the result has the input's length, no A-Z, and each character is the lower-cased one |
| VietQr.ToLowerIdempotent | internal/utils/vietqr.go:131-141 | lower-casing twice is lower-casing once |
| VietQr.ToLowerExact | internal/utils/vietqr.go:134-138 | the result has no A-Z, and every other character is left alone |
| VietQr.ToLowerAsWritten | internal/utils/vietqr.go:131-141 | the rune slice is indexed by byte offset, so the call panics exactly when a rune before the last is not ASCII; otherwise it lower-cases correctly |
| VietQr.VietnameseNamePanics | internal/utils/vietqr.go:131-141 | a bank name with a Vietnamese letter before its end makes the as-written lower-casing panic |
| VietQr.Contains | internal/utils/vietqr.go:143-154 | the byte search finds the query exactly when it occurs in the text |
| VietQr.ContainsEmpty | internal/utils/vietqr.go:143-154 | the empty query is contained in every text |
| VietQr.AsciiContains | internal/utils/vietqr.go:143-154 | on ASCII text, searching the bytes is searching the characters |
| VietQr.SearchBanks | internal/utils/vietqr.go:110-128 | every bank returned is from the list and matches, and every bank whose lower-cased name, code or short name contains the lower-cased query is returned |
| VietQr.SearchBanksConcat | internal/utils/vietqr.go:119-125 | searching two lists together concatenates their results |
| VietQr.HitsAsWritten | internal/utils/vietqr.go:119-125 | the fields are lowered left to right only until one matches, and a panicking lowering ends the request |
| VietQr.SearchBanksAsWritten | internal/utils/vietqr.go:110-128 | whenever the search as written does not panic, it returns the intended result |
| VietQr.AsWrittenAgrees | internal/utils/vietqr.go:110-141 | with no non-ASCII rune before the end of any field or the query, the search as written returns the intended result |
| VietQr.SearchPanics | internal/utils/vietqr.go:117-122 | a search over a list holding "Ngân hàng A" panics whatever the query |
| VietQr.FirstWith | internal/utils/vietqr.go:84-90 | the bank found is the first in list order with that field value, and none is found exactly when no bank has it |
| VietQr.GetBankByCode | internal/utils/vietqr.go:78-91 | a failed fetch is passed on; otherwise the first bank with that code, or not found exactly when no bank has it |
| VietQr.GetBankByBin | internal/utils/vietqr.go:94-107 | a failed fetch is passed on; otherwise the first bank with that BIN, or not found exactly when no bank has it |
| VietQr.FoundByOwnKey | internal/utils/vietqr.go:84-106 | a bank is found by its own code or BIN whenever no earlier bank shares it |
| Middleware.UserIdOf | internal/middleware/middleware.go:43-48 | a user id is set exactly when the subject claim is present and is a string, and it is that string |
| Middleware.Authenticate | internal/middleware/middleware.go:13-52 | an empty header is refused as missing and one without the "Bearer " prefix as badly formatted; the request proceeds exactly when the prefix is there and the rest parses to a valid token, with the subject as user id |
| Middleware.TrimChanges | internal/middleware/middleware.go:24-25 | removing a non-empty prefix changes the header exactly when the prefix is there, so the format test is a prefix test |
| Middleware.BearerRoundTrip | internal/middleware/middleware.go:24-47 | a header built as "Bearer " plus a token hands exactly that token to the parser, and the outcome is the parser's |
| Middleware.SchemeIsExact | internal/middleware/middleware.go:24-29 | "bearer abc" and "Bearer" without its space are refused as badly formatted |
| Middleware.NonStringSubjectPasses | internal/middleware/middleware.go:43-50 | a valid token whose subject is not a string still passes, with no user id set |
| Middleware.OriginAllowed | internal/middleware/middleware.go:60-66 | the scan allows an origin exactly when "*" or that origin is configured |
| Middleware.Cors | internal/middleware/middleware.go:55-82 | a refused origin gets no headers, an allowed one is echoed with the credential, header and method settings; OPTIONS requests, and only they, end with 204 |
| Middleware.WildcardEchoesEveryOrigin | internal/middleware/middleware.go:62-70 | with "*" configured every origin, the empty one included, is echoed back with credentials allowed |
| Middleware.RefusedPreflight | internal/middleware/middleware.go:68-77 | a preflight from a refused origin still ends with 204, without any header |
| RateLimiter.NewLimiter | internal/middleware/rate_limiter.go:29-40 | a new limiter has no visitors and the given rate and period |
| RateLimiter.KeptMembers | internal/middleware/rate_limiter.go:69-76 | exactly the stored times strictly after the cutoff survive the filter |
| RateLimiter.Step | internal/middleware/rate_limiter.go:60-86 | a call records its time as last seen, drops stored requests at or before now minus the period, and is accepted exactly when fewer than `rate` remain, in which case now is stored |
| RateLimiter.Allow | internal/middleware/rate_limiter.go:43-86 | the call's visitor is found or created and stepped; every other visitor is untouched |
| RateLimiter.AllowBounded | internal/middleware/rate_limiter.go:60-86 | no call ever leaves a visitor storing more than `rate` requests |
| RateLimiter.NewBounded | internal/middleware/rate_limiter.go:29-40 | a fresh limiter respects that bound |
| RateLimiter.FirstCallAccepted | internal/middleware/rate_limiter.go:47-54 | with a positive rate, a new visitor's first call is accepted |
| RateLimiter.NonPositiveRateRefuses | internal/middleware/rate_limiter.go:79-81 | with a rate of zero or less every call is refused |
| RateLimiter.Cleanup | internal/middleware/rate_limiter.go:95-101 | a pass keeps exactly the visitors seen within the last 10 minutes, unchanged |
| RateLimiter.CleanupIdempotent | internal/middleware/rate_limiter.go:95-101 | a second pass at the same time removes nothing more |
| RateLimiter.CleanupKeepsCurrent | internal/middleware/rate_limiter.go:89-104 | a pass keeps the bound and never drops the visitor of a call made at that time |
| RateLimiter.KeptWindow | internal/middleware/rate_limiter.go:69-76 | filtering the accepted times again at a later cutoff gives the later window |
| RateLimiter.ReplayBounded | internal/middleware/rate_limiter.go:60-86 | however the calls are timed, no visitor stores more than `rate` requests |
| RateLimiter.ReplayState | internal/middleware/rate_limiter.go:60-86 | for calls in time order, the stored list after each call is exactly the accepted call times within the period ending at that call |
| RateLimiter.ReplayPrefix | internal/middleware/rate_limiter.go:60-86 | the decisions for the first calls do not depend on later calls |
| RateLimiter.SlidingWindow | internal/middleware/rate_limiter.go:60-86 | at every call, the calls accepted within the period ending at it, that call included, number at most `rate` |
| RateLimiter.BurstStored | internal/middleware/rate_limiter.go:69-85 | for calls of a new visitor within one period, the stored times are those of the first `rate` calls |
| RateLimiter.BurstDecisions | internal/middleware/rate_limiter.go:79-85 | in such a burst exactly the first `rate` calls are accepted |
| RateLimiter.BurstLast | internal/middleware/rate_limiter.go:79-85 | the last call of a burst is accepted exactly when fewer than `rate` came before it |
| RateLimiter.StrictSixthRefused | internal/middleware/rate_limiter.go:130-133 | under the five-per-minute preset the first five calls within a minute pass and the sixth is refused |
| UserRepository.FirstIndex | internal/repositories/user_repository.go:65-113 | the index found is that of the first user the key matches, and none is found exactly when no user matches |
| UserRepository.Find | internal/repositories/user_repository.go:65-113 | a store failure is reported as such; otherwise a user is found exactly when one matches the id, email or Google id, and it is a stored match; the only errors are not-found and the store failure |
| UserRepository.FindByIdUnique | internal/repositories/user_repository.go:65-79 | with distinct ids, the user found by id is the only stored user with that id |
| UserRepository.Prepared | internal/repositories/user_repository.go:40-54 | the stored user gets the generated id when none was given, both timestamps set to now, the "email" provider when none was given, and is active; every other field is the caller's |
| UserRepository.Create | internal/repositories/user_repository.go:33-62 | a working look-up that finds the email refuses the user as a duplicate; a success appends the prepared user; the look-up's own failure is ignored |
| UserRepository.CreateThenFind | internal/repositories/user_repository.go:33-96 | a created user is found again by id and by email, and ids stay distinct |
| UserRepository.DuplicateEmailRefused | internal/repositories/user_repository.go:34-38 | while look-ups work, a second registration with a stored email is refused |
| UserRepository.LookupFailureAdmitsDuplicate | internal/repositories/user_repository.go:35 | when the email look-up fails, a second user with the same email is stored |
| UserRepository.Modify | internal/repositories/user_repository.go:116-243 | the users with the id are transformed and every other user is kept |
| UserRepository.UpdateOne | internal/repositories/user_repository.go:116-133 | a store failure or an unknown id is an error; otherwise the write transforms exactly the users with the id |
| UserRepository.Update | internal/repositories/user_repository.go:116-133 | only the user with the id changes, taking the supplied fields and the update time |
| UserRepository.UpdatePassword | internal/repositories/user_repository.go:136-155 | only the user with the id changes, and only its hash and update time |
| UserRepository.UpdateLastLogin | internal/repositories/user_repository.go:158-178 | only the user with the id changes, its last login and update time both becoming now |
| UserRepository.LinkGoogleAccount | internal/repositories/user_repository.go:181-205 | only the user with the id changes: the Google id, the "google" provider and the update time are set, the avatar is replaced only by a present non-empty URL, and the password hash and email are kept |
| UserRepository.LinkKeepsPassword | internal/repositories/user_repository.go:181-205 | a user who links Google keeps the password hash and is found by id with the new Google id |
| UserRepository.Delete | internal/repositories/user_repository.go:208-227 | the delete is soft: the user with the id stays, marked inactive with a new update time |
| UserRepository.SoftDeleteKeepsRecord | internal/repositories/user_repository.go:208-227 | after a soft delete the user is still found by id, inactive, and every email is found exactly as before |
| UserRepository.HardDelete | internal/repositories/user_repository.go:230-243 | the user with the id is gone, every other user is kept, and nothing is added; an unknown id is an error |
| UserRepository.ToUserProfile | internal/repositories/user_repository.go:246-257 | the profile carries the id, email, name, avatar, provider, verification flag, last login and creation time |
| UserRepository.ProfileIgnoresSecrets | internal/repositories/user_repository.go:246-257 | users that differ only in hash, Google id, active flag or update time have the same profile |
| UserRepository.PasswordChangeInvisible | internal/repositories/user_repository.go:136-155 | a password change is invisible in every profile |
| TokenRepository.Create | internal/repositories/verification_token_repository.go:33-49 | the token is appended with the generated id when none was given, the creation time, and marked unused; a store failure is the only error |
| TokenRepository.FirstNamed | internal/repositories/verification_token_repository.go:52-62 | the index found is that of the first token with that string and kind, and none is found exactly when there is no such token |
| TokenRepository.FindByToken | internal/repositories/verification_token_repository.go:52-79 | a missing token is not found; a found token past its expiry is expired, before its use is looked at; an unexpired used token is used; only an unexpired unused one is returned |
| TokenRepository.ExpiryBeforeUse | internal/repositories/verification_token_repository.go:69-76 | an expired token reports expiry whether or not it was used |
| TokenRepository.MarkAsUsed | internal/repositories/verification_token_repository.go:82-96 | the tokens with the id are marked used and nothing else changes; an unknown id is not found |
| TokenRepository.SingleUse | internal/repositories/verification_token_repository.go:52-96 | once the token a look-up returned is marked used, the same look-up fails then and at every later time |
| TokenRepository.Filter | internal/repositories/verification_token_repository.go:99-141 | exactly the tokens the condition accepts are kept |
| TokenRepository.DeleteByUserIDAndType | internal/repositories/verification_token_repository.go:99-107 | exactly that user's tokens of that kind are removed |
| TokenRepository.DeleteExpired | internal/repositories/verification_token_repository.go:110-117 | exactly the tokens expiring strictly before now are removed |
| TokenRepository.FindByUserIDAndType | internal/repositories/verification_token_repository.go:120-141 | exactly that user's unused tokens of that kind expiring strictly after now are listed |
| TokenRepository.DeleteThenNoneListed | internal/repositories/verification_token_repository.go:99-141 | after the deletion that user has no token of that kind to list |
| TokenRepository.ExpiryInstant | internal/repositories/verification_token_repository.go:69-141 | a token expiring exactly now is accepted by the look-up, not listed, and not deleted as expired |
| TokenRepository.CreateThenFind | internal/repositories/verification_token_repository.go:33-79 | a token created with a fresh string and a future expiry is found and returned |
| AuthService.WholeSeconds | internal/services/auth_service.go:335 | the lifetime reported in seconds is truncated toward zero: rounded down when non-negative and up when negative |
| AuthService.Respond | internal/services/auth_service.go:309-338 | the response carries the user's profile, an access token and a seven-day refresh token for that user issued now; the access token expires after the reported lifetime when it is non-negative, and the lifetime is 24 hours when none is configured |
| AuthService.NegativeLifetimeDisagrees | internal/services/auth_service.go:311-335 | a configured lifetime of minus half a second is reported as 0 seconds while the access token expires a second before issue |
| AuthService.NewEmailUser | internal/services/auth_service.go:62-112 | a registering user has the request's email and name, the password's hash, the email provider, an unverified active account and no Google id, avatar or last login |
| AuthService.Register | internal/services/auth_service.go:62-112 | mismatched passwords are refused first, then weak ones, then a working look-up that finds the email; a failure changes nothing; a success appends exactly one active, unverified email user with the password's hash and responds as a new user |
| AuthService.Login | internal/services/auth_service.go:115-145 | an unknown email is bad credentials; an inactive account is refused, then one without a password, then a wrong password as bad credentials; a success responds for the stored user, and a failure changes nothing |
| AuthService.LoginHidesRegistration | internal/services/auth_service.go:118-141 | an unregistered email and a wrong password get the same error |
| AuthService.RegisterThenLogin | internal/services/auth_service.go:62-145 | with a hasher whose hashes verify, a just-registered account logs in with the same email and password |
| AuthService.RefreshToken | internal/services/auth_service.go:148-168 | a refused token is invalid and any look-up error is an unknown user; the refresh succeeds exactly for a valid token of an existing active user, responding for that user, and changes no store |
| AuthService.GetUserProfile | internal/services/auth_service.go:298-306 | it fails, as an unknown user, exactly when the look-up fails or no user has the id; otherwise it is the profile of a stored user with that id |
| AuthService.ChangePassword | internal/services/auth_service.go:265-295 | a missing user, then a Google-only account, then a wrong old password, then a weak new one are refused in that order; a success stores the new hash for that user and nothing else, and a failure changes nothing |
| AuthService.ChangeThenLogin | internal/services/auth_service.go:265-295 | after a password change, an active user whose email finds them logs in with the new password |
| AuthService.NewGoogleUser | internal/services/auth_service.go:213-221 | a new Google user has the Google email, name, picture and subject, the google provider, Google's verification flag, no password, and is active |
| AuthService.SignIn | internal/services/auth_service.go:250-261 | an inactive account is refused; otherwise the response is that for the user, and the tokens are untouched |
| AuthService.CreateGoogleUser | internal/services/auth_service.go:210-229 | a success appends exactly one active Google user with the subject and email and no password, and responds as new; a failure changes nothing |
| AuthService.LinkGoogleUser | internal/services/auth_service.go:230-238 | linking never adds a user; a success is a returning Google user; when the link write works but the re-read fails the call ends with the nil-user failure |
| AuthService.LinkOrCreate | internal/services/auth_service.go:205-242 | a user found by email is linked, an unknown email creates a Google user, and a failing look-up is passed on |
| AuthService.VerifyGoogleToken | internal/services/auth_service.go:189-262 | a refused token fails; a user with that Google id signs in as is; an unknown Google id goes on to the email step; other look-up errors are passed on |
| AuthService.GoogleSecondSignIn | internal/services/auth_service.go:189-262 | a Google user created on the first sign-in is found by Google id on the next one, is no longer new, and no user is added |
| AuthEmail.FromTokenError | internal/services/auth_service.go:387-395 | a token look-up error is always reported as one of invalid token, expired, already used or the store error |
| AuthEmail.Cleared | internal/services/auth_service.go:354 | with the deletion working, exactly the user's tokens of that kind are gone; when it fails, nothing is |
| AuthEmail.Draft | internal/services/auth_service.go:363-369 | the stored token record names the user, the string, the kind and the expiry, and is unused |
| AuthEmail.IssueToken | internal/services/auth_service.go:353-380 | a failed generation fails; the issue succeeds exactly when generation, storage and mailing all succeed; once stored, the token stays even when the mail fails, appended after the cleared tokens |
| AuthEmail.IssueLeavesOneToken | internal/services/auth_service.go:353-373 | with the deletion working, a successful issue leaves the new token as the user's only token of that kind |
| AuthEmail.SendVerificationEmail | internal/services/auth_service.go:341-381 | any look-up error is an unknown user and a verified user is refused; otherwise a 24-hour verification token is issued |
| AuthEmail.ResendVerificationEmail | internal/services/auth_service.go:505-519 | the user is found by email, any error being an unknown user; a verified user is refused; otherwise it is the send for that user's id |
| AuthEmail.VerifyEmail | internal/services/auth_service.go:384-413 | token errors are renamed and change nothing; a found token is marked used first, and the user is then marked verified; a failure of that last write leaves the token spent |
| AuthEmail.VerifyEmailOnce | internal/services/auth_service.go:384-413 | a verification link works once: the same link fails afterwards, at any later time |
| AuthEmail.SendThenVerify | internal/services/auth_service.go:341-413 | a verification mail sent with a fresh token string is redeemed within the day, and the user is then verified |
| AuthEmail.VerifyKnownToken | internal/services/auth_service.go:384-413 | a found verification token of an existing user verifies that user |
| AuthEmail.Redeemable | internal/services/auth_service.go:353-373 | a token just issued with a fresh string is what a look-up of that string finds, until its expiry |
| AuthEmail.RequestPasswordReset | internal/services/auth_service.go:416-460 | an unknown email succeeds without change and other look-up errors are passed on; a Google-only account is refused; otherwise a one-hour reset token is issued |
| AuthEmail.ResetRequestHidesRegistration | internal/services/auth_service.go:419-423 | an unknown email gets the same success as a password user whose reset mail went out |
| AuthEmail.ResetPassword | internal/services/auth_service.go:463-502 | a weak password is refused before any look-up; token errors are renamed; the token is marked used before the hash and the write; a success stores the new hash and, with the deletion working, leaves the user no reset token |
| AuthEmail.RequestThenReset | internal/services/auth_service.go:416-502 | a reset mail sent with a fresh token string is redeemed within the hour, and the user's hash becomes the new password's |
| AuthEmail.ResetKnownToken | internal/services/auth_service.go:463-502 | a found reset token of an existing user sets that user's password |

## Left out

- HTTP layer: the gin handlers, router, response helpers, request binding beyond the stated binding predicates, `main.go`, and `LoggerMiddleware`/`RecoveryMiddleware`. They only translate requests and status codes.
- MongoDB: bson query construction, cursors, context timeouts and `updated_at` stamping beyond whole seconds. Stores are sequences and filters are predicates.
- Concurrency: cross-request races on balances, the mutexes in the rate limiter, and the fire-and-forget verification email.
- Rate limiter: the cleanup goroutine is modelled as a single cleanup pass.
- Clock: each call reads it once, as a parameter.
- Floating point: amounts are integer minor units.
- Reports: saving rates and percentage changes are rationals. Category names, per-row percentages, trend labels and `helpers.go` rounding are not modelled.
- Report ordering: the order of equal-amount rows left by the Go sort and by map iteration is not modelled. The breakdowns are stated as a permutation sorted by amount, descending.
- Crypto: bcrypt hashing and comparison are the `hash` and `matches` parameters of `Env`. JWT signing and verification are the `validate` parameter. Issuer, audience and key checks are not modelled.
- Jwt.TokenClaims: `ValidateToken` is not modelled, and the model does not tell access tokens from refresh tokens, because verification is a parameter.
- Google OAuth: `InitiateGoogleOAuth` and `HandleGoogleCallback` are left out because they only exchange codes over the network. `VerifyIDToken` is the `info` input of `AuthService.VerifyGoogleToken`.
- Email and random tokens: sending mail is a failure flag. Token generation is an input, which is `None` when generation fails.
- Go parsers: `time.ParseDuration` is the `goParse` parameter. The transaction search regex is the `re` parameter. The minimum and maximum amount filters arrive already parsed. The `"2006-01"` month and `"2006-01-02"` date layouts are modelled exactly.
- AccountRepository: `GetAll` and `CountByUser` are left out as plain listings without a decision.
- AccountRepository.GetTotalBalance: the aggregation's store error is not modelled; the total and the summary are computed over the store as given.
- ReportService: the reports take the month's or period's transactions as an input, because `GetByDateRange` is absent from the repository file; the store error each report passes on from that fetch is not modelled.
- ReportService.GetWeeklyCashflow: its intended six-week counterpart is not written out; `ReportService.CashflowExpenseIsSpending` ties its expense column to the spending rows, whose intended form is `ReportService.GetWeeklySpendingIntended`.
- CategoryRepository: `GetByIDWithoutUserCheck`, `CountChildCategories` and `Update` are called by the category service but absent from the repository file. They are modelled as their names and the callers describe them.
- Category and budget records: `Category.parentId` and the budget `month`, `scope`, `categoryId` and `limit` are declared as the services use them, since the model file lacks them.
- CategoryRepository.Create: the Go repository's `Create` does not copy the parent, but the model stores the requested parent, as the service expects.
- TransactionRepository.CountByCategoryID: the category service calls it, but it is absent from the repository. It is modelled as a count of the owner's transactions in the category.
- UserRepository.Update: its bson map is modelled as a patch of full name, email-verified flag and avatar URL, which are the fields its callers set.
- VietQR: the HTTP fetch of the bank list is an input, which is a failure when the fetch fails.
- R2Storage: the S3 put and delete calls, the file read, the UUID and the upload timestamp are parameters or failure flags.
- Config and bootstrap: `config.go`, `database.go` and the constructors' wiring are left out because they are environment I/O.
- Strings.Atoi: integers are unbounded. Go's `strconv.Atoi` clamps an out-of-range numeral to the int64 bounds and reports an error that the month filter (`internal/repositories/transaction_repository.go:139-140`, `:424-425`) discards; the model reads such a numeral as its exact value, so a month text whose year or month lies beyond int64 selects a different range than Go would.
- Jwt.ParseTokenDuration: the Go duration grammar accepted by `time.ParseDuration` is not re-derived. Only its result is used, through `goParse`.

## Findings

| source | as written | input that shows it | evidently intended | confidence | as-written member | corrected member |
|---|---|---|---|---|---|---|
| internal/repositories/transaction_repository.go:173-180 | a search term sets the `$or` key again, replacing the account filter's source-or-destination condition | an account filter for A and a search term that matches a transaction between two other accounts of the same owner; that transaction is listed | a transaction is listed only when it matches both the account and the search | not executed | TransactionRepository.GetAllListsOtherAccount | TransactionRepository.GetAllIntended |
| internal/services/transaction_service.go:280-312 | BulkDelete reverts every loaded entry, so an id listed twice is reverted twice but deleted once. An id whose lookup errors is deleted without a revert. When the delete fails, entries whose revert failed are re-applied anyway | ids `[t, t]` for an income `t`: its account loses the amount twice; with no failures the balances then differ from the stored transactions' net effect | each distinct owned transaction is reverted once; only reverted transactions are deleted and, on a failed delete, re-applied | not executed | TransactionService.BulkDeleteRevertsDuplicatesTwice | TransactionService.BulkDeleteFixedRevertsOnce |
| internal/services/budget_service.go:188-212 | the spent amount sums the transactions of a single `GetAll` page, which holds 10 with the default pagination | eleven expenses of 1 in March 2024 give a spent amount of 10 | the sum over every matching expense of the month | not executed | BudgetService.SpentOfAsWrittenMeaning | BudgetService.SpentOf |
| internal/services/report_service.go:312-314 | the weekly spending and cash-flow loops stop after five weeks (the same cap again at lines 384-386), although a month can touch six Monday-to-Sunday weeks | September 2024: the weeks start on 26 August and end on 29 September, so an expense on 30 September is in no week | the weeks cover every day of the month | not executed | ReportService.SeptemberLosesLastDay | ReportService.WeeklySpendingAddsUp |
| internal/utils/vietqr.go:131-141 | `toLowerASCII` sizes its result by the number of runes but indexes it by each rune's byte offset, so after a multi-byte rune the offsets run past the end of the result | a bank named "Ngân hàng A": the search panics with an index out of range | ASCII upper case lowered, every other rune kept | not executed | VietQr.SearchPanics | VietQr.AsWrittenAgrees |
| internal/utils/r2_storage.go:85-93 | the upload URL trims one trailing slash from the base URL, but the delete strips the untrimmed base plus a slash | base "cdn/" and key "a.png": the URL is "cdn/a.png", and the delete asks for the key "cdn/a.png" | the delete recovers the key the upload stored | not executed | R2Storage.DeleteKeyAsWrittenLosesKey | R2Storage.DeleteKeyRoundTrip |
