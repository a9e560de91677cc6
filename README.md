# click-net ledger and balance core, in Dafny

click-net is an investment platform. Each user holds a running `balance`.
Users submit deposits with a payment proof and ask for withdrawals. An admin
approves or rejects these requests and can also adjust a balance by hand. A
daily job credits every user with a share of their balance. Every event is
meant to append an entry to a `Transaction` ledger. The React frontend
validates the deposit and withdrawal forms, turns the admin's "set balance
to" input into an add or subtract request, guards routes by session, and
keeps the session flags in an auth context.

The model has three layers:

- **Schemas.** The MongoDB schemas of deposits, withdrawals and ledger
  entries become validity predicates (`Models`).
- **Persisted writes.** Every create or save is a method of the `Store`
  class (`Persistence`). A write fails exactly when the record violates its
  schema, and writes made earlier in the same request stay committed.
- **Route handlers.** Each state-changing handler is a pure function from
  the database to an `Outcome` (the reply and the database it leaves
  behind). An imperative method over `Store` performs the same writes in the
  handler's order and is proved equal to that function. The handler's
  properties are lemmas about the function.

The schemas are a `Rules` value. `AsWritten` holds the enumerations as the
repository declares them. `Intended` widens them with the labels the
handlers and frontend types use (`'withdraw'`, `'failed'`, `'manual'`) and
checks the deposit minimum before an approval writes anything. The Findings
below compare the two.

Frontend pages become classes whose methods update the page state. A service
call's outcome (`Answered`, or `Refused` with the server's message) is a
method parameter. So are the clock (`now`, in milliseconds) and, in the
profit job, which write the database fails (`Fault`). Amounts are exact
reals. A JavaScript `parseFloat` result is `JsNumber`, which is NaN or a
number.

Files:

| file | module | models |
|---|---|---|
| base.dfy | Base | options, results, JavaScript numbers, replies |
| models.dfy | Models | the records and the schema predicates (backend/models) |
| store.dfy | Persistence | the database and its persisted writes |
| text.dfy | Text | ASCII lower-casing and substring search |
| ledger.dfy | Ledger | ledger queries, sums, newest-first order, paging |
| stats.dfy | RequestStats | the deposit and withdrawal `/stats` counts |
| deposit.dfy | DepositRoutes | backend/routes/deposit.js |
| withdraw.dfy | WithdrawRoutes | backend/routes/withdraw.js |
| admin.dfy | AdminRoutes | backend/routes/admin.js |
| transaction.dfy | TransactionRoutes | backend/routes/transaction.js |
| user.dfy | UserRoutes | backend/routes/user.js |
| profit.dfy | ProfitService | backend/services/profitService.js |
| auth.dfy | AuthContext | src/contexts/AuthContext.tsx |
| guards.dfy | RouteGuards | src/components/ProtectedRoute.tsx and AdminRoute.tsx |
| admin_dashboard.dfy | AdminPage | src/pages/admin/AdminDashboard.tsx |
| withdrawal_form.dfy | WithdrawalForm | src/pages/user/Withdrawal.tsx |
| deposit_form.dfy | DepositForm | src/pages/user/Deposit.tsx |

## Model

| member | source | states |
|---|---|---|
| Models.DeclaredSchemaFacts | backend/models/Transaction.js:10-32 | `'withdraw'` is not a transaction type and `'failed'` not a status; a `'manual'` deposit, a deposit under 100, a `'bank'` withdrawal, one under 100 or one without account details are all refused; the listed valid combinations are accepted; the deposit and withdrawal facts are those of backend/models/Deposit.js:12-21 and backend/models/Withdrawal.js:12-21 |
| Models.DefaultsArePending | backend/models/Deposit.js:9-31 | a new deposit or withdrawal defaults to `pending` with an empty note, and it is valid exactly when its amount is at least 100, its method is one of the three and its proof or account details are present |
| Persistence.Store.SaveUser | backend/routes/user.js:71-74 | `user.save()` replaces that one user and nothing else |
| Persistence.Store.CreateUser | backend/routes/admin.js:323-328 | `User.create` appends the user, whose id is the old count |
| Persistence.Store.CreateTransaction | backend/models/Transaction.js:3-47 | a ledger entry is appended exactly when its type and status are in the schema's enumerations; otherwise nothing changes |
| Persistence.Store.CreateDeposit | backend/models/Deposit.js:3-41 | a deposit is appended, under the next id, exactly when it satisfies the schema; otherwise nothing changes |
| Persistence.Store.SaveDeposit | backend/routes/deposit.js:144 | a modified deposit is stored exactly when it satisfies the schema; otherwise nothing changes |
| Persistence.Store.CreateWithdrawal | backend/models/Withdrawal.js:3-41 | a withdrawal is appended, under the next id, exactly when it satisfies the schema |
| Persistence.Store.SaveWithdrawal | backend/routes/withdraw.js:166 | a modified withdrawal is stored exactly when it satisfies the schema |
| Text.Lower | src/pages/admin/AdminDashboard.tsx:110-111 | `toLowerCase` keeps the length and lower-cases every character |
| Text.EmptyIsIncluded | src/pages/admin/AdminDashboard.tsx:109-112 | the empty string is included in every string, with or without case |
| Text.LowerIdempotent | src/pages/admin/AdminDashboard.tsx:110-111 | lower-casing twice is lower-casing once |
| Text.IncludesItself | src/pages/admin/AdminDashboard.tsx:110-111 | a string contains itself, ignoring case |
| RouteGuards.ProtectedRouteDecision | src/components/ProtectedRoute.tsx:13-26 | spinner whenever loading; `/login` with the location when signed out; `/admin/dashboard` for an admin under `/dashboard`; the page iff signed in and not an admin under `/dashboard`, so an admin reaches `/deposit` and `/withdrawal` |
| RouteGuards.AdminRouteDecision | src/components/AdminRoute.tsx:13-26 | spinner whenever loading; `/admin/login` with the location when signed out; `/dashboard` for a non-admin; the page iff not loading, signed in and admin |
| RouteGuards.RedirectsSettle | src/components/AdminRoute.tsx:22-24 | each guard's redirect of a signed-in user lands on a page the other guard renders, so the two guards never bounce a user back and forth |
| RequestStats.SummaryPartition | backend/routes/deposit.js:159-178 | over valid requests the pending, approved and rejected counts add up to the total, and the reported amount is the approved sum, at least 100 per approved request |
| Ledger.Find | backend/routes/transaction.js:25 | `find(query)` returns exactly the ledger entries the query matches, and never more entries than the ledger holds |
| Ledger.FindAppend | backend/routes/transaction.js:25 | finding over a ledger with one more entry adds that entry at the end exactly when it matches |
| Ledger.SumAppend | backend/routes/transaction.js:106 | `$sum` over two stretches of the ledger is the sum of their sums |
| Ledger.NarrowerFindSumsLess | backend/routes/user.js:129-170 | with non-negative amounts, a narrower query never sums to more than a wider one |
| Ledger.AppendKeepsChronological | backend/routes/admin.js:279-282 | appending an entry stamped no earlier than every stored one keeps the ledger in creation order, which the newest-first sorts rely on |
| Ledger.FindKeepsOrder | backend/routes/transaction.js:25-26 | the matches of a chronological ledger are chronological |
| Ledger.NewestFirst | backend/routes/transaction.js:26 | `sort({createdAt: -1})` of a chronological ledger is its reverse: element k is the k-th from the end |
| Ledger.NewestFirstIsDescending | backend/routes/transaction.js:26 | the newest-first order of a chronological ledger has non-increasing creation times |
| Ledger.TotalPages | backend/routes/transaction.js:36 | `ceil(total / limit)`: zero for no results; otherwise the least page count whose pages hold every result |
| Ledger.PageWindow | backend/routes/transaction.js:27-28 | the page skips `(page-1)*limit` results and takes at most `limit`, in order |
| Ledger.WindowKeepsDescending | backend/routes/transaction.js:26-28 | a page of a newest-first listing is newest first |
| Ledger.PageWithinTotal | backend/routes/transaction.js:36 | the page holding result k is at most the page count |
| Ledger.EveryItemOnItsPage | backend/routes/admin.js:74-85 | every result appears on page `k / limit + 1` at position `k % limit`, and that page is within the count |
| Ledger.PagesBeyondTheLastAreEmpty | backend/routes/transaction.js:27-36 | a page past the last one is empty |
| TransactionRoutes.MyTransactionsFilter | backend/routes/transaction.js:12-22 | my-transactions keeps an entry iff it is the caller's, has the type and status when those are given, and lies inclusively between the given dates |
| TransactionRoutes.AllTransactionsFilter | backend/routes/transaction.js:47-67 | the admin listing keeps an entry iff it matches the optional user, type, status and inclusive date bounds |
| TransactionRoutes.ListingContents | backend/routes/transaction.js:25-37 | a page holds at most `limit` entries, each a matching ledger entry; the total is the match count; the page count is `ceil(total/limit)` |
| TransactionRoutes.ListingNewestFirst | backend/routes/transaction.js:25-28 | over a chronological ledger every page lists newest first |
| TransactionRoutes.DefaultListing | backend/routes/transaction.js:12 | without page and limit the listing is page 1 with the ten newest matches, newest first |
| TransactionRoutes.IndexOf | backend/routes/transaction.js:124 | the position of the first group with that status, or none when no group has it |
| TransactionRoutes.ReduceByStatus | backend/routes/transaction.js:123-130 | the mutating `reduce` over a type's entries builds exactly the per-status groups `ByStatus` specifies |
| TransactionRoutes.Bump | backend/routes/transaction.js:124-128 | one step of the reduce: a new group `{count: 1, amount}` for an unseen status, otherwise that group's count plus one and amount plus the entry's |
| TransactionRoutes.ByStatusStep | backend/routes/transaction.js:123-130 | grouping one more entry is one more step of the reduce |
| TransactionRoutes.SumsAfterUpdate | backend/routes/transaction.js:127-128 | updating one group changes the count and amount totals by that group's change |
| TransactionRoutes.SumsAfterAppend | backend/routes/transaction.js:125 | a new group adds its count and amount to the totals |
| TransactionRoutes.ByStatusSums | backend/routes/transaction.js:119-133 | the per-status counts add up to the number of entries and the per-status amounts to their sum |
| TransactionRoutes.TallySums | backend/routes/transaction.js:124-128 | each step of the reduce adds one to the counts and the entry's amount to the amounts |
| TransactionRoutes.ByStatusKeys | backend/routes/transaction.js:123-130 | the groups are the entries' distinct statuses, in order of first appearance |
| TransactionRoutes.Distinct | backend/routes/transaction.js:124-126 | the distinct values of a list, with no repeats and nothing added or lost |
| TransactionRoutes.TransactionStats | backend/routes/transaction.js:101-116 | group i is the group of the i-th distinct type among the entries in the date window, and no two groups share a type |
| TransactionRoutes.StatsGroups | backend/routes/transaction.js:101-133 | each type group's count is the number of entries of that type in the window, its total their sum, and its per-status counts and amounts add up to them |
| TransactionRoutes.EveryTypeGrouped | backend/routes/transaction.js:101-116 | every entry in the window has its type's group |
| UserRoutes.EligibilityRulesAgree | backend/routes/user.js:46-48 | the dashboard flag is false without a first deposit and agrees, for every elapsed time, with the withdrawal route's whole-day rule |
| UserRoutes.AdminsAreForbidden | backend/routes/user.js:37-41 | an admin caller gets 403 on `/dashboard` and `/dashboard-stats`; a customer gets the dashboard |
| UserRoutes.StatisticsWindows | backend/routes/user.js:110-182 | the statistics report the balance, the sum of the caller's profit entries of the last thirty days and the sum since midnight; with non-negative profits the daily sum is at most the monthly one |
| UserRoutes.PutProfile | backend/routes/user.js:66-85 | the profile update answers 200 and replaces only the caller's record by `UpdateProfile`; a valid store stays valid |
| UserRoutes.ProfileUpdateEffects | backend/routes/user.js:71-72 | name and email are overwritten only by non-empty values; balance, role, status and first-deposit date are untouched; the update is idempotent |
| DepositRoutes.PostDeposit | backend/routes/deposit.js:10-41 | the handler's writes leave exactly the reply and database `SubmitDeposit` specifies; a valid store stays valid |
| DepositRoutes.PatchDeposit | backend/routes/deposit.js:72-156 | the handler's writes, in order, leave exactly the reply and database `ProcessDeposit` specifies; a valid store stays valid |
| DepositRoutes.PostUpdateBalance | backend/routes/deposit.js:181-226 | the handler's writes leave exactly the reply and database `CreditManually` specifies; a valid store stays valid |
| RequestStats.Requests | backend/routes/deposit.js:159-178 | the statistics read each deposit's or withdrawal's status and amount, one request per record, in order |
| RequestStats.CountStatusCounts | backend/routes/deposit.js:162-163 | `countDocuments({ status })` counts exactly the requests with that status |
| DepositRoutes.DepositStatsPartition | backend/routes/deposit.js:159-178 | in a valid database the deposit stats count every deposit once by status, and the approved total is at least 100 per approved deposit |
| DepositRoutes.SubmitDepositEffects | backend/routes/deposit.js:14-35 | no file: 400 and nothing stored; success iff the deposit satisfies the schema, and then one `pending` deposit and one `deposit`/`pending` entry with the requested amount and the unchanged balance are appended; a failure leaves the database as it was |
| DepositRoutes.ProcessingNeedsPending | backend/routes/deposit.js:81-83 | a deposit that is not pending answers "already processed" and changes nothing |
| DepositRoutes.ReprocessingFails | backend/routes/deposit.js:81-83 | after a successful approval or rejection, any second processing answers "already processed" and changes nothing |
| DepositRoutes.ApprovalNeedsPositiveAmount | backend/routes/deposit.js:97-100 | approval with a missing or non-positive amount answers 400 before any write |
| DepositRoutes.ApprovalCredits | backend/routes/deposit.js:97-127 | approval adds exactly the approved amount, sets a missing first-deposit date, and appends one `deposit`/`completed` entry with that amount and the new balance; the deposit is saved as approved with the new amount iff that amount is at least 100, otherwise 500 with the credit kept |
| DepositRoutes.RejectionKeepsBalance | backend/routes/deposit.js:128-142 | rejection never changes a balance; the only entry it can add carries the requested amount and the current balance; it succeeds iff `'failed'` is a status the schema allows |
| DepositRoutes.ManualCreditEffects | backend/routes/deposit.js:181-210 | the manual credit writes no ledger entry; it succeeds iff the user exists and the `'manual'` deposit satisfies the schema, and then adds exactly the amount, sets an unset first-deposit date to now and records the deposit, with every other user unchanged; a failure changes nothing |
| DepositRoutes.CreditSetsFirstDepositDate | backend/routes/deposit.js:105-108 | whenever processing changes a balance, the first-deposit date becomes `now` if it was unset and otherwise stays |
| DepositRoutes.SubmitDepositKeepsDbValid | backend/routes/deposit.js:10-41 | submission keeps every stored record valid and no first-deposit date changes |
| DepositRoutes.ProcessDepositKeepsDbValid | backend/routes/deposit.js:72-156 | processing keeps every stored record valid and never overwrites a first-deposit date |
| DepositRoutes.CreditManuallyKeepsDbValid | backend/routes/deposit.js:181-226 | the manual credit keeps every stored record valid and never overwrites a first-deposit date |
| DepositRoutes.ApprovalBelowMinimumCreditsTwice | backend/routes/deposit.js:98-144 | as written, approving 50 credits the balance and answers 500 with the deposit still pending, so a second approval credits again: balance up by twice the amount, two entries |
| DepositRoutes.ApprovalBelowMinimumRefused | backend/routes/deposit.js:98-111 | with the minimum checked first, an approval under 100 answers 400 and changes nothing, and one of at least 100 succeeds and stores the amount |
| DepositRoutes.RejectionAlwaysFails | backend/routes/deposit.js:128-141 | as written, rejecting a pending deposit always answers 500 and changes nothing |
| DepositRoutes.RejectionRecorded | backend/routes/deposit.js:128-144 | with `'failed'` allowed, rejection succeeds, stamps the deposit as rejected, keeps balances and appends the `failed` entry |
| DepositRoutes.ManualCreditAlwaysFails | backend/routes/deposit.js:191-200 | as written, the manual credit never changes the database and answers 500 for every existing user |
| DepositRoutes.ManualCreditCredits | backend/routes/deposit.js:191-210 | with `'manual'` allowed, a credit of at least 100 succeeds, adds the amount, records an approved deposit and writes no entry |
| WithdrawRoutes.PostWithdrawal | backend/routes/withdraw.js:32-77 | the handler's writes, in order, leave exactly the reply and database `SubmitWithdrawal` specifies; a valid store stays valid |
| WithdrawRoutes.PatchWithdrawal | backend/routes/withdraw.js:108-180 | the handler's writes, in order, leave exactly the reply and database `ProcessWithdrawal` specifies; a valid store stays valid |
| WithdrawRoutes.WithdrawalStatsPartition | backend/routes/withdraw.js:183-202 | in a valid database the withdrawal stats count every withdrawal once by status, and the approved total is at least 100 per approved withdrawal |
| WithdrawRoutes.EligibleAfterThirtyDays | backend/routes/withdraw.js:9-29 | eligible iff there is a first deposit and at least thirty days' worth of milliseconds have elapsed; with no first deposit the answer is "No deposits found" |
| WithdrawRoutes.DaysBound | backend/routes/withdraw.js:17-21 | `floor(elapsed / 86400000) >= 30` exactly when `elapsed >= 30 * 86400000` |
| WithdrawRoutes.WaitIsAtMostThirtyDays | backend/routes/withdraw.js:21-25 | when not yet eligible, the message reports `30 - days` remaining, a value from 1 to 30 for non-negative elapsed time |
| WithdrawRoutes.EligibilityAtTheBoundary | backend/routes/withdraw.js:17-28 | one millisecond before thirty days one day remains; at exactly thirty days the user is eligible |
| WithdrawRoutes.SubmissionRefusals | backend/routes/withdraw.js:37-46 | eligibility is checked before the balance; either refusal answers 400 and changes nothing |
| WithdrawRoutes.SubmissionDebits | backend/routes/withdraw.js:48-71 | an accepted submission stores the pending withdrawal and debits exactly the amount, leaving a non-negative balance; it answers 201 iff the entry's labels are allowed, and then appends one `withdraw`/`pending` entry holding the amount and the balance after the debit; otherwise the ledger is unchanged |
| WithdrawRoutes.SubmitThenRejectRestores | backend/routes/withdraw.js:58-135 | after a submission that succeeded under the intended labels, rejecting it restores the user's balance and marks the withdrawal rejected |
| WithdrawRoutes.ProcessingEffects | backend/routes/withdraw.js:117-166 | processing never changes a withdrawal's amount or any other withdrawal; a non-pending one answers "already processed" and changes nothing; approval never changes a balance |
| WithdrawRoutes.RejectionRefunds | backend/routes/withdraw.js:132-135 | rejection refunds exactly the withdrawal's amount to its user, before any later write can fail |
| WithdrawRoutes.SubmitWithdrawalKeepsDbValid | backend/routes/withdraw.js:32-77 | submission keeps every stored record valid and never overwrites a first-deposit date |
| WithdrawRoutes.ProcessWithdrawalKeepsDbValid | backend/routes/withdraw.js:108-180 | processing keeps every stored record valid and never overwrites a first-deposit date |
| WithdrawRoutes.SubmissionDebitsThenFails | backend/routes/withdraw.js:49-71 | as written, an accepted submission stores the withdrawal and debits the balance, then answers 500 with no ledger entry |
| WithdrawRoutes.RejectionRefundsRepeatedly | backend/routes/withdraw.js:132-149 | as written, rejection refunds and answers 500 with the withdrawal still pending, so a second rejection refunds again |
| WithdrawRoutes.RejectionRefundsOnce | backend/routes/withdraw.js:117-166 | with `'failed'` allowed, rejection succeeds once and a second one answers "already processed": exactly one refund |
| WithdrawRoutes.ApprovalRecorded | backend/routes/withdraw.js:150-166 | with `'withdraw'` allowed, approval stamps the withdrawal, keeps balances and appends a `withdraw`/`completed` entry with the amount and the current balance |
| WithdrawRoutes.ApprovalAlwaysFails | backend/routes/withdraw.js:150-166 | as written, approving a pending withdrawal always answers 500 and changes nothing |
| AdminRoutes.PostBalance | backend/routes/admin.js:156-203 | the handler's writes, in order, leave exactly the reply and database `AdjustBalance` specifies; a valid store stays valid |
| AdminRoutes.AdjustCases | backend/routes/admin.js:165-175 | `add` adds the amount; `subtract` refuses iff the balance is below the amount, otherwise subtracts and leaves a non-negative balance; any other type is an invalid operation; a success is the balance plus the signed amount |
| AdminRoutes.AdjustmentEffects | backend/routes/admin.js:156-189 | an unknown user gets 404 and any error changes nothing; on success the user's balance moves by the signed amount and one `manual`/`completed` entry with the signed amount and the new balance is appended |
| AdminRoutes.AdjustBalanceKeepsDbValid | backend/routes/admin.js:156-203 | an adjustment keeps every stored record valid and never overwrites a first-deposit date |
| AdminRoutes.CountActiveIsFilter | backend/routes/admin.js:212 | the active-user count equals the number of users the listing keeps for the status filter `active` |
| AdminRoutes.DashboardCounts | backend/routes/admin.js:205-305 | the dashboard's user total is the user count, its active count is the `active` listing's size and at most the total, and its pending counts are the numbers of deposits and withdrawals whose status is `pending`, the same as the statistics routes report |
| AdminRoutes.TotalsAreSumAndCount | backend/routes/admin.js:218-301 | each dashboard total is the sum and count of the completed entries of its type, and 0 and 0 when there are none |
| AdminRoutes.NoneMatch | backend/routes/admin.js:291-300 | a query no entry matches finds nothing |
| AdminRoutes.TotalsAfterAppend | backend/routes/admin.js:218-301 | a new entry adds its amount and one to its type's totals when it is completed, and leaves them otherwise |
| AdminRoutes.WithdrawalTotalsAlwaysZero | backend/routes/admin.js:237-246 | as written, the dashboard's withdrawal totals are always 0 and 0 |
| AdminRoutes.ApprovedWithdrawalCounted | backend/routes/admin.js:237-246 | with `'withdraw'` allowed, approving a withdrawal raises the withdrawal totals by its amount and one |
| AdminRoutes.RecentAreNewest | backend/routes/admin.js:279-282 | the recent transactions are the ten newest entries (or all when fewer), newest first |
| AdminRoutes.FilterUsers | backend/routes/admin.js:59-69 | the listed users are exactly those matching the search (name or email, ignoring case) and the status, when given |
| AdminRoutes.UserPageContents | backend/routes/admin.js:74-87 | a page holds at most `limit` matching users; the total is the match count; there are no pages iff there are no matches |
| AdminRoutes.EveryUserListed | backend/routes/admin.js:74-85 | every matching user appears on page `k / limit + 1` at position `k % limit` of the sorted list, within the page count |
| AdminRoutes.NoFilterKeepsAll | backend/routes/admin.js:59-69 | without search and status every user is listed, in order |
| AdminRoutes.PostCreateAdmin | backend/routes/admin.js:314-339 | the handler's lookup loop and create leave exactly the reply and database `CreateAdmin` specifies; a valid store stays valid |
| AdminRoutes.CreateAdminKeepsDbValid | backend/routes/admin.js:318-328 | creating an admin keeps the database valid and leaves every first-deposit date |
| AdminRoutes.CreateAdminEffects | backend/routes/admin.js:318-328 | an admin is created iff no user has the email, and then appended with the admin role; otherwise 400 and nothing changes; a second identical request is refused |
| ProfitService.CalculateDailyProfitCases | backend/services/profitService.js:5-33 | no completed deposit entry gives null; otherwise the total is their sum and the daily profit is one per cent of it (30% over 30 days) |
| ProfitService.Step | backend/services/profitService.js:44-65 | one iteration keeps the number of users |
| ProfitService.RunFrom | backend/services/profitService.js:42-66 | the loop from a user onwards keeps the number of users |
| ProfitService.RunDailyProfits | backend/services/profitService.js:36-75 | the job's `for` loop over the users leaves exactly the reply and database `ProcessDailyProfits` specifies; a valid store stays valid |
| ProfitService.EntriesFrame | backend/services/profitService.js:48-55 | the entries written for a range of users depend only on those users |
| ProfitService.ProfitSign | backend/services/profitService.js:44-46 | the profit is positive iff the balance is, and the credited balance is `balance × (1 + 0.30/365)` exactly then |
| ProfitService.StepWithoutFault | backend/services/profitService.js:46-65 | without a failing write, one iteration writes the profit entry (when positive) and then credits the user |
| ProfitService.RunStep | backend/services/profitService.js:42-66 | the loop from user i is that user's iteration followed by the loop from i+1 |
| ProfitService.CreditRangeShift | backend/services/profitService.js:42-61 | crediting user i and then the range after it is crediting the range from i |
| ProfitService.NextReaches | backend/services/profitService.js:42-66 | the state after users i..k is user i's iteration followed by users i+1..k |
| ProfitService.RunReaches | backend/services/profitService.js:42-66 | without failing writes among users i..k, the loop reaches the state with those users credited and their entries appended |
| ProfitService.JobCreditsEveryone | backend/services/profitService.js:36-75 | without failures, every user is visited once: each positive balance is credited and one `profit`/`completed` entry per credited user is appended |
| ProfitService.JobStopsAtFault | backend/services/profitService.js:42-74 | a failing write at user k stops the job with 500: users before k keep their credit and entries, k keeps only its entry when the user save failed, later users get nothing |
| ProfitService.TwoRunsCompound | backend/services/profitService.js:36-75 | with no last-run guard, two runs compound a positive balance to `balance × (1+r)²` |
| ProfitService.RunKeepsDbValid | backend/services/profitService.js:42-66 | the loop keeps every stored record valid and never overwrites a first-deposit date |
| ProfitService.StepKeepsDbValid | backend/services/profitService.js:44-65 | one iteration keeps every stored record valid and never overwrites a first-deposit date |
| AuthContext.ErrorMessageFallbacks | src/contexts/AuthContext.tsx:73-80 | for any fallbacks: a server error shows its message, or the call's fallback when it has none; a client error shows its own message; anything else shows the unknown-error text; so with non-empty fallbacks the message is empty only for a client error with an empty message |
| AuthContext.UseAuthOutsideProvider | src/contexts/AuthContext.tsx:8-14 | `useAuth` fails exactly outside a provider and otherwise returns the context |
| AuthContext.AuthProvider.constructor | src/contexts/AuthContext.tsx:20-25 | a new session has no user or token, is not admin, is loading and has no error |
| AuthContext.AuthProvider.CheckAuth | src/contexts/AuthContext.tsx:29-56 | with a stored token that is present and non-empty (truthy) the token is adopted and, when the lookup succeeds, the user and `isAdmin = role == 'admin'` are set; a failed lookup leaves them; a missing or empty stored token changes only `loading`; loading ends |
| AuthContext.AuthProvider.Login | src/contexts/AuthContext.tsx:61-85 | success stores the token and sets user, token and `isAdmin = role == 'admin'`, clearing the error; failure sets the error and leaves user, token and flag; loading ends either way |
| AuthContext.AuthProvider.AdminLogin | src/contexts/AuthContext.tsx:87-111 | success sets `isAdmin` whatever the returned role; failure sets the admin-login error and leaves the session; loading ends |
| AuthContext.AuthProvider.Register | src/contexts/AuthContext.tsx:113-136 | success sets user and token and leaves `isAdmin` unchanged; failure sets the registration error; loading ends |
| AuthContext.AuthProvider.Logout | src/contexts/AuthContext.tsx:138-143 | logout removes the stored token and clears token, user and `isAdmin` |
| AdminPage.FilteredUsers | src/pages/admin/AdminDashboard.tsx:109-112 | a row is kept iff its name or email contains the term, ignoring case |
| AdminPage.FilteredUsersSplit | src/pages/admin/AdminDashboard.tsx:109-112 | filtering a table split in two is filtering each part and joining the results, so the kept rows stay in table order |
| AdminPage.EmptyTermKeepsAll | src/pages/admin/AdminDashboard.tsx:109-112 | an empty search term keeps every row |
| AdminPage.DepositRequestCases | src/pages/admin/AdminDashboard.tsx:115-127 | approval with an absent or non-positive amount is refused without a request; reject sends `rejected` with no amount; approve sends `approved` with the amount |
| AdminPage.NaNApprovalRefusedByServer | src/pages/admin/AdminDashboard.tsx:118 | a NaN approved amount passes the page's check, goes out as `null`, and the server refuses it with 400 |
| AdminPage.FindListed | src/pages/admin/AdminDashboard.tsx:165 | `users.find` returns a row with that id, or none when no row has it |
| AdminPage.FindListedFirst | src/pages/admin/AdminDashboard.tsx:165 | when several rows share the id, `find` returns the first of them |
| AdminPage.BalanceUpdateReachesTarget | src/pages/admin/AdminDashboard.tsx:158-190 | a NaN or negative target is refused; an unknown user fails; an equal target sends nothing; otherwise `add` iff the target is higher, a positive amount, and the server's adjustment reaches exactly the target without the insufficient-balance branch |
| AdminPage.AdminDashboard.constructor | src/pages/admin/AdminDashboard.tsx:25-38 | the page starts with no rows, the modal closed, an empty amount and no messages |
| AdminPage.AdminDashboard.CloseModal | src/pages/admin/AdminDashboard.tsx:251-260 | closing the modal clears the amount and both messages |
| AdminPage.AdminDashboard.HandleDepositAction | src/pages/admin/AdminDashboard.tsx:115-137 | an invalid approval sets the error and sends nothing; otherwise the request is sent, and success closes the modal (clearing the message) while a refusal shows the server's message or the fallback |
| AdminPage.AdminDashboard.HandleBalanceUpdate | src/pages/admin/AdminDashboard.tsx:158-200 | follows `BalanceUpdate`: refusals set the error, an equal target closes the modal without a request, and a sent request closes it on success or shows the message on refusal |
| WithdrawalForm.ValidationPasses | src/pages/user/Withdrawal.tsx:59-87 | the form passes iff every check does, and then the payload carries the parsed amount, method, account number and name; a missing balance counts as 0 |
| WithdrawalForm.FirstFailureWins | src/pages/user/Withdrawal.tsx:59-87 | the checks run in order and the first failing one sets the message |
| WithdrawalForm.NaNAmountPasses | src/pages/user/Withdrawal.tsx:59-67 | a non-numeric amount text passes both amount checks |
| WithdrawalForm.FormNeverStoresWithdrawal | src/pages/user/Withdrawal.tsx:94-99 | as written, the route receives no account details, so no submission from this page is ever stored and nothing changes |
| WithdrawalForm.AccountDetails | src/pages/user/Withdrawal.tsx:97-98 | the account details built from a non-empty name are non-empty |
| WithdrawalForm.FormStoresWithdrawal | src/pages/user/Withdrawal.tsx:94-99 | with the account details sent, a valid form from an eligible user is stored with those details and the balance debited |
| WithdrawalForm.WithdrawalPage.constructor | src/pages/user/Withdrawal.tsx:24-28 | the page starts not eligible, with no eligibility date, no messages and not submitting |
| WithdrawalForm.WithdrawalPage.CheckEligibility | src/pages/user/Withdrawal.tsx:41-52 | the mount effect records the eligibility date and sets `isEligible` iff the clock is strictly past it, leaving the submission state alone |
| WithdrawalForm.WithdrawalPage.BeginSubmit | src/pages/user/Withdrawal.tsx:55-90 | a failing check sets its message and sends nothing; passing turns `isSubmitting` on, clears the error and sends the payload |
| WithdrawalForm.WithdrawalPage.FinishSubmit | src/pages/user/Withdrawal.tsx:100-113 | success shows the submitted message, a refusal the server's message or the fallback; `isSubmitting` ends false |
| WithdrawalForm.WithdrawalPage.HandleSubmit | src/pages/user/Withdrawal.tsx:55-114 | the payload is sent iff validation, with the page's own `isEligible`, passes; a failing check sets its message; a sent form shows the submitted message, or on refusal the server's message or the fallback, with `success` kept; `isSubmitting` is false when the handler returns |
| DepositForm.MimeBase | src/pages/user/Deposit.tsx:47-49 | the base the `image/*` key is compared with is a prefix of the MIME type and holds no `/` |
| DepositForm.Errors | src/pages/user/Deposit.tsx:47-50 | a file has no error iff its type is an image or its name has a listed extension and it is at most 5242880 bytes; a wrong type is reported before size |
| DepositForm.AcceptedMembers | src/pages/user/Deposit.tsx:50-51 | the accepted files are exactly the dropped files without errors |
| DepositForm.RejectedMembers | src/pages/user/Deposit.tsx:63-64 | the rejected files are exactly the dropped files with errors |
| DepositForm.FirstRejectedFails | src/pages/user/Deposit.tsx:64-65 | the first rejected file always has an error whose code the handler can read |
| DepositForm.DropPartition | src/pages/user/Deposit.tsx:46-72 | every dropped file is either accepted or rejected |
| DepositForm.RejectionMessages | src/pages/user/Deposit.tsx:64-71 | a rejection shows the size message iff the only problem is size, and the file-type message iff the type is wrong |
| DepositForm.MimeBaseOfPrefix | src/pages/user/Deposit.tsx:47-49 | the base of a type `b/s` is `b` when `b` holds no `/`, so `image/…` has base `image` |
| DepositForm.ImageTypesAccepted | src/pages/user/Deposit.tsx:47-50 | every `image/` type is accepted whatever the file's name, and such a file has no error iff it is at most 5242880 bytes |
| DepositForm.ListedExtensionsAccepted | src/pages/user/Deposit.tsx:47-50 | a name ending in .jpeg, .jpg or .png in any case is accepted whatever its type, even none; it has no error iff it is at most 5242880 bytes |
| DepositForm.OtherFilesRefused | src/pages/user/Deposit.tsx:47-50 | a file with no type or a non-image type and none of the listed extensions is refused, with the type error first |
| DepositForm.ValidationPasses | src/pages/user/Deposit.tsx:85-98 | the form passes iff a method is selected, the amount is given and not at most zero, and a file is present; then the payload is amount, method and file; the checks run in that order |
| DepositForm.BelowMinimumReachesServer | src/pages/user/Deposit.tsx:90-93 | every non-empty amount text parsing to a value strictly between 0 and 100 passes the page, and the server refuses it with 500, storing nothing |
| DepositForm.ValidFormIsStored | src/pages/user/Deposit.tsx:105-109 | a valid form of at least 100 with a listed method is stored as a pending deposit |
| DepositForm.DepositPage.constructor | src/pages/user/Deposit.tsx:35-41 | the page starts with nothing selected, no file, no messages and not submitting |
| DepositForm.DepositPage.SelectMethod | src/pages/user/Deposit.tsx:75-78 | selecting a method records it and clears the error |
| DepositForm.DepositPage.Drop | src/pages/user/Deposit.tsx:51-71 | the first accepted file becomes the upload and preview and clears the error; the first rejected file's message then wins; a drop with neither leaves the state |
| DepositForm.DepositPage.BeginSubmit | src/pages/user/Deposit.tsx:81-101 | a failing check sets its message and sends nothing; passing turns `isSubmitting` on, clears the error and sends the payload |
| DepositForm.DepositPage.FinishSubmit | src/pages/user/Deposit.tsx:110-123 | success shows the submitted message, a refusal the server's message or the fallback; `isSubmitting` ends false |
| DepositForm.DepositPage.HandleSubmit | src/pages/user/Deposit.tsx:81-124 | the payload is sent iff validation passes; a failing check sets its message; a sent form shows the submitted message, or on refusal the server's message or the fallback, with `success` kept; `isSubmitting` is false when the handler returns |

## Left out

- backend/models/User.js is not part of this model. The User fields are the ones the handlers read and write, and a user save always succeeds, except where the profit job's `Fault` parameter says otherwise.
- The `protect` and `admin` middleware, JWT signing and password hashing are left out. The caller's id and role are parameters.
- Routes outside the named core are left out: admin login, `GET /users/:userId`, `PATCH /users/:userId/status`, the my-deposits and all-deposits listings, the withdrawal listings, change-password, and the test and verify-token routes.
- The database engine is left out. `find`, `countDocuments` and `aggregate` are functions over the sequences. Ids are positions, and documents are listed in insertion order.
- A ledger entry's `reference` stands for the handlers' `reference` argument. The declared Transaction schema does not list it, so MongoDB's strict mode drops it on save. No handler reads it back, and the model keeps it only to name the request an entry reports.
- The entry `description`, the deposit `method` label text and `processedAt` dates are not modelled beyond what the contracts state.
- Date parsing of `startDate`/`endDate` is left out: the bounds are integers. `setHours(0,0,0,0)` is the `startOfToday` parameter, and "thirty days ago" is thirty times 86400000 ms.
- The user search's `$regex` with option `i` is modelled as a case-insensitive substring search. Regular-expression metacharacters in the search text are not modelled. Lower-casing is ASCII only.
- AdminRoutes.ListUsers: requires `page >= 1` and `limit >= 1`. Query-string coercion, and non-numeric or zero values, are not modelled.
- TransactionRoutes.ListTransactions: requires `page >= 1` and `limit >= 1` when they are given, for the same reason. `currentPage` is the page as given.
- AdminRoutes.AdminDashboard takes the ledger's `sort({ createdAt: -1 })` as its reverse, as the transaction listings do. That is right while the ledger is in creation order. Every handler stamps its entries with the request's `now`, and Ledger.AppendKeepsChronological shows such an append keeps the order when `now` is not earlier than any stored entry. That the clock never goes back is assumed; no per-handler lemma proves the ledger stays chronological.
- AdminRoutes.ListUsers: only the default `createdAt` sort, ascending or descending, is modelled. Insertion order stands for creation order. Other `sortBy` fields are not modelled.
- Amounts are exact reals. IEEE rounding of `0.30/365`, `toFixed(2)` and currency formatting are left out. String amounts in JSON bodies, and the concatenation they would cause in `+=`, are also left out.
- ProfitService: which write fails is the `Fault` parameter; why a database write fails is not modelled. `calculateDailyProfit` is modelled but never used by the job, as in the source. Its `catch` returning null is not modelled.
- Requests run one at a time. Races between the cron job and live requests are left out, and so are the scheduler and server startup.
- Handler failures outside the schemas (a `CastError` on a malformed id, a lost connection) are left out. Only the `Fault` of the profit job models a failing write.
- UserRoutes.DashboardStatistics: the balance is always present, so the `|| 0` default of `totalBalance` is never taken.
- WithdrawalForm.WithdrawalPage.CheckEligibility: the clock and the eligibility date are parameters, in milliseconds. The mock deposit date and `addMonths` are left out.
- The pages' 30-second polling, the data refresh after a request, and the 3-second navigation after success are left out. So are the `openModal` selection, the selected user/deposit/withdrawal and `modalType` fields that `closeModal` clears, and the JSX.
- `handleWithdrawalAction` on the admin dashboard is left out. It sends the request the withdrawal route models, with no checks of its own.
- The object URL of the deposit preview is modelled as the file it is made from.
- AuthContext.AuthProvider.CheckAuth: the outer `catch`, which clears the session on an authentication error, is not modelled. The inner `catch` swallows every failure of the user lookup, so only a throw from local storage itself could reach it.
- DepositForm.Accepts: models the drop zone library's rule, in which the type's `image` base or a listed extension is enough. So a GIF image is accepted, although the page's message names only JPG, JPEG and PNG.

## Findings

| source | as written | input that shows it | evidently intended | confidence | as-written member | corrected member |
|---|---|---|---|---|---|---|
| backend/routes/deposit.js:98-113, 144 | the approved amount is credited and logged before the deposit save enforces the minimum of 100 | approve a pending deposit with `approvedAmount` 50, twice | refuse an approved amount below 100 before any write | high; not executed | DepositRoutes.ApprovalBelowMinimumCreditsTwice | DepositRoutes.ApprovalBelowMinimumRefused |
| backend/routes/deposit.js:128-141 | rejection logs status `'failed'`, which the Transaction schema refuses, so it answers 500 and the deposit stays pending | reject any pending deposit | record the rejection and mark the deposit rejected | high; not executed | DepositRoutes.RejectionAlwaysFails | DepositRoutes.RejectionRecorded |
| backend/routes/deposit.js:191-200 | the manual credit creates a Deposit with method `'manual'`, which the Deposit schema refuses | credit 500 to any existing user | the credit is stored and the balance raised | high; not executed | DepositRoutes.ManualCreditAlwaysFails | DepositRoutes.ManualCreditCredits |
| backend/routes/withdraw.js:49-71 | the balance is debited and saved, then the entry of type `'withdraw'` is refused, so the request answers 500 with the debit kept | an eligible user with balance 500 withdraws 200 | answer 201 and log the pending withdrawal | high; not executed | WithdrawRoutes.SubmissionDebitsThenFails | WithdrawRoutes.SubmissionDebits |
| backend/routes/withdraw.js:132-149 | rejection refunds and saves the user, then the `'failed'` entry is refused, so the withdrawal stays pending and can be refunded again | reject the same pending withdrawal twice | refund exactly once | high; not executed | WithdrawRoutes.RejectionRefundsRepeatedly | WithdrawRoutes.RejectionRefundsOnce |
| backend/routes/withdraw.js:150-166 | approval logs type `'withdraw'`, refused by the schema, so no withdrawal can ever be approved | approve any pending withdrawal | the withdrawal is approved and logged | high; not executed | WithdrawRoutes.ApprovalAlwaysFails | WithdrawRoutes.ApprovalRecorded |
| backend/routes/admin.js:237-246 | the dashboard sums completed `'withdraw'` entries, which can never be stored | any database that satisfies the schemas | count approved withdrawals | high; not executed | AdminRoutes.WithdrawalTotalsAlwaysZero | AdminRoutes.ApprovedWithdrawalCounted |
| src/pages/user/Withdrawal.tsx:94-99 | the page sends `accountNumber` and `accountName`, but the route reads `accountDetails`, which the schema requires | any submission from the page | send the account details the route reads | high; not executed | WithdrawalForm.FormNeverStoresWithdrawal | WithdrawalForm.FormStoresWithdrawal |
