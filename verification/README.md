# SankiYedim savings tracker — a Dafny model

SankiYedim ("as if I ate it") lets a user log purchases they decided not to
make. Each saved amount is an **entry**. Entries can be bundled into a
**transfer** that moves the money to savings, and each user has one
**preferences** row holding goals and the chosen bank provider. This project
models the core of that application and proves properties of the model:

- `schema.dfy` (module `Schema`): the three tables as datatypes, the column
  defaults, the decimal(10,2) range, and the request-body validators with the
  field paths they report.
- `ordering.dfy` (module `Ordering`): descending sort by a key, the
  first-occurrence filter, and `SelectSorted`. The last one reads a table
  into a list sorted newest first.
- `rate_limit.dfy` (module `RateLimit`): the fixed-window limiter on every
  write route. It is a class over the in-process window table, with the
  request handler and the periodic sweep.
- `storage.dfy` (module `Storage`): `DatabaseStorage` as a class whose
  three tables are maps from row id to row. Every query is scoped by owner.
- `bank.dfy` (module `Bank`): the manual and sandbox providers, provider
  selection, transfer creation, and the `markCompleted` hook.
- `routes.dfy` (module `Routes`): the HTTP handlers, run in their real order
  (rate limit, then validation, then storage and provider calls). Each
  answers with a `Response`.
- `dashboard.dfy` (module `Dashboard`): totals, month and year sums, the
  30-day series, goal progress and the day streak.
- `entries_page.dfy` (module `EntriesPage`): search and category filtering,
  pages of ten, and the selection for a bulk transfer.
- `transfers_page.dfy` (module `TransfersPage`): the status badge, a
  transfer's entries, and the action each transfer card offers.
- `checklist.dfy` (module `Checklist`): the memo text, the account texts and
  copy buttons of the manual-transfer checklist, and the completion target.

Modelling conventions:

- Money is a whole number of cents. Times are a `Timestamp` holding
  milliseconds plus the calendar day, month and year it falls on. Strings are
  `seq<char>`.
- The authenticated user, the client address and the clock are method
  parameters.
- Row ids from `gen_random_uuid()` are any id not yet in the table.

Where the code's own comments and names state an intent that its behaviour
does not meet, the model states what the code does and, beside it, the
intended behaviour (see Findings):

- The streak: the comment "Calculate streak (consecutive days with entries)"
  at dashboard.tsx:97 means entries on today, yesterday and the day before
  should give 3. The code gives 2.
- The completion hook `markCompleted(transferId)`: it names one transfer, but
  as written it completes every transfer.
- The provider settings: the route saves the body under the key `provider`,
  which is not a column, so the chosen provider is never stored.

## Model

| member | source | states |
|---|---|---|
| Schema.DefaultPreference | SankiYedim/shared/schema.ts:40-51 | a row inserted without columns has provider "manual", both goals 0 and no account labels |
| Schema.TotalAmountAppend | SankiYedim/client/src/pages/dashboard.tsx:88 | the `reduce` sum of amounts over a concatenation is the sum of the two parts |
| Schema.TotalAmountSign | SankiYedim/server/routes.ts:144-147 | the sum of amounts is never negative when no amount is, and with only positive amounts it is positive exactly when there is an entry |
| Schema.EntryCreateIssues | SankiYedim/shared/schema.ts:121-127 | the reported field paths are empty exactly when the entry body is valid, are drawn from item/amount/category/note, and include "amount" exactly when the amount is not a finite positive number |
| Schema.PreferencesUpdateIssues | SankiYedim/shared/schema.ts:141-149 | no issue exactly when both goals are absent or non-negative non-NaN numbers and the provider is absent or one of the two names |
| Schema.TransferCreateIssues | SankiYedim/shared/schema.ts:129-131 | no issue exactly when `entryIds` is present with at least one id; otherwise the single path "entryIds" |
| Schema.ProviderUpdateIssues | SankiYedim/shared/schema.ts:133-139 | no issue exactly when `provider` is present and names a provider; otherwise the single path "provider" |
| Schema.AcceptedEntryIsWellFormed | SankiYedim/shared/schema.ts:121-127 | an accepted entry body has an item of 1..120 characters, at least one cent, a category of at most 50 and a note of at most 500 characters |
| Schema.EntryCreateValid | SankiYedim/shared/schema.ts:121-127 | NaN, an infinite amount and an empty item are refused; a body with an item of 1..120 characters and a positive finite amount is accepted without category or note |
| Schema.TransferCreateValid | SankiYedim/shared/schema.ts:129-131 | any non-empty list of ids is accepted, whatever it holds; a missing or empty list is refused |
| Schema.ProviderUpdateValid | SankiYedim/shared/schema.ts:133-139 | accepted exactly when `provider` is "manual" or "plaid_sandbox", whatever the labels and ids; a missing provider is refused |
| Schema.PreferencesUpdateValid | SankiYedim/shared/schema.ts:141-149 | a body with none of the fields is accepted; a NaN, -Infinity or negative monthly goal is refused; +Infinity passes |
| Schema.ProviderEnumExact | SankiYedim/shared/schema.ts:134 | the provider enum accepts exactly "manual" and "plaid_sandbox" |
| Schema.AcceptedGoalNonNegative | SankiYedim/shared/schema.ts:142-143 | an accepted goal is never negative, NaN or -Infinity (+Infinity passes) |
| Ordering.SortDesc | SankiYedim/client/src/pages/dashboard.tsx:104 | the result is non-increasing by the key and a permutation of the input |
| Ordering.FirstOccurrences | SankiYedim/client/src/pages/dashboard.tsx:103 | the result has the same members as the input and no repeats |
| Ordering.InsertKeepsIdsDistinct | SankiYedim/server/storage.ts:62-73 | inserting a row with a new id into a sorted list of rows with distinct ids keeps the ids distinct |
| Ordering.InsertAtDistinct | SankiYedim/server/storage.ts:62-73 | putting a row whose id is new at any position of a list with distinct ids keeps the ids distinct |
| Ordering.SelectSorted | SankiYedim/server/storage.ts:105-111 | the list holds exactly the table rows that pass the filter, with no repeated id, non-increasing by the key |
| RateLimit.ClientKey | SankiYedim/server/middleware/rate-limit.ts:28 | the key is the IP when non-empty, else the socket address when non-empty, else "unknown"; never empty |
| RateLimit.Admit | SankiYedim/server/middleware/rate-limit.ts:31-50 | a missing or expired window restarts at count 1 and admits; a live window counts up and rejects exactly when the count exceeds max; no other key changes |
| RateLimit.Swept | SankiYedim/server/middleware/rate-limit.ts:14-21 | keeps exactly the windows whose reset time is not before now, unchanged |
| RateLimit.LiveWindowAllowance | SankiYedim/server/middleware/rate-limit.ts:39-50 | while a window stays live, the requests let through number exactly max minus the count so far, clamped to [0, number of requests] |
| RateLimit.AtMostMaxPerWindow | SankiYedim/server/middleware/rate-limit.ts:31-50 | a window admits its opening request and at most max - 1 more before it ends, so at most max requests when max >= 1 |
| RateLimit.SweepIsTransparent | SankiYedim/server/middleware/rate-limit.ts:14-21 | sweeping before a later request changes neither its answer nor, up to sweeping, the table it leaves |
| RateLimit.RateLimiter.constructor | SankiYedim/server/middleware/rate-limit.ts:11 | the window table starts empty |
| RateLimit.RateLimiter.Handle | SankiYedim/server/middleware/rate-limit.ts:23-52 | the new table and the decision are those of `Admit`; every other key keeps its window |
| RateLimit.RateLimiter.Sweep | SankiYedim/server/middleware/rate-limit.ts:14-21 | the loop deletes exactly the expired windows: the new table is `Swept` of the old one |
| Storage.ApplyEntryPatch | SankiYedim/server/storage.ts:88-95 | an update never changes the id, owner or creation time, and an empty patch changes nothing |
| Storage.ApplyTransferPatch | SankiYedim/server/storage.ts:126-133 | an update changes only method and status |
| Storage.ApplyPreferencePatch | SankiYedim/server/storage.ts:156-173 | an update keeps id and owner and sets the provider exactly when one is given |
| Storage.PatchesAreIdempotent | SankiYedim/server/storage.ts:88-95 | applying the same entry or preferences update twice equals applying it once |
| Storage.Completed | SankiYedim/server/storage.ts:135-145 | completion sets status "completed" and the completion time, whatever the prior status, and keeps every other column |
| Storage.CompletionIdempotent | SankiYedim/server/storage.ts:135-145 | completing twice is completing once at the later time; the status stays "completed" |
| Storage.Linked | SankiYedim/server/storage.ts:176-183 | linking stamps the transfer id on exactly the caller's listed rows, changes nothing else in them, and leaves all other rows as they were |
| Storage.LinkedStep | SankiYedim/server/storage.ts:176-183 | linking one more id changes at most that id's row, and only when the row exists and belongs to the caller |
| Storage.UserPreference | SankiYedim/server/storage.ts:148-154 | the lookup returns a row of the table owned by the user, and nothing exactly when the user has no row |
| Storage.PreferenceUpsert | SankiYedim/server/storage.ts:156-173 | writing a user's row under their existing row's id, or under an unused id when they have none, keeps one row per user and makes it the row found for them |
| Storage.UnusedIdExists | SankiYedim/shared/schema.ts:17 | a fresh id not used by any row always exists |
| Storage.DatabaseStorage.constructor | SankiYedim/server/storage.ts:60 | the three tables start empty and satisfy the table invariants |
| Storage.DatabaseStorage.GetEntries | SankiYedim/server/storage.ts:62-73 | exactly the caller's entries, each once, newest date first |
| Storage.DatabaseStorage.GetEntry | SankiYedim/server/storage.ts:75-81 | a row is returned exactly when it exists and belongs to the caller |
| Storage.DatabaseStorage.CreateEntry | SankiYedim/server/storage.ts:83-86 | one new row under a fresh id, owned by the caller, with an absent date defaulting to now and no transfer; other tables unchanged |
| Storage.DatabaseStorage.UpdateEntry | SankiYedim/server/storage.ts:88-95 | a patch naming no column throws and changes nothing; otherwise the caller's row gets the patch and is returned, and a missing or foreign row gives nothing and no change |
| Storage.DatabaseStorage.DeleteEntry | SankiYedim/server/storage.ts:97-102 | removes the row only if it is the caller's, and answers true either way |
| Storage.DatabaseStorage.GetTransfers | SankiYedim/server/storage.ts:105-111 | exactly the caller's transfers, each once, newest first |
| Storage.DatabaseStorage.GetTransfer | SankiYedim/server/storage.ts:113-119 | a row is returned exactly when it exists and belongs to the caller |
| Storage.DatabaseStorage.CreateTransfer | SankiYedim/server/storage.ts:121-124 | one new row under a fresh id, created now and not completed; other tables unchanged |
| Storage.DatabaseStorage.UpdateTransfer | SankiYedim/server/storage.ts:126-133 | a patch naming neither method nor status throws and changes nothing; otherwise the caller's transfer gets the patch, and a missing or foreign row gives nothing and no change |
| Storage.DatabaseStorage.CompleteTransfer | SankiYedim/server/storage.ts:135-145 | the caller's transfer becomes `Completed` at now with no status check; a missing or foreign row gives nothing and no change |
| Storage.DatabaseStorage.GetPreferences | SankiYedim/server/storage.ts:148-154 | returns the caller's row, or nothing when there is none |
| Storage.DatabaseStorage.CreateOrUpdatePreferences | SankiYedim/server/storage.ts:156-173 | throws, changing nothing, exactly when the caller has a row and the patch names no column; otherwise an upsert: the caller ends with exactly one row, namely the patch applied to the old row or to a fresh default row, and no other user's row changes |
| Storage.DatabaseStorage.LinkEntriesToTransfer | SankiYedim/server/storage.ts:176-183 | the per-id loop leaves the entries table equal to `Linked`; unknown and foreign ids are skipped |
| Bank.Name | SankiYedim/server/lib/bank/manual.ts:35 | the stored method name is one of the two provider names; "manual" exactly for the manual provider |
| Bank.DisplayName | SankiYedim/server/lib/bank/manual.ts:8-10 | "Manual Transfer" and "Plaid Sandbox (Demo)" |
| Bank.GetCapabilities | SankiYedim/server/lib/bank/manual.ts:12-17 | exactly one capability is on; the checklist exactly for the manual provider |
| Bank.ListAccounts | SankiYedim/server/lib/bank/plaid-sandbox.ts:18-25 | none for the manual provider; the three mock accounts, with distinct ids, for the sandbox |
| Bank.AccountsIndependentOfUser | SankiYedim/server/lib/bank/manual.ts:19-22 | the listing does not depend on the user |
| Bank.InitialStatus | SankiYedim/server/lib/bank/manual.ts:36 | a new transfer is "pending_manual" exactly for the manual provider and "scheduled" exactly for the sandbox; never completed or failed |
| Bank.HookFollowsChecklist | SankiYedim/server/lib/bank/manual.ts:46-55 | the `markCompleted` hook exists exactly for the checklist provider, whose transfers start as "pending_manual" |
| Bank.ProviderByName | SankiYedim/server/lib/bank/provider-factory.ts:28-33 | the sandbox for exactly "plaid_sandbox", manual for any other name |
| Bank.ProviderNameRoundTrip | SankiYedim/server/lib/bank/provider-factory.ts:28-33 | looking a provider up by its own name gives it back |
| Bank.ProviderForUser | SankiYedim/server/lib/bank/provider-factory.ts:12-26 | the sandbox exactly when the user's row says "plaid_sandbox"; manual otherwise, also with no row |
| Bank.ProviderForUserByName | SankiYedim/server/lib/bank/provider-factory.ts:20-25 | with a row, the choice agrees with `ProviderByName`; with none, or with a fresh default row, it is manual |
| Bank.CreateTransfer | SankiYedim/server/lib/bank/manual.ts:24-44 | inserts one row with the given total, the provider's name and its initial status, and returns that status with the fresh id |
| Bank.CompleteById | SankiYedim/server/lib/bank/manual.ts:46-55 | the intended update completes the named row now and leaves every other row unchanged |
| Bank.CompleteAll | SankiYedim/server/lib/bank/manual.ts:50-55 | the update as written completes every row of every user now, keeping each row's owner and amount |
| Bank.CompleteAllReachesOthers | SankiYedim/server/lib/bank/manual.ts:54 | the update as written completes every row, so it differs from the intended one whenever another row is not yet completed |
| Bank.MarkCompletedCounterexample | SankiYedim/server/lib/bank/manual.ts:54 | with transfers of two users, completing user A's also completes user B's |
| Bank.MarkCompletedAsWritten | SankiYedim/server/lib/bank/manual.ts:46-55 | every transfer row of every user becomes completed |
| Bank.MarkCompleted | SankiYedim/server/lib/bank/manual.ts:46-55 | only the named transfer becomes completed |
| Routes.SelectEntries | SankiYedim/server/routes.ts:136 | keeps exactly the entries whose id is requested, and keeps ids distinct |
| Routes.Throttles | SankiYedim/server/routes.ts:15-18 | the write limiter turns a request away exactly when the client's window is still open and already holds 60 requests |
| Routes.DistinctSelectionStep | SankiYedim/server/routes.ts:136 | filtering a list whose ids are distinct one element at a time keeps them distinct |
| Routes.SelectionIsOwned | SankiYedim/server/routes.ts:132-136 | the caller's own entries filtered by the requested ids are exactly the caller's rows of the table whose id was requested |
| Routes.ListTotalIsSetTotal | SankiYedim/server/routes.ts:144-147 | summing a list of distinct entries in any order gives the same total |
| Routes.GetEntries | SankiYedim/server/routes.ts:40-50 | 200 with exactly the caller's entries, newest date first |
| Routes.EntryInsertOf | SankiYedim/server/routes.ts:52-72 | an accepted body gives a row with a positive amount and an item of 1..120 characters |
| Routes.PostEntry | SankiYedim/server/routes.ts:52-72 | 429 when throttled; else 400 with the failing fields; else a server error when the amount overflows decimal(10,2); else 201 with the new row owned by the caller |
| Routes.PatchEntry | SankiYedim/server/routes.ts:74-98 | 429 when throttled; a server error, with no change, for a body naming no column or an amount too large for decimal(10,2); 404 when the row is missing or foreign; else 200 with the patched row |
| Routes.DeleteEntry | SankiYedim/server/routes.ts:100-110 | 429 when throttled; otherwise 204, having removed the row only if it is the caller's |
| Routes.GetTransfers | SankiYedim/server/routes.ts:113-123 | 200 with exactly the caller's transfers, newest first |
| Routes.PostTransfer | SankiYedim/server/routes.ts:125-171 | 429; 400 validation; 400 invalid request when none of the ids is the caller's; a server error on total overflow; else 201 with a transfer whose total is the sum of the caller's selected entries, whose method and status come from the caller's provider, and to which exactly those entries are linked |
| Routes.CompleteTransfer | SankiYedim/server/routes.ts:173-202 | 429; 404 unless the transfer is the caller's; else 200 with that transfer completed and no other row changed |
| Routes.CompleteTransferAsWritten | SankiYedim/server/routes.ts:173-202 | as above, except that for a manual-provider user every transfer in the table ends completed |
| Routes.GetPreferences | SankiYedim/server/routes.ts:205-225 | 200 with the caller's row; when none exists a default row is created first, and it is returned |
| Routes.GoalCents | SankiYedim/server/routes.ts:227-243 | a storable goal is stored as the same number of cents |
| Routes.PreferencesPatchOf | SankiYedim/server/routes.ts:227-243 | the update sets the provider given in the body and never the plaid item id |
| Routes.PatchPreferences | SankiYedim/server/routes.ts:227-243 | 429; 400 with the failing fields; a server error for an infinite or overflowing goal, and for a body that sets nothing once unknown keys are stripped when the caller already has a row; else 200 with the stored row: the body's provider, goals, labels and plaid ids applied to the old row, or to a new row under a fresh id whose other columns take their defaults |
| Routes.ProviderPatchAsWritten | SankiYedim/server/routes.ts:246-262 | the update built from the body never sets the provider column |
| Routes.ProviderPatch | SankiYedim/server/routes.ts:246-262 | the intended update sets the provider column to the chosen provider and is otherwise the same |
| Routes.ProviderChoiceDropped | SankiYedim/server/routes.ts:246-262 | as written, saving the settings never changes the user's provider; with the intended update the user gets the chosen one |
| Routes.ProviderChoiceCounterexample | SankiYedim/server/routes.ts:246-262 | a manual user who submits the settings form with "plaid_sandbox" and empty labels and ids still gets the manual provider |
| Routes.PostProviderSettingsAsWritten | SankiYedim/server/routes.ts:246-262 | 429; 400 with "provider"; a server error, with no change, when the caller has a row and the body carries nothing but `provider`; else 200 with the stored row: the body's labels and plaid ids applied to the old row, or to a new default row under a fresh id, so its provider is the old one (or "manual") |
| Routes.PostProviderSettings | SankiYedim/server/routes.ts:246-262 | as above, but the update always names `bankProvider`, so it never fails on the server; the stored row is the chosen provider, labels and plaid ids applied to the old or a new default row, and the user gets the chosen provider afterwards |
| Routes.GetBankAccounts | SankiYedim/server/routes.ts:280-291 | 200 with the accounts of the caller's provider: empty exactly for the manual provider |
| Routes.PostBankLink | SankiYedim/server/routes.ts:265-271 | 429 when throttled, taking a slot of the write window either way; else 200 with the mock token "link-sandbox-mock-token", for every user, expiring one hour after the request |
| Dashboard.Filter | SankiYedim/client/src/pages/dashboard.tsx:90-95 | keeps exactly the entries inside the period |
| Dashboard.SavedInMonotone | SankiYedim/client/src/pages/dashboard.tsx:88-95 | with non-negative amounts, a narrower period never sums to more than a wider one, nor to more than the total |
| Dashboard.SavedThisMonth | SankiYedim/client/src/pages/dashboard.tsx:90-95 | with no negative amount, 0 <= this month's sum <= this year's sum; with no entry in the current month of the current year, 0 |
| Dashboard.SavedThisYear | SankiYedim/client/src/pages/dashboard.tsx:159-161 | with no negative amount, 0 <= this year's sum <= the total saved; with no entry this year, 0 |
| Dashboard.SavedInNone | SankiYedim/client/src/pages/dashboard.tsx:90-95 | a filter that keeps no entry sums to 0 |
| Dashboard.DayTotalBounds | SankiYedim/client/src/pages/dashboard.tsx:139-145 | a day's total is never negative when no amount is, and 0 on a day without entries |
| Dashboard.DaySeries | SankiYedim/client/src/pages/dashboard.tsx:130-151 | the series over n days from lo holds exactly n values |
| Dashboard.BetweenExtend | SankiYedim/client/src/pages/dashboard.tsx:139-145 | extending a day range by one day adds that day's total |
| Dashboard.Last30Days | SankiYedim/client/src/pages/dashboard.tsx:130-151 | the loop builds the totals of days today - 29, ..., today, in that order |
| Dashboard.DaySeriesAt | SankiYedim/client/src/pages/dashboard.tsx:130-151 | value k of the day series starting at lo is the total of day lo + k |
| Dashboard.DaySeriesSum | SankiYedim/client/src/pages/dashboard.tsx:130-151 | the totals of n consecutive days sum to the total over that range of days |
| Dashboard.Last30DaysBounded | SankiYedim/client/src/pages/dashboard.tsx:130-151 | with non-negative amounts every value is >= 0, and the series sums to the last 30 days' total, at most the total saved |
| Dashboard.MonthlyGoal | SankiYedim/client/src/pages/dashboard.tsx:156 | the stored monthly goal, or 0 with no preferences row |
| Dashboard.YearlyGoal | SankiYedim/client/src/pages/dashboard.tsx:157 | the stored yearly goal, or 0 with no preferences row |
| Dashboard.Progress | SankiYedim/client/src/pages/dashboard.tsx:163-164 | 0 for a goal <= 0; otherwise it reaches 100 exactly when the saved amount reaches the goal |
| Dashboard.DisplayedProgress | SankiYedim/client/src/pages/dashboard.tsx:247-258 | shown only for a positive goal; never above 100; exactly 100 once the goal is met; the raw percentage below it |
| Dashboard.SortedDays | SankiYedim/client/src/pages/dashboard.tsx:101-104 | the distinct entry days, newest first |
| Dashboard.PassedOver | SankiYedim/client/src/pages/dashboard.tsx:119-120 | in a newest-first list, stopping at the first older day means the awaited day is absent |
| Dashboard.ScanAsWritten | SankiYedim/client/src/pages/dashboard.tsx:110-122 | over a newest-first day list, the loop as written counts the streak days of the as-written rule present in the list and stops at the first one missing |
| Dashboard.ScanConsecutive | SankiYedim/client/src/pages/dashboard.tsx:110-122 | with `checkDate` fixed at today, the loop counts today, yesterday, ... while they are present and stops at the first one missing |
| Dashboard.StreakOfSorted | SankiYedim/client/src/pages/dashboard.tsx:101-104 | a count found over the distinct sorted days is the streak of the set of entry days |
| Dashboard.CalculateStreakAsWritten | SankiYedim/client/src/pages/dashboard.tsx:98-125 | the loop returns the streak under the rule as written: the k-th counted day lies today - k(k+1)/2 days back |
| Dashboard.CalculateStreak | SankiYedim/client/src/pages/dashboard.tsx:98-125 | the corrected loop returns the number of consecutive days with an entry, ending today |
| Dashboard.StreakUnique | SankiYedim/client/src/pages/dashboard.tsx:98-125 | the streak of a day set is unique under either rule |
| Dashboard.NoEntryTodayNoStreak | SankiYedim/client/src/pages/dashboard.tsx:114-121 | with no entry today the streak is 0 |
| Dashboard.StreakDaysDecrease | SankiYedim/client/src/pages/dashboard.tsx:116-118 | each further counted day is strictly older than the last, and none is after today |
| Dashboard.FutureDaysIrrelevant | SankiYedim/client/src/pages/dashboard.tsx:114-121 | future-dated entry days neither add to nor stop the streak |
| Dashboard.StreakDaysCount | SankiYedim/client/src/pages/dashboard.tsx:116-118 | a streak of n counts n different days |
| Dashboard.StreakAtMostDays | SankiYedim/client/src/pages/dashboard.tsx:101-104 | the streak never exceeds the number of distinct entry days |
| Dashboard.StreakDayMember | SankiYedim/client/src/pages/dashboard.tsx:116-118 | every counted day is the k-th streak day for some k below the streak |
| Dashboard.StreakExamples | SankiYedim/client/src/pages/dashboard.tsx:110-122 | entries on {today, -1, -2}: 2 as written and 3 corrected; on {today, -2}: 1 under both rules |
| Dashboard.DayWord | SankiYedim/client/src/pages/dashboard.tsx:238 | "day" exactly for a streak of 1, otherwise "days" |
| EntriesPage.Lower | SankiYedim/client/src/pages/entries.tsx:114-115 | same length; each ASCII capital is lowered and other characters are kept |
| EntriesPage.LowerIdempotent | SankiYedim/client/src/pages/entries.tsx:114-115 | lowering twice is lowering once |
| EntriesPage.ContainsEmpty | SankiYedim/client/src/pages/entries.tsx:114 | every string contains the empty query |
| EntriesPage.FilterEntries | SankiYedim/client/src/pages/entries.tsx:113-118 | an entry is kept exactly when its item, or its non-empty note, contains the query ignoring case, and the category filter is "all" or equals its category; the result is a subsequence of the input |
| EntriesPage.MatchesSearch | SankiYedim/client/src/pages/entries.tsx:114-115 | the empty query matches every entry; without a note, or with an empty one, an entry matches exactly when its lowered item contains the lowered query |
| EntriesPage.MatchesCategory | SankiYedim/client/src/pages/entries.tsx:116 | "all" takes every entry; any other filter takes only entries of that category, so an entry without one is taken by "all" alone |
| EntriesPage.NoFilterKeepsAll | SankiYedim/client/src/pages/entries.tsx:113-118 | an empty query with category "all" keeps every entry, in order |
| EntriesPage.TotalPages | SankiYedim/client/src/pages/entries.tsx:121 | the smallest number of 10-entry pages that holds n entries |
| EntriesPage.Slice | SankiYedim/client/src/pages/entries.tsx:122 | `slice` gives the contiguous run from the clamped start to the clamped end, empty when the end is not after the start |
| EntriesPage.PageOf | SankiYedim/client/src/pages/entries.tsx:122 | a page never holds more than ten entries, whatever the page number |
| EntriesPage.PageIsContiguous | SankiYedim/client/src/pages/entries.tsx:122 | page p >= 1 is the contiguous slice from (p - 1) * 10, at most 10 long, and empty past the end |
| EntriesPage.PagesPrefix | SankiYedim/client/src/pages/entries.tsx:122 | the first n pages together are the first min(10n, length) entries |
| EntriesPage.AllPagesGiveList | SankiYedim/client/src/pages/entries.tsx:121-122 | pages 1..totalPages concatenated give back the filtered list |
| EntriesPage.PrevPage | SankiYedim/client/src/pages/entries.tsx:297 | never below 1; one back from any page after the first |
| EntriesPage.NextPage | SankiYedim/client/src/pages/entries.tsx:307 | never above totalPages; one on from any page before the last |
| EntriesPage.PageMovesStayInRange | SankiYedim/client/src/pages/entries.tsx:297-307 | from a page in [1, totalPages], previous and next stay in [1, totalPages] |
| EntriesPage.Toggled | SankiYedim/client/src/pages/entries.tsx:125-133 | flips membership of exactly that id |
| EntriesPage.ToggleTwice | SankiYedim/client/src/pages/entries.tsx:125-133 | toggling the same id twice restores the selection |
| EntriesPage.ToggledAll | SankiYedim/client/src/pages/entries.tsx:135-141 | empty when the selection's size equals the page length, otherwise exactly the page's ids |
| EntriesPage.EntriesView.constructor | SankiYedim/client/src/pages/entries.tsx:42-48 | nothing selected, first page |
| EntriesPage.EntriesView.ToggleEntry | SankiYedim/client/src/pages/entries.tsx:125-133 | the selection becomes `Toggled`; the page is kept |
| EntriesPage.EntriesView.ToggleAll | SankiYedim/client/src/pages/entries.tsx:135-141 | the selection becomes `ToggledAll`; the page is kept |
| EntriesPage.EntriesView.GoPrevious | SankiYedim/client/src/pages/entries.tsx:297 | the page becomes `PrevPage` of the old page; the selection is kept |
| EntriesPage.EntriesView.GoNext | SankiYedim/client/src/pages/entries.tsx:307 | the page becomes `NextPage` of the old page; the selection is kept |
| EntriesPage.EntriesView.BulkTransferIds | SankiYedim/client/src/pages/entries.tsx:143-146 | nothing on an empty selection; otherwise a list holding each selected id exactly once |
| TransfersPage.StatusVariant | SankiYedim/client/src/pages/transfers.tsx:67-75 | the four statuses map to their variants; any other status gets the `pending_manual` one |
| TransfersPage.VariantsSeparateKnownStatuses | SankiYedim/client/src/pages/transfers.tsx:68-73 | two known statuses share a badge exactly when they are equal |
| TransfersPage.IndexOf | SankiYedim/client/src/pages/transfers.tsx:81 | the position of the first occurrence |
| TransfersPage.ReplaceFirst | SankiYedim/client/src/pages/transfers.tsx:81 | only the first occurrence is replaced; a string without it is unchanged |
| TransfersPage.IndexOfUnique | SankiYedim/client/src/pages/transfers.tsx:81 | the first occurrence is the only position with no earlier occurrence |
| TransfersPage.ReplaceFirstAt | SankiYedim/client/src/pages/transfers.tsx:81 | when the first occurrence is at k, the replacement changes position k only |
| TransfersPage.PendingLabel | SankiYedim/client/src/pages/transfers.tsx:81 | "pending_manual" is shown as "pending manual" |
| TransfersPage.StatusLabel | SankiYedim/client/src/pages/transfers.tsx:81 | the badge text is as long as the status; a status without '_' is shown as it is; otherwise the first '_' reads as a space and every other character stays |
| TransfersPage.OtherStatusLabels | SankiYedim/client/src/pages/transfers.tsx:81 | "scheduled", "completed" and "failed" are shown as they are |
| TransfersPage.OnlyFirstUnderscore | SankiYedim/client/src/pages/transfers.tsx:81 | a second '_' stays |
| TransfersPage.TransferEntries | SankiYedim/client/src/pages/transfers.tsx:86-88 | exactly the entries linked to the transfer, in their original order |
| TransfersPage.TransferEntriesDisjoint | SankiYedim/client/src/pages/transfers.tsx:86-88 | two different transfers never share an entry |
| TransfersPage.CountLabel | SankiYedim/client/src/pages/transfers.tsx:133 | "entry" exactly for a count of 1, otherwise "entries" |
| TransfersPage.ActionFor | SankiYedim/client/src/pages/transfers.tsx:142-152 | "View Checklist" exactly for "pending_manual", "Processing..." exactly for "scheduled" |
| TransfersPage.ActionFollowsProvider | SankiYedim/client/src/pages/transfers.tsx:142-152 | a new transfer offers the checklist exactly when the manual provider made it; completed and failed ones offer nothing |
| Checklist.DigitChar | SankiYedim/client/src/components/TransferChecklistModal.tsx:54 | a digit character with the given value |
| Checklist.NatToString | SankiYedim/client/src/components/TransferChecklistModal.tsx:54 | the count prints as a non-empty string of digits without leading zeros |
| Checklist.ParseNatToString | SankiYedim/client/src/components/TransferChecklistModal.tsx:54 | reading the printed count gives the count back |
| Checklist.NatToStringInjective | SankiYedim/client/src/components/TransferChecklistModal.tsx:54 | different counts print differently |
| Checklist.MemoText | SankiYedim/client/src/components/TransferChecklistModal.tsx:54 | the memo starts "Sanki Yedim – " and then the date, and ends in " item" for one entry and in "items" otherwise |
| Checklist.Plural | SankiYedim/client/src/components/TransferChecklistModal.tsx:54 | "s" exactly when the count is not 1 |
| Checklist.DigitsBeforeSpace | SankiYedim/client/src/components/TransferChecklistModal.tsx:54 | digits followed by a space split the same way in two equal strings |
| Checklist.MemoDeterminesCount | SankiYedim/client/src/components/TransferChecklistModal.tsx:54 | for one date, the memo determines the entry count |
| Checklist.FromText | SankiYedim/client/src/components/TransferChecklistModal.tsx:121 | the label when non-empty, else "Your checking account" |
| Checklist.ToText | SankiYedim/client/src/components/TransferChecklistModal.tsx:147 | the label when non-empty, else "Your savings account" |
| Checklist.CopyButton | SankiYedim/client/src/components/TransferChecklistModal.tsx:124-134 | a copy button exists exactly for a non-empty label, and copies that label |
| Checklist.CopyMatchesShownText | SankiYedim/client/src/components/TransferChecklistModal.tsx:150-160 | the copy button copies exactly the text shown; without one the fallback is shown; the text is never empty |
| Checklist.OpenDialog | SankiYedim/client/src/pages/transfers.tsx:206-218 | the dialog shows the transfer's id, amount and time, the number of its linked entries, and the labels of the preferences row |
| Checklist.DialogForTransfer | SankiYedim/client/src/components/TransferChecklistModal.tsx:191 | "Mark as Completed" completes the transfer the dialog was opened for; the memo counts exactly its linked entries; with no preferences row both fallbacks show |

## Left out

- Users, sessions and authentication: the caller's id is a parameter. The demo-user middleware is not part of this model.
- The sandbox provider's `setTimeout` auto-completion (plaid-sandbox.ts:45-57). It is a detached timer; its update uses the same always-false filter as the manual hook.
- Floating point: `parseFloat`, `toFixed(2)` and the sums on the client are modelled as exact sums of whole cents. Sub-cent input and its rounding by decimal(10,2) are not modelled.
- The mock account balances are floating-point numbers and are not modelled.
- Date parsing, `toDateString`, `setHours`, time zones and DST: days, months and years are integers. The memo's date formatting (date-fns `yyyy-MM-dd`) is a string parameter of `Checklist.MemoText`.
- Unicode case folding: `EntriesPage.Lower` lowers ASCII letters only.
- `Schema.EntryCreateIssues`: string lengths count Unicode scalar values, while zod's `min`/`max` count UTF-16 code units. An item of 61 emoji (122 code units) is accepted here but refused by the source with the path "item". The date arrives already parsed, so the path "date" that `z.coerce.date()` reports for an unparseable date never appears.
- `Schema.EntryCreateValid`: the same two gaps as `Schema.EntryCreateIssues` (UTF-16 lengths and the unparseable date).
- `Routes.PostBankLink`: the expiry is milliseconds since the epoch, not the ISO string the route formats.
- `Routes.PatchEntry`: the PATCH body is taken as the entry columns it names. Other keys of the raw body are not modelled, among them `id`, `userId` and `createdAt`, which the query would also overwrite; nor are values of the wrong JSON type.
- `Storage.DatabaseStorage.GetEntries`: the `filters` argument of the source is accepted but never applied, so it is not a parameter here.
- `Bank.CreateTransfer`: the `entryIds` argument is not used by either provider and is not a parameter here.
- `TransfersPage.StatusVariant`: keys that a JavaScript object inherits (e.g. "toString") are not modelled. Statuses come from the database.
- Transactions and concurrency: each handler runs alone. A failure between the provider hook and the storage update (no rollback) is not modelled.
- The canvas sparkline renderer, toasts, dialogs' open state and the copied-field flag are presentation only.
- The rate limiter's `setInterval` schedule: the sweep is the method `RateLimit.RateLimiter.Sweep`, called at any time.

## Findings

| source | as written | input that shows it | evidently intended | confidence | as-written member | corrected member |
|---|---|---|---|---|---|---|
| SankiYedim/client/src/pages/dashboard.tsx:116-118 | `checkDate` moves to the matched day, but the distance from it is compared with the running count, so the k-th counted day must lie k(k+1)/2 days back | entries on today, yesterday and the day before give a streak of 2 | the number of consecutive days with an entry, ending today (3 for that input) | not executed | Dashboard.CalculateStreakAsWritten, Dashboard.StreakExamples | Dashboard.CalculateStreak |
| SankiYedim/server/lib/bank/manual.ts:54 | `where(transfers.id === transferId)` compares a column object with a string, which is false; a false filter means no filter, so every transfer row is completed | two users with pending transfers "a" and "b"; completing "a" also completes "b" | complete only the named transfer | not executed | Bank.MarkCompletedAsWritten, Bank.MarkCompletedCounterexample, Routes.CompleteTransferAsWritten | Bank.MarkCompleted, Routes.CompleteTransfer |
| SankiYedim/server/routes.ts:246-262 | the body's `provider` key is passed to the upsert, but it is not a column of the preferences table, so it is dropped | a manual user submits the settings form with "plaid_sandbox" and the labels and ids left empty (`{provider: "plaid_sandbox", fromAccountLabel: "", toAccountLabel: "", plaidFromId: "", plaidToId: ""}`) and still gets the manual provider | store the chosen provider in `bankProvider` | not executed | Routes.PostProviderSettingsAsWritten, Routes.ProviderChoiceCounterexample | Routes.PostProviderSettings |
