# A verified model of a personal-finance server

The server keeps an immutable double-entry ledger for each user and builds everything else on it: recurring
operations posted by a worker, month-end reconciliation, manual asset valuations and a dashboard in several
currencies. This project models that core in Dafny and proves what it promises over all inputs, all runs and all
interleavings of requests.

Run `dafny verify dfyconfig.toml` to check everything.

## How the model is laid out

Each component has its operations as functions over values, laws about those functions, and, where the Go code
changes state step by step, a class or a method with loops that is proved to compute the same function.

| files | component |
|---|---|
| `Calendar`, `Schedule` | the civil calendar behind `time.Date` and `AddDate`; month-end anchored schedules |
| `Windows` | the reconciliation reminder window and the periods that may be reconciled |
| `Digits`, `Money`, `Fx` | positional numerals; the fixed-point parser and printer; rounding and cross rates |
| `Ledger`, `LedgerLaws`, `LedgerAcceptance`, `LedgerTables`, `View` | the ledger, its laws, exactly what it accepts, its two tables as the Go code drives them, and the transaction view |
| `Accounts`, `AccountRequests` | account, category and system rows: created and edited beside the ledger, and exactly when |
| `Cursor`, `Paging`, `PagingFilters` | page cursors, keyset pagination under concurrent posting, and what a filtered list shows |
| `Reconciling`, `ReconcilingLaws`, `ReconcilingFlows`, `ReconcilingDesk` | prepare, confirm and apply; where the money goes and what is recorded |
| `Recurring`, `RecurringLaws`, `RecurringRequests`, `RecurringRuns`, `RecurringWorker` | templates as requested and edited, the worker's batches, and all runs of them |
| `RecurringExact`, `RecurringDependencies`, `RecurringSuccess`, `RecurringBalances` | one posting per date, the accounts behind active templates, when a run succeeds, and what runs do to balances |
| `Valuation`, `ValuationFlows` | assets, their revaluation and purchase, and exactly when they are accepted |
| `Rates`, `RatesTotals`, `Limiter` | the dashboard's rate cache and its totals account by account, the failure limiter |
| `UserRuns`, `UserStates`, `UserDesks`, `UserReversals`, `UserPromises`, `UserViews` | every sequence of one user's requests, in any order: what it keeps, what a request promises for later, what can be shown |
| `Witnesses` | a concrete state for each promise that holds only under a condition |
| `Prelude`, `Sums` | results and options; finite sums |

Conventions of the model:

- An amount is an integer number of 10^-8 units. Text appears where the code parses, prints or compares text.
- A date is either a civil date or its day number; `Calendar.OrderIsLexicographic` says the two orders agree.
- A ledger row's identity is its position in its table. Only pagination sorts by identifier, so there rows carry
  arbitrary distinct 128-bit identifiers.
- Idempotency keys are a datatype: name-based identifiers (section 5.5 of RFC 9562) are injective in their name. A
  caller may supply any key, also one the system would derive; where a law needs a fresh key it says so.
- A database transaction is one step that happens completely or not at all. The constraints and triggers of the
  migrations `db/migrations/000004_ledger_cashflow.up.sql` to `db/migrations/000007_fx_dashboard.up.sql` that decide
  whether a row is accepted are part of the step: unique keys, unique references to a reversed or replaced
  transaction, non-zero entries, the range of `numeric(24, 8)`, one active reconciliation per account and period, one
  asset per account, ownership shares of (0, 100], positive rates, the lock of an account's currency, and the trigger
  against archived accounts and categories. The deferred balance trigger needs no modelling: every journal the code
  builds is proved to balance.
- One user's requests are accounts, categories and system accounts, the change of the functional currency before the
  first posting, operations, reversals and corrections, reconciliations and the cleanup of their previews, assets and valuations. A user's onboarding is the creation of an
  account with an opening balance; the worker's postings are operations with the worker's keys.
- The worker sees many users: a map of ledgers, and for each user the local date, which is an input. The list its
  query returns is an input too, constrained to be the earliest due templates not locked by others; that such a
  list always exists is proved.

## What the code promises only under a condition

Each of these is stated with the exact condition under which it holds, in terms of what is there before the call.
`Witnesses` and, for schedules, `Schedule.SkipsAnAnchoredDate` show for each a concrete state at which the promise
fails.

- A reversal whose key was already used returns that key's transaction and reverses nothing
  (`LedgerLaws.ReversedExactlyWhenKeyFresh`); a correction with such a reversal key posts the replacement without
  reversing the original (`LedgerLaws.ReplacementReversesExactlyWhenKeyFresh`).
- A correction puts an operation in its original's place exactly when the operation's key was unused and is not the
  reversal's; otherwise it is accepted, reverses the original and posts nothing
  (`LedgerLaws.ReplacementShowsExactlyWhen`).
- A new account's opening balance is posted exactly when the key that the client supplies was unused
  (`Accounts.CreateAccountPostsExactlyWhenKeyFresh`).
- The worker's claim of a date has a posting of its own exactly when the date's key was unused; with a used key the
  date is claimed and no money moves (`RecurringLaws.OccurrencePostsExactlyWhenKeyFresh`). In every run in which other
  requests leave the worker's keys alone, that never happens (`RecurringExact.EveryOccurrenceHasItsPosting`).
- The worker's run is one transaction for all users. It succeeds exactly when every template that is to generate a
  date in it can post; in every reachable world that leaves the currencies: the account rows behind those templates
  must be in their user's functional currency (`RecurringSuccess.ReachableRunSucceedsExactlyWhen`). A currency edit of
  an account without postings is accepted and does not pause the templates that use it, and every run that then
  comes to one of them fails for everybody.
- After a reconciliation the balance is the reported amount exactly when the balance without the removable adjustment
  was that amount already or the key was fresh in the ledger (`ReconcilingLaws.LastReportWins`), and likewise for a
  valuation (`Valuation.ValuationSetsTheBalance`).
- A superseded adjustment is reversed exactly when the key derived for its reversal was unused
  (`ReconcilingLaws.SupersededIsReversedExactlyWhen`).
- A reconciliation is refused as a conflict exactly when the active adjustment of its account and period was reversed
  by hand (`ReconcilingLaws.ConflictExactlyWhenBlocked`), and then for good: no later request can reconcile that
  period again (`UserPromises.EveryBlockedPeriodStaysBlocked`).
- A repeated operation returns what it posted exactly when its accounts and category are still usable, because they are
  checked before the key (`LedgerLaws.RetryReplaysExactlyWhenUsable`); a repeated valuation exactly when its asset is
  still active (`Valuation.RetryReplaysExactlyWhenActive`).
- `nextRecurringDate` is the earliest later date of the schedule if and only if its current date meets the schedule,
  before or after the anchor (`Schedule.SuccessorExactlyWhen`); the worker only ever calls it with such dates.
- `AddDate(0, -1, 0)` overflows into the same month exactly when the month before lacks the day; the reminder window
  never meets that case (`Windows.MonthBackOverflowsExactlyWhen`).
- A page cursor is accepted exactly when its year has four digits (`Cursor.CursorRoundTrip`).
- Net worth is assets less liabilities exactly when no convertible liability account is overpaid
  (`Rates.NetWorthIsAssetsLessLiabilities`).

## Model

| member | source | states |
|---|---|---|
| `Calendar.OrderIsLexicographic` | internal/httpapi/recurring.go:334-335 | comparing instants with `After` is comparing year, month and day, through leap years and month ends |
| `Calendar.DayNumberIsGregorian` | internal/httpapi/recurring.go:483-516 | the day number of every date, in any year, is the Gregorian one by the closed form of the leap rules |
| `Calendar.AddDaysShifts` | internal/httpapi/recurring.go:486-489 | adding n days with `AddDate` moves the day number by exactly n |
| `Schedule.AddMonthsClampedLands` | internal/httpapi/recurring.go:508-516 | a clamped step lands in the month it names, on the anchor's day or that month's last day |
| `Schedule.CorrectionLoopIdle` | internal/httpapi/recurring.go:495-501 | the correction loop's guard is false on entry for every anchor, current date and positive step |
| `Schedule.NextRecurringDate` | internal/httpapi/recurring.go:483-506 | the loop returns the specified next date, which is later than the current one |
| `Schedule.SlotsIncrease` | internal/httpapi/recurring.go:483-516 | the dates of a schedule strictly increase |
| `Schedule.NextOfSlot` | internal/httpapi/recurring.go:483-506 | from the k-th date of a schedule the next date is the (k+1)-th |
| `Schedule.IterationNeverDrifts` | internal/httpapi/recurring.go:483-516 | n calls from the anchor equal one clamped step of n intervals, whatever the month ends in between |
| `Schedule.SuccessorExactlyWhen` | internal/httpapi/recurring.go:483-506 | for every current date, before or after the anchor, the result is the earliest later date of the schedule if and only if the current date meets the schedule |
| `Schedule.SkipsAnAnchoredDate` | internal/httpapi/recurring.go:495-502 | a concrete date off the schedule from which an anchored date is stepped over |
| `Windows.MonthEndLands` | internal/httpapi/reconciliation.go:638-640 | `monthEnd` is the last day of the same month |
| `Windows.PromptBounds` | internal/httpapi/reconciliation.go:629-636 | a period's window opens five days before its month end and closes on the fifth of the next month |
| `Windows.OpenExactlyWhen` | internal/httpapi/reconciliation.go:629-636 | open if and only if today is in the period's last six days or the first five of the month after |
| `Windows.AtMostOneOpen` | internal/httpapi/reconciliation.go:629-636 | on any day at most one month end has an open window |
| `Windows.SuggestedMonth` | internal/httpapi/reconciliation.go:616-627 | which month end is suggested on which day of the month |
| `Windows.WindowFindsTheOpenPeriod` | internal/httpapi/reconciliation.go:616-627 | the suggested window is open if and only if some month end's is, and then it is that month end |
| `Windows.ValidExactlyWhen` | internal/httpapi/reconciliation.go:642-651 | a period is accepted if and only if it is a month end of this month or an earlier one |
| `Windows.SuggestionIsValid` | internal/httpapi/reconciliation.go:616-651 | the suggested period always passes validation |
| `Windows.MonthBackOverflowsExactlyWhen` | internal/httpapi/reconciliation.go:616-624 | going back a month overflows exactly when the month before lacks the day, and never on the window's paths |
| `Money.AcceptsExactly` | internal/money/amount.go:17-49 | the parser accepts exactly the numerals of the documented shape |
| `Money.ParseInRange` | internal/money/amount.go:25-48 | an accepted amount has at most 24 scaled digits |
| `Money.ParseAmount` | internal/money/amount.go:17-49 | the parser's branches compute the specified result, errors included |
| `Money.IsAllDigits` | internal/money/amount.go:92-99 | the scan accepts exactly the strings of decimal digits |
| `Money.ParseOfString` | internal/money/amount.go:17-90 | parsing a printed amount gives it back exactly when it is in range, and fails otherwise |
| `Money.StringIsCanonical` | internal/money/amount.go:71-90 | printing never leaves extra zeros, a bare point or a negative zero |
| `Money.CanonicalIsUnique` | internal/money/amount.go:71-90 | a canonical numeral is what its own value prints as, so there is one per value |
| `Money.FormatAmount` | internal/money/amount.go:71-90 | the printer's assignments compute the specified text |
| `Money.ParseOfNumericText` | internal/httpapi/reconciliation.go:468-480 | a database sum printed with eight decimals reads back as itself exactly when it is in range |
| `Money.EqualStringsExactly` | internal/httpapi/reconciliation.go:664-668 | the staleness test on two texts is equality of the values they denote |
| `Fx.RoundIsNearest` | internal/fx/fx.go:389-402 | rounding gives the nearest integer, and of two equally near the one farther from zero |
| `Fx.ScaleInvariant` | internal/fx/fx.go:389-402 | rounding depends on the rational number and not on the terms it is written in |
| `Fx.RoundPrintsAmounts` | internal/fx/fx.go:389-417 | `round` prints the canonical numeral of the rounded integer, which parses back in range |
| `Fx.RoundInPlace` | internal/fx/fx.go:389-417 | the in-place quotient, correction and text building compute the specified text |
| `Fx.RoundWithinHalf` | internal/fx/fx.go:389-402 | the rounded integer is within half a unit of the exact value |
| `Fx.ConvertRounds` | internal/fx/fx.go:331-364 | a conversion is one rounding of the exact rational, refused exactly when out of range |
| `Fx.ConvertWithoutRates` | internal/fx/fx.go:331-352 | an amount in its own currency is unchanged; without a rate the conversion fails with that side's error |
| `Fx.ConvertRoundsOnce` | internal/fx/fx.go:331-364 | between stored rates f and t it is one rounding of amount * t / f |
| `Fx.ConvertByFactor` | internal/fx/fx.go:331-364 | between any two positive rates, the dollar's 1/1 included, it is one rounding of the amount times the cross rate |
| `Fx.RoundTripExact` | internal/fx/fx.go:331-364 | into the currency with the larger rate and back gives the amount exactly |
| `Fx.RoundTripBound` | internal/fx/fx.go:331-364 | any round trip differs by at most (1 + f/t)/2 units |
| `Fx.ConvertRoundTrip` | internal/fx/fx.go:331-364 | both round-trip laws for the conversion itself, through its text, between any positive rates, when both results are in range |
| `Fx.ConvertKeepsZero` | internal/fx/fx.go:331-364 | zero converts to zero between any positive rates |
| `Fx.ConvertIsOdd` | internal/fx/fx.go:331-364 | between any positive rates the opposite amount converts to the opposite result, or fails alike |
| `Fx.ConvertIsMonotone` | internal/fx/fx.go:331-364 | between any positive rates a larger amount never converts to less |
| `Fx.PercentIsNearest` | internal/fx/fx.go:366-379 | a percentage is the canonical numeral of the nearest eight-decimal value, for divisors of either sign |
| `Fx.NormalizeVanishesBelowHalf` | internal/fx/fx.go:381-387 | a positive quote becomes the text "0", which the table of rates refuses, exactly when it is below half a unit |
| `Fx.NormalizeIsNearest` | internal/fx/fx.go:381-387 | a quote is refused exactly when it is not positive; otherwise its text is the numeral of the nearest eight-decimal value |
| `Fx.PercentRefusesZero` | internal/fx/fx.go:366-379 | a percentage fails exactly for a zero divisor |
| `LedgerLaws.PostJournalIsSound` | internal/httpapi/ledger.go:853-889 | posting a balanced journal keeps the ledger sound and append-only; a used key replays |
| `LedgerLaws.TypedOperationIsSound` | internal/httpapi/ledger.go:706-851 | every accepted typed operation appends one balanced transaction of its type and date, or replays |
| `LedgerLaws.OperationMovesAmount` | internal/httpapi/ledger.go:781-850 | a new operation moves exactly its amount from its giver to its receiver from its date on, and changes no other account and no earlier day |
| `LedgerLaws.OpeningBalanceIsSound` | internal/httpapi/ledger.go:691-704 | an opening balance keeps the ledger sound and replaces nothing |
| `LedgerLaws.OpeningBalanceMovesAmount` | internal/httpapi/ledger.go:691-704 | an asset receives its opening balance from opening equity and a liability owes it there |
| `LedgerLaws.RetryReplaysExactlyWhenUsable` | internal/httpapi/ledger.go:729-868 | on any later ledger holding the key, a repeated request returns its transaction and changes nothing if and only if its accounts and category are still usable |
| `LedgerAcceptance.PostedExactlyWhen` | internal/httpapi/ledger.go:706-889 | an operation is accepted if and only if its amount is positive, its accounts and category are usable, and its key replays or the account rows of both sides take the entries |
| `LedgerAcceptance.RefusalsAreReasons` | internal/httpapi/ledger.go:706-851 | each error has its reason: not found, archived, another currency, a bad request, or a row the tables refuse |
| `LedgerAcceptance.StoredAsRequested` | internal/httpapi/ledger.go:781-850 | the type stored is the type requested |
| `UserReversals.EveryOperationIsAcceptedExactlyWhen` | internal/httpapi/ledger.go:706-889 | over any requests an operation is accepted if and only if its amount is positive, its accounts and category are usable, and its key replays or both account rows are in the functional currency |
| `LedgerLaws.TrialBalanceIsZero` | internal/httpapi/ledger.go:853-889 | in a sound ledger the balances of all accounts add up to zero on every day |
| `LedgerLaws.ReversalIsSound` | internal/httpapi/ledger.go:891-944 | a successful reversal is of an unreversed original that is no reversal, answers with the transaction that has its key, and keeps the ledger sound |
| `LedgerLaws.ReversalErasesOriginal` | internal/httpapi/ledger.go:891-944 | after a fresh-key reversal every account has on every day the balance it would have without the original |
| `LedgerLaws.ReversedExactlyWhenKeyFresh` | internal/httpapi/ledger.go:863-868 | a successful reversal request reverses its original if and only if its key was unused |
| `LedgerLaws.SecondReversalConflicts` | internal/httpapi/ledger.go:907-913 | reversing again is a conflict whatever the key, the same key included |
| `LedgerAcceptance.ReversedExactlyWhen` | internal/httpapi/ledger.go:891-944 | a reversal succeeds if and only if its original is posted, no reversal and not reversed, whatever its type, its accounts and the key; a missing original is not found and the rest conflict |
| `UserReversals.EveryTransactionCanBeReversed` | db/migrations/000004_ledger_cashflow.up.sql:297-325 | from a new user on, over any requests with any keys, exactly those transactions can be reversed, also after their accounts or categories were archived |
| `LedgerLaws.ReversesIsAnInjection` | internal/httpapi/ledger.go:904-913 | reversals refer injectively to earlier transactions that are not reversals |
| `LedgerLaws.ReversedPairsCancel` | internal/httpapi/ledger.go:918-942 | in any sound ledger a reversal and its original add nothing to any account on any day |
| `LedgerLaws.ReplacementIsSound` | internal/httpapi/ledger.go:427-468 | a correction keeps the ledger sound and append-only |
| `LedgerAcceptance.ReplacedExactlyWhen` | internal/httpapi/ledger.go:427-468 | a correction succeeds if and only if its original can be reversed and its operation is accepted on the ledger with the reversal |
| `UserReversals.EveryCorrectionIsAcceptedExactlyWhen` | internal/httpapi/ledger.go:427-468 | the same over any requests from a new user on, in terms of the ledger before it |
| `LedgerLaws.ReplacementReversesExactlyWhenKeyFresh` | internal/httpapi/ledger.go:443-456 | a correction reverses what it replaces if and only if its reversal key was unused |
| `LedgerLaws.ReplacementShowsExactlyWhen` | internal/httpapi/ledger.go:427-468 | after any accepted correction the original shows as replaced if and only if it did before or the operation's key was unused and is not the reversal's; without a replacement it shows as reversed if and only if the reversal's key was unused |
| `LedgerLaws.PostedEntries` | internal/httpapi/ledger.go:781-850 | a new operation has two entries of opposite signs: its own account or source first, the category or destination second, leaving the first unless it is an income |
| `LedgerTables.MatchingIsBalance` | internal/httpapi/reconciliation.go:470-475 | summing the joined header and entry rows gives the balance of the log |
| `LedgerTables.Tables.AccountBalanceAt` | internal/httpapi/reconciliation.go:468-480 | the query over the tables and its parse compute the specified balance or error |
| `LedgerTables.Tables.PostJournal` | internal/httpapi/ledger.go:853-889 | the statement-by-statement insert refines the atomic posting and leaves no trace on an error |
| `LedgerTables.Tables.PostTypedOperation` | internal/httpapi/ledger.go:706-851 | the operation on the tables refines the specified one, errors included |
| `LedgerTables.Tables.PostReversal` | internal/httpapi/ledger.go:891-944 | the loop that negates stored entries refines the specified reversal |
| `LedgerTables.Tables.ReplaceTransaction` | internal/httpapi/ledger.go:437-456 | reversal and replacement commit together or not at all |
| `View.GetTransaction` | internal/httpapi/ledger.go:1014-1077 | the loops that pick primary account, counterparty and category compute the specified view |
| `View.ViewShowsOperation` | internal/httpapi/ledger.go:981-1078 | whatever order entries are read in, the view shows the request's type, date, canonical amount, accounts and category |
| `View.ReversalShowsOriginal` | internal/httpapi/ledger.go:1049-1076 | a reversal's view is its original's but for type and status, for any two read orders |
| `UserViews.EveryTransactionHasAView` | internal/httpapi/ledger.go:1031-1077 | from a new user on, every transaction that any requests post has a view, so a page of transactions never fails as a whole |
| `Cursor.Base64RoundTrip` | internal/httpapi/ledger.go:1128-1136 | unpadded URL-safe base 64 decodes to the text it encodes |
| `Cursor.DateRoundTrip` | internal/httpapi/ledger.go:1128-1144 | a formatted date parses back exactly when its year has four digits |
| `Cursor.UuidRoundTrip` | internal/httpapi/ledger.go:1128-1146 | a printed identifier parses back to itself |
| `Cursor.CursorRoundTrip` | internal/httpapi/ledger.go:1128-1147 | a cursor decodes to the date and identifier it encodes exactly when the year has four digits |
| `Paging.SelectTakesTheLargest` | internal/httpapi/ledger.go:509-522 | the query returns the largest candidates in strictly descending order and omits only rows below a full result |
| `Paging.PageIsComplete` | internal/httpapi/ledger.go:542-559 | a page without a cursor holds every candidate; one with a cursor omits only rows below its last |
| `Paging.BuildPage` | internal/httpapi/ledger.go:531-559 | the loop, the cut at the limit and the cursor of the last row compute the specified page |
| `Paging.CursorNamesRow` | internal/httpapi/ledger.go:556-559 | the cursor handed out names the page's last row |
| `UserPromises.EveryRunGrowsTheTable` | internal/httpapi/ledger.go:853-889 | over any batches of requests the table a client pages through only gains rows |
| `UserPromises.EveryWalkIsComplete` | internal/httpapi/ledger.go:479-561 | a client paging while any requests run sees every matching transaction posted before its first page, in strictly descending order, and nothing that does not match |
| `Paging.WalkIsComplete` | internal/httpapi/ledger.go:479-561 | following cursors while anyone posts shows a strictly descending sequence that holds every matching row present at the first page |
| `PagingFilters.ShownExactlyWhen` | internal/httpapi/ledger.go:509-522 | a client that follows cursors to the end is shown a transaction of its first table if and only if its date lies within the days asked for, both included, and it has the account, the category and the type asked for |
| `PagingFilters.PostedIsListedExactlyWhen` | internal/httpapi/ledger.go:479-561 | an operation posted before is listed, whatever runs between the pages, if and only if its own date, accounts, category and type are asked for |
| `PagingFilters.DaysSplitTheList` | internal/httpapi/ledger.go:512-513 | the list ending on a day and the list starting on the next split the undated list into two disjoint parts |
| `PagingFilters.NewestFirst` | internal/httpapi/ledger.go:517-522 | what is shown goes from the newest date and largest identifier down, so nothing shows twice |
| `PagingFilters.PageSize` | internal/httpapi/ledger.go:479-496 | a page is refused exactly for a limit outside 1 to 100 or a bad cursor, and has 25 rows at most by default |
| `ReconcilingLaws.LastReportWins` | internal/httpapi/reconciliation.go:365-453 | after an applied reconciliation the balance at the period end is the report if and only if the balance without the removable adjustment was the report already or the key was fresh, whatever came before |
| `ReconcilingLaws.ApplyKeepsTheDesk` | internal/httpapi/reconciliation.go:365-453 | with fresh keys every invariant is kept and the adjustment is the difference plus the superseded adjustment |
| `ReconcilingFlows.AppliedFlows` | internal/httpapi/reconciliation.go:365-430 | with any keys, every account's balance on every day changes by what the removable adjustment had put there and by the new adjustment: from other income to the account for a surplus, from the account to other expense for a shortfall |
| `ReconcilingFlows.AppliedRecord` | internal/httpapi/reconciliation.go:425-453 | the row names what it supersedes, its reversal and its adjustment, the snapshot holds the report, and nothing else changes |
| `ReconcilingFlows.AppliedExactlyWhen` | internal/httpapi/reconciliation.go:365-453 | on a sound desk a reconciliation is accepted if and only if its period is not blocked, what is read and stored is in range, and the adjustment's system account takes it |
| `ReconcilingFlows.LockedExactlyWhen` | internal/httpapi/reconciliation.go:455-466 | exactly the user's bank and cash accounts in use can be reconciled |
| `ReconcilingLaws.SupersededVanishes` | internal/httpapi/reconciliation.go:371-395 | a superseded adjustment and its reversal contribute nothing to any account on any day |
| `ReconcilingLaws.SupersededIsReversedExactlyWhen` | internal/httpapi/reconciliation.go:371-394 | superseding really reverses the earlier adjustment if and only if the key derived for the reversal was unused |
| `ReconcilingLaws.ConflictExactlyWhenBlocked` | internal/httpapi/reconciliation.go:369-390 | on a sound desk a reconciliation with a new key is a conflict if and only if the active adjustment of its period was reversed by hand |
| `UserPromises.HandReversalBlocks` | internal/httpapi/reconciliation.go:378-385 | reversing the active adjustment by hand with a fresh key is what blocks a period |
| `UserPromises.EveryBlockedPeriodStaysBlocked` | internal/httpapi/reconciliation.go:365-453 | after any requests with any keys a blocked period still has the same active row, a further reconciliation is a conflict and no request adds one |
| `ReconcilingLaws.OtherPostingsKeepTheDesk` | internal/httpapi/reconciliation.go:289-363 | any other posting between preview and confirmation keeps the invariants |
| `ReconcilingLaws.FreshExactly` | internal/httpapi/reconciliation.go:341-344 | a preview is fresh exactly when balance and active reconciliation are the previewed ones |
| `ReconcilingLaws.ExpiredExactlyWhen` | internal/httpapi/reconciliation.go:322-325 | a pending confirmation is refused as expired if and only if it is late, whatever its account and the ledger hold |
| `ReconcilingLaws.StaleExactlyWhen` | internal/httpapi/reconciliation.go:322-344 | on a readable, lockable account it is refused as stale if and only if it is in time and the balance or the active reconciliation moved |
| `ReconcilingLaws.ConfirmReachesApply` | internal/httpapi/reconciliation.go:322-357 | a pending, timely confirmation on a readable, lockable account is stale, or applies the previewed report with every error of that, and then links the preview |
| `ReconcilingLaws.ConfirmRecordsThePreview` | internal/httpapi/reconciliation.go:322-357 | a confirmation records exactly the previewed balances, difference and implied adjustment, whatever was posted and cancelled out in between |
| `ReconcilingLaws.ConfirmOfAppliedKey` | internal/httpapi/reconciliation.go:345-357 | if the preview's key was applied meanwhile, confirming only links the preview to that reconciliation |
| `UserPromises.EveryConfirmationStands` | internal/httpapi/reconciliation.go:309-321 | after a successful confirmation and any requests and cleanups that follow, confirming again at any time returns the same reconciliation and changes nothing |
| `ReconcilingLaws.PreviewThenConfirmIsAuto` | internal/httpapi/reconciliation.go:249-287 | preview then confirm with nothing in between ends as AUTO would, errors included |
| `ReconcilingLaws.PreviewIsSound` | internal/httpapi/reconciliation.go:263-287 | preparing a preview changes nothing but the previews |
| `ReconcilingFlows.PreviewedExactlyWhen` | internal/httpapi/reconciliation.go:157-287 | a preview is answered if and only if the request is well formed and its key is known, or its account can be reconciled in the functional currency with amounts in range; a known key changes nothing |
| `ReconcilingFlows.PreviewShows` | internal/httpapi/reconciliation.go:263-287 | a new preview holds the report, the balance, their difference and the active row, and can be confirmed for exactly 15 minutes |
| `ReconcilingFlows.AutoExactlyWhen` | internal/httpapi/reconciliation.go:157-261 | applied at once, a known key is answered with its reconciliation or its preview and changes nothing; otherwise the request succeeds exactly when the account can be reconciled and applying does |
| `ReconcilingFlows.RequestRefusals` | internal/httpapi/reconciliation.go:157-287 | each error of a reconciliation request has its reason |
| `ReconcilingLaws.AutoKeepsTheDesk` | internal/httpapi/reconciliation.go:249-261 | AUTO keeps the invariants and sets the balance to the parsed report |
| `ReconcilingLaws.CleanupKeepsTheDesk` | cmd/worker/main.go:72-74 | deleting expired previews keeps the invariants |
| `ReconcilingFlows.CleanedExactlyWhen` | cmd/worker/main.go:72-74 | exactly the previews that expired before the cutoff unconfirmed are deleted |
| `ReconcilingDesk.ReconciliationDesk.ApplyReconciliation` | internal/httpapi/reconciliation.go:365-453 | the statements that reverse, supersede, adjust and insert refine the specified step |
| `ReconcilingDesk.ReconciliationDesk.PrepareReconciliation` | internal/httpapi/reconciliation.go:157-287 | the handler refines the specified preparation and leaves nothing behind on an error |
| `ReconcilingDesk.ReconciliationDesk.ConfirmReconciliation` | internal/httpapi/reconciliation.go:289-363 | the handler refines the specified confirmation and leaves nothing behind on an error |
| `RecurringLaws.NormalizedSchedules` | internal/httpapi/recurring.go:453-481 | a schedule is refused exactly for a bad custom interval or an end before the start; each frequency is stored with its unit and count, a custom one as requested |
| `RecurringRuns.CreatedRow` | internal/httpapi/recurring.go:85-155 | a stored template starts on its anchor, active, with the parsed positive amount in canonical form, and its accounts and category are usable in the user's book |
| `RecurringRequests.CreatedDates` | internal/httpapi/recurring.go:453-481 | every date of a created template is the one asked for: a week, a month, a quarter or a year apart on the start's day or that month's last, or the custom interval |
| `RecurringRequests.CreatedExactlyWhen` | internal/httpapi/recurring.go:85-155 | a creation is accepted if and only if schedule, amount, accounts and category are in order, and stores the rows asked for |
| `RecurringRequests.EditedExactlyWhen` | internal/httpapi/recurring.go:171-252 | an edit is accepted if and only if a new amount is positive, a new end is not before the start, and resuming is possible if asked for |
| `RecurringRequests.EditTakesEffect` | internal/httpapi/recurring.go:213-252 | every accepted edit, resuming or not, stores exactly what it asks for, with the reason of a pause, and leaves the rest |
| `RecurringRequests.DependencyRefusals` | internal/httpapi/recurring.go:518-589 | each error of the check of accounts and category has its reason |
| `RecurringRequests.CreationRefusals` | internal/httpapi/recurring.go:95-155 | each error of a creation has its reason |
| `RecurringRequests.EditRefusals` | internal/httpapi/recurring.go:171-235 | each error of an edit has its reason |
| `RecurringRequests.RunPausesCompleted` | internal/httpapi/recurring.go:361-371 | a run pauses a template exactly when its next date lies past its end, as completed, and otherwise changes only the next date |
| `RecurringRequests.ArchivingPauses` | db/migrations/000005_recurring_reconciliation.up.sql:197-241 | archiving an account or a category pauses exactly its owner's active templates that use it, with that reason |
| `RecurringLaws.DependenciesExactlyWhenUsable` | internal/httpapi/recurring.go:518-589 | the check of a template's accounts and category passes if and only if its operation could use them in the user's book |
| `RecurringLaws.ResumeExactlyWhen` | internal/httpapi/recurring.go:171-252 | an edit resumes a template exactly when it is not archived, a new end is neither before the start nor past, a new amount is positive and its accounts and category are usable in the user's book; the new end and amount then take effect |
| `RecurringRuns.EveryReachableStatusIsConsistent` | internal/httpapi/recurring.go:237-250 | over all runs a template is paused exactly when a reason is stored, and archived ones are paused |
| `RecurringDependencies.EveryActiveTemplateIsDependable` | db/migrations/000005_recurring_reconciliation.up.sql:197-241 | over all runs an active template has active asset accounts and an active category of its type: archiving a row pauses what uses it, and resuming checks again |
| `RecurringLaws.NextDateIsUnclaimed` | internal/httpapi/recurring.go:338-352 | the next date of a template is never claimed already |
| `RecurringLaws.PostOccurrenceIsSound` | internal/httpapi/recurring.go:338-359 | one turn of the inner loop claims exactly the next date, advances one template by one date and keeps every invariant |
| `RecurringLaws.OccurrencePostsExactlyWhenKeyFresh` | internal/httpapi/recurring.go:338-358 | the claim's posting is new, of the template's type and of the claimed date if and only if the date's key was unused; it then moves the template's amount between the template's accounts and nothing else, and otherwise the books stay |
| `RecurringExact.NextKeyIsFresh` | internal/httpapi/recurring.go:338-348 | while nobody else uses the worker's keys, the key of a template's next date is unused |
| `RecurringExact.EveryOccurrenceHasItsPosting` | internal/httpapi/recurring.go:269-380 | over all such runs each claim's transaction has the claimed date and the template's type, accounts, category and direction, and a transaction carries a worker's key if and only if it is the posting of that one claim |
| `RecurringExact.EmptyWorldIsExact` | internal/httpapi/recurring.go:269-380 | books without worker's keys and without templates are where such runs start |
| `RecurringLaws.ClaimsHaveOwnPostings` | internal/httpapi/recurring.go:349-352 | distinct claims of a user are posted by distinct transactions |
| `RecurringLaws.RunTemplateFires` | internal/httpapi/recurring.go:334-371 | the inner loop's effect on its row and claims is the row-only loop's |
| `RecurringLaws.RunAllFollowsPlan` | internal/httpapi/recurring.go:324-375 | a whole run's effect follows from template rows alone and keeps every invariant |
| `RecurringLaws.RunAllCounts` | internal/httpapi/recurring.go:356-375 | what a run counts as generated is the number of new claims |
| `RecurringLaws.RunClaimsOnlyDueDates` | internal/httpapi/recurring.go:334-337 | a run claims at most a batch of dates, each on or before its owner's local today and the end date in force |
| `RecurringLaws.DueListExists` | internal/httpapi/recurring.go:285-297 | the due query always has an answer |
| `RecurringRuns.ListedEarliestFirst` | internal/httpapi/recurring.go:291-295 | the list has active, unarchived templates whose date has come, by date and then by identifier |
| `RecurringRuns.LeftOutComeLater` | internal/httpapi/recurring.go:291-297 | a template that has come is left out only behind a full list of earlier ones |
| `RecurringRuns.RunSettings` | internal/httpapi/recurring.go:269-284 | without the lock nothing happens, and a batch size below one means one hundred |
| `RecurringRuns.RunMakesProgress` | internal/httpapi/recurring.go:285-375 | a run moves dates from pending to claimed, keeps every template's target and strictly lowers the work left if it found any |
| `RecurringRuns.BatchingIsConfluent` | internal/httpapi/recurring.go:285-375 | runs with any batch sizes and any locked rows, repeated until nothing is due, end with the same rows and the same claims |
| `RecurringRuns.LargeBatchDrains` | internal/httpapi/recurring.go:285-375 | one unlocked run with a batch above the work left drains everything, so it is such an end |
| `RecurringRuns.PendingIsUnclaimed` | internal/httpapi/recurring.go:338-352 | no date that a template still owes is claimed already |
| `RecurringRuns.EnoughRunsAreQuiet` | internal/httpapi/recurring.go:285-375 | batching terminates: as many successful unlocked runs as the work weighs, of any batch sizes, leave nothing due |
| `RecurringRuns.QuietClaimsEveryDate` | internal/httpapi/recurring.go:285-375 | once nothing is due, every date of an active template's schedule up to its owner's local date is claimed |
| `RecurringRuns.CompletedClaimsEveryDate` | internal/httpapi/recurring.go:361-371 | a completed template has every date up to its end claimed |
| `RecurringSuccess.OccurrenceExactlyWhenPostable` | internal/httpapi/recurring.go:338-348 | with the worker's keys left alone, one occurrence posts if and only if its template's amount, accounts and category are in order and the rows behind them are in the functional currency |
| `RecurringSuccess.RunSucceedsExactlyWhen` | internal/httpapi/recurring.go:269-380 | a run succeeds if and only if the template of every date it is to claim can post |
| `RecurringSuccess.ReachableRunSucceedsExactlyWhen` | internal/httpapi/recurring.go:269-380 | in every reachable world a run succeeds if and only if the account rows behind the templates of the dates it is to claim are in their user's functional currency |
| `RecurringSuccess.EnoughRunsSucceedExactlyWhen` | internal/httpapi/recurring.go:285-375 | as many unlocked runs as the work weighs all succeed, and then leave nothing due, if and only if every template with a pending date can post |
| `RecurringBalances.RunsMove` | internal/httpapi/recurring.go:338-359 | any sequence of runs changes each account's balance on each day by the amounts of exactly the dates it claims |
| `RecurringBalances.BalancesAreConfluent` | internal/httpapi/recurring.go:285-375 | two batchings that both leave nothing due end with the same rows, the same claims and the same balance of every account on every day, the pending dates' amounts added |
| `RecurringRuns.EveryReachableWorldIsSound` | internal/httpapi/recurring.go:269-380 | over any runs, creations, edits, archivings, other postings with any keys and failures, a template's claims are exactly s(0) to s(k-1), its next date is s(k), and every claim names a transaction with the claim's key |
| `RecurringWorker.Worker.CreateTemplate` | internal/httpapi/recurring.go:95-155 | the handler checks the request against its user's book, inserts the specified row or returns the specified error, and keeps the tables sound |
| `RecurringWorker.Worker.UpdateTemplate` | internal/httpapi/recurring.go:171-260 | the handler's checks, against the owner's book when resuming, and its columns are the specified edit, and keep the tables sound |
| `RecurringWorker.Worker.RunOne` | internal/httpapi/recurring.go:326-371 | the inner loop and the row update refine the specified run over one template |
| `RecurringWorker.Worker.RunBatch` | internal/httpapi/recurring.go:324-375 | the outer loop with its early stop refines the specified run over the listed templates |
| `RecurringWorker.Worker.GenerateRecurring` | internal/httpapi/recurring.go:269-380 | a run refines the specification, reports exactly the new claims, and leaves nothing behind without the lock or on an error |
| `Valuation.OwnedWithinMarket` | internal/httpapi/assets.go:429-438 | the owned value is the nearest eight-decimal share of the market value, between zero and it |
| `Valuation.ValuationSetsTheBalance` | internal/httpapi/assets.go:401-480 | dates never decrease, the row records the balance before it, and the balance on the date becomes the owned value if and only if it was that already or the derived key was fresh |
| `ValuationFlows.ValuedFlows` | internal/httpapi/assets.go:440-480 | every account's balance on every day changes by the asset's gain or loss alone, against the unrealized gain and loss account, if the derived key was unused; the row names the posting |
| `ValuationFlows.ValuedExactlyWhen` | internal/httpapi/assets.go:345-480 | a valuation is accepted if and only if its value and asset are in order and its key is known, or no later valuation exists, the amounts are in range and the revaluation can be posted |
| `ValuationFlows.ValuationRefusals` | internal/httpapi/assets.go:355-480 | each error of a valuation has its reason: a bad value, no such asset, an archived asset or a later valuation, another currency, or a row the tables refuse |
| `Valuation.RetryReplaysExactlyWhenActive` | internal/httpapi/assets.go:355-415 | on any later holdings a used key returns its valuation and changes nothing if and only if the request names an active asset in the functional currency and an acceptable value |
| `Valuation.CreateAssetIsSound` | internal/httpapi/assets.go:96-226 | a created asset has an account and a key of its own, and its purchase moves the price there if and only if the derived key was unused |
| `ValuationFlows.AssetExactlyWhen` | internal/httpapi/assets.go:96-226 | an asset is accepted if and only if its share and currency are in order and its key is known, or its account is free and usable and its purchase can be paid |
| `ValuationFlows.AssetStored` | internal/httpapi/assets.go:140-226 | an accepted asset stores its own row, a new account of its own if it named none, and purchases alone |
| `ValuationFlows.AssetRefusals` | internal/httpapi/assets.go:96-226 | each error of an asset's creation has its reason |
| `ValuationFlows.ArchivedTogether` | internal/httpapi/assets.go:269-330 | an asset and its account are archived and taken back together |
| `Valuation.OutOfOrderExactlyWhen` | internal/httpapi/assets.go:420-428 | an acceptable request is a conflict exactly when some valuation of the asset is dated later |
| `Valuation.AssetRegister.LatestDate` | internal/httpapi/assets.go:420-421 | the scan finds the latest valuation date of the asset |
| `Valuation.AssetRegister.CreateAssetValuation` | internal/httpapi/assets.go:345-480 | the handler refines the specified valuation and leaves nothing behind on an error |
| `Rates.DashboardRates.Lookup` | internal/httpapi/dashboard.go:334-353 | a cached lookup answers as the table does and reports stale rates alike |
| `Rates.DashboardRates.Convert` | internal/httpapi/dashboard.go:305-332 | with any cache every answer is the uncached one, and a currency is reported missing exactly when an amount is left out |
| `Rates.DashboardRates.BalanceSheet` | internal/httpapi/dashboard.go:91-138 | the status is incomplete if and only if some balance cannot be converted, and otherwise stale if and only if some conversion uses a stale rate |
| `Rates.DashboardRates.BalanceTotals` | internal/httpapi/dashboard.go:91-113 | the loop fails exactly with the first conversion that fails; otherwise it computes the specified totals, reports something missing exactly when a balance was left out, and reports every stale rate used |
| `RatesTotals.TotalsAreSums` | internal/httpapi/dashboard.go:91-113 | net worth, assets, liabilities, cash and each currency's exposure are the sums over exactly the accounts each is about, overdrawn assets included |
| `RatesTotals.ConvertibleExactlyWhen` | internal/httpapi/dashboard.go:305-332 | an account is left out if and only if its currency or the display currency has no rate by the day, and which of the two is reported |
| `RatesTotals.RateUsed` | internal/httpapi/dashboard.go:334-353 | the rate used is the latest by the day, and one for the dollar |
| `Rates.ExposureSplitsAssets` | internal/httpapi/dashboard.go:104-110 | exposure by currency adds up to the assets |
| `Rates.CashIsLiquidAssets` | internal/httpapi/dashboard.go:104-108 | cash is what the assets would be over the liquid asset accounts alone |
| `Rates.NetWorthIsAssetsLessLiabilities` | internal/httpapi/dashboard.go:103-112 | net worth is at least assets less liabilities, with equality exactly when no liability account is overpaid |
| `Rates.ConvertedWithinHalf` | internal/httpapi/dashboard.go:96-103 | a converted balance is within half a unit of its exact value |
| `Rates.NetWorthWithinHalfUnits` | internal/httpapi/dashboard.go:91-113 | a net worth over n accounts is within n/2 units of the exact rational sum |
| `Limiter.WindowExactlyWhenFailed` | internal/httpapi/rate_limit.go:28-64 | a key has a window if and only if it has failed since its last success |
| `Limiter.WindowCounts` | internal/httpapi/rate_limit.go:40-49 | a window starts at a failure that no earlier window covers, every failure of the key since then falls before its end and is counted, and no success lies in between |
| `Limiter.BlockedExactlyWhen` | internal/httpapi/rate_limit.go:28-38 | a key is refused if and only if a window runs that one of its failures opened and no success closed, with at least the maximum of failures in it |
| `Limiter.RefusedFromTheMaximum` | internal/httpapi/rate_limit.go:28-58 | from a clean start a key is refused from exactly its maximum-th failure on |
| `Limiter.LoginLimiter.Allowed` | internal/httpapi/rate_limit.go:28-38 | a key is refused exactly when the history of events blocks it |
| `Limiter.LoginLimiter.Failed` | internal/httpapi/rate_limit.go:40-58 | a failure extends the history; eviction keeps every later answer |
| `Limiter.LoginLimiter.Evict` | internal/httpapi/rate_limit.go:51-57 | exactly the expired entries go, in whatever order the map is visited |
| `Limiter.LoginLimiter.Succeeded` | internal/httpapi/rate_limit.go:60-64 | a success closes the key's window |
| `UserRuns.EveryRunBalances` | internal/httpapi/ledger.go:853-889 | over every sequence of requests with any keys, posted transactions never change and all balances add up to zero on every day |
| `UserRuns.EveryReplacedIsReversedOnce` | internal/httpapi/ledger.go:427-468 | over every run whose corrections use fresh reversal keys, every replaced transaction is reversed, and none is replaced or reversed twice |
| `UserDesks.EveryRunKeepsOrder` | internal/httpapi/reconciliation.go:365-453 | over every run with any keys: at most one active reconciliation per account and period, one per key, and a confirmed preview names the reconciliation with its key |
| `UserDesks.EveryActiveReconciliationIsTheOne` | internal/httpapi/reconciliation.go:482-492 | after any requests with any keys an active reconciliation of a period is the one the query finds |
| `UserDesks.SnapshotsLockTheCurrency` | db/migrations/000005_recurring_reconciliation.up.sql:151-166 | an account without postings can change its currency exactly until its first balance snapshot |
| `UserStates.EveryRunKeepsState` | internal/httpapi/reconciliation.go:365-453 | over every run whose reconciliations use fresh keys: in addition each row is linked to an adjustment of its account, date and amount, superseded adjustments are reversed, and valuations are in date order within their market values |
| `UserStates.EveryRunKeepsHoldings` | internal/httpapi/assets.go:96-480 | over every run with any keys, assets have accounts, keys and shares as they should and valuations stay in date order |
| `UserStates.NewUserIsSound` | internal/httpapi/ledger.go:604-643 | a user who has just registered satisfies every invariant |
| `UserPromises.EveryRetryReplaysExactlyWhenUsable` | internal/httpapi/ledger.go:706-868 | whatever happens after an operation was accepted, repeating it replays it if and only if its accounts and category are still usable |
| `UserPromises.EveryValuationRetryReplaysExactlyWhenActive` | internal/httpapi/assets.go:355-415 | whatever happens after a valuation was accepted, its key replays it if and only if the repeated request names an active asset and an acceptable value |
| `Accounts.CreateAccountPostsExactlyWhenKeyFresh` | internal/httpapi/ledger.go:141-163 | a new account's opening balance is posted if and only if its key was unused, and moves nothing else |
| `Accounts.UpdateAccountIsSound` | internal/httpapi/ledger.go:205-233 | editing an account's currency and archiving keeps the ledger sound and every posting in place |
| `Accounts.ChangeCurrencyIsSound` | internal/httpapi/profile.go:203-213 | changing the functional currency is refused after the first posting, and keeps the ledger sound and every row in place |
| `AccountRequests.CreatedExactlyWhen` | internal/httpapi/ledger.go:141-163 | an account is created if and only if it is an active asset or liability with a free identifier whose opening balance, if any, can be posted; its row is as requested |
| `AccountRequests.CreationRefusals` | internal/httpapi/ledger.go:120-163 | each error of an account's creation has its reason |
| `AccountRequests.EditedExactlyWhen` | internal/httpapi/ledger.go:205-233 | a currency can be changed if and only if the account has neither postings nor snapshots, archiving always, and only what is asked for changes |
| `AccountRequests.CategoryStored` | internal/httpapi/ledger.go:946-960 | a category has an active account of its own, of income or of expense by its direction |
| `AccountRequests.CategoryArchived` | internal/httpapi/ledger.go:323-360 | a category is archived and taken back, and nothing else of it changes |
| `AccountRequests.SystemStored` | internal/httpapi/ledger.go:604-643 | a system account is created once, of its class and in the functional currency |
| `AccountRequests.CurrencyExactlyWhen` | internal/httpapi/profile.go:203-213 | the functional currency can be changed if and only if nothing is posted yet |
| `Witnesses.UsedReversalKey` | internal/httpapi/ledger.go:863-868 | a reversal with a used key is accepted and reverses nothing |
| `Witnesses.UsedCorrectionKey` | internal/httpapi/ledger.go:443-456 | a correction with a used reversal key replaces without reversing |
| `Witnesses.CorrectionWithoutReplacement` | internal/httpapi/ledger.go:443-456 | a correction with a used operation key, or the same key twice, reverses its original and posts nothing in its place |
| `Witnesses.UsedOpeningKey` | internal/httpapi/ledger.go:153-163 | an account created with a used opening key has no opening balance |
| `Witnesses.RetryAfterArchiving` | internal/httpapi/ledger.go:745-748 | a posted operation that is a conflict when repeated after its account was archived |
| `Witnesses.UsedReconciliationKey` | internal/httpapi/reconciliation.go:411-421 | a reconciliation with a used key is recorded while the balance stays |
| `Witnesses.UsedSupersedingKey` | internal/httpapi/reconciliation.go:378-394 | a reconciliation that supersedes with a used derived key marks the earlier row and leaves its adjustment unreversed |
| `Witnesses.UsedValuationKey` | internal/httpapi/assets.go:457-469 | a valuation with a used derived key is recorded while the balance stays |
| `Witnesses.ValuationAfterArchiving` | internal/httpapi/assets.go:395-415 | a valuation that is a conflict when repeated after its asset was archived |
| `Witnesses.HandReversedPeriod` | internal/httpapi/reconciliation.go:378-385 | a sound desk whose period is blocked |
| `Witnesses.OverpaidLoan` | internal/httpapi/dashboard.go:103-112 | a net worth above assets less liabilities |
| `Witnesses.UsedOccurrenceKey` | internal/httpapi/recurring.go:338-358 | a date that the worker claims without posting anything |
| `Witnesses.CurrencyEditBlocksTheRun` | internal/httpapi/recurring.go:345-348 | one user's accepted currency edit after which every run that comes to the user's active transfer fails, whatever else is due |
| `Witnesses.MonthBackFromMarch` | internal/httpapi/reconciliation.go:616-624 | a month back from 31 March is still in March |
| `Witnesses.FiveDigitYear` | internal/httpapi/ledger.go:1128-1144 | a cursor for the year 10000 is refused |

## Left out

- HTTP, JSON, sessions, CSRF, authentication and the web application.
- Field texts: names, descriptions and notes, their trimming and lengths, and the `AUTO` mode setting, which is an input.
- Time zones and wall clocks: local dates and the current time are inputs.
- Retries of serializable transactions and the advisory lock itself: a run has the lock or does nothing.
- One user's data never meets another's: each user has a separate book, so the `user_id` filters are not modelled.
- Gap months, `gapStart` and the SQL `age()` computation, which only label descriptions.
- `posted_at`, `created_at` and `updated_at`, and the order of entries when a reversal reads them; they are read in insertion order, while the view covers every order.
- The intermediate precision of PostgreSQL's division in `round(market * share / 100, 8)`: the quotient is taken as exact.
- Templates keep the text that the amount prints as, not the eight-decimal text of the column; both parse to the same amount.
- Other spellings `uuid.Parse` accepts (prefix, braces, no dashes) and the upper-casing of currency codes.
- Fetching, refreshing and backfilling rates from the provider.
- The dashboard's cash flow, allocation and history queries.
- Names and descriptive fields of accounts, categories and assets, and the onboarding rows that trigger an account's or a template's creation.
- The four system accounts and the two general categories are created by separate steps, where the code creates them together.
- The width of Go's `int` in month arithmetic: years stay far below it.
