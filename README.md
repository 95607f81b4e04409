# munn projection engine in Dafny

munn is a personal-finance simulator. It holds a portfolio of accounts, manual balance
overrides ("adjustments") and scheduled transactions. It steps over the calendar day by day and
records a snapshot of every account on each day that something changed. This project models that
engine and proves properties of the model.

The repository's files come from two revisions that cannot be merged, so they are modelled as
separate modules:

| module | file | models |
|---|---|---|
| `Dates` | dates.dfy | Go `time` on whole days: day 0 is 0001-01-01 (the zero `time.Time`, a Monday); `Date`, `Time.Date()`, `AddDate`, `Weekday()` |
| `Text`, `Strconv`, `Results` | text.dfy, strconv.dfy, results.dfy | `strings.ToLower`, `Trim`, `Split`; `strconv.Atoi` on 64-bit ints; `Option` and `Result` |
| `Schedules` | schedule.go | the later revision's `Schedule` types: Weekly, Biweekly, Monthly and Once, each with `ShouldApply`, `YearlyFactor` and `ParseSchedule` |
| `Ledger` | portfolio.go | the earlier revision: `Frequency`, `ScheduledTransaction`, the `NewX` constructors and `Project(from, to)` |
| `LedgerParser` | parser.go | the earlier revision's `Parse` after JSON decoding, and `jsonFrequency.UnmarshalJSON` after the regex match |
| `Projection` | portfolio_project.go, portfolio_stats.go | the later revision's `Project(years)`, with `recordAccounts` and the retirement check, `sortTime`, and `Stats` |

Accounts, adjustments and transactions are values held in sequence fields of a `Portfolio`
class. A pointer to an account is its index in `accounts`. Each method that changes the portfolio
is proved against a function on the whole portfolio value (`Contents()`). The properties are then
proved about those functions.

Calls into code that is not part of this model become parameters:
- `Account.GainInterest` and `Transaction.Apply` of the later revision are the two functions of
  `Projection.Hooks`;
- `RetirementPlan.BalanceNeeded` is a function field of `Projection.RetirementPlan`;
- `TotalBalance` is the sum of the account balances.

Behaviour worth knowing:
- A Monthly schedule's next day is the day of the month of "last firing + 1 month" after
  normalisation. From the 29th to the 31st that can be two months on
  (`Schedules.MonthlySkipsShortMonth`).
- Retirement is checked only when `recordAccounts` records a snapshot
  (portfolio_project.go:49-54). So the retirement date is the first snapshot day whose total
  crosses, not the first such day overall.
- In `Project(years)` the adjustments run in a phase of their own, one turn per distinct
  adjustment time. The later day loop runs interest and then transactions only
  (portfolio_project.go:57-95).
- `Project(from, from)` of the earlier revision prints nothing: the window is empty
  (`Ledger.ProjectionShowsFirstDay`).
- Several adjustments for one account due on the same day all apply in list order, and the
  account keeps the balance of the last of them (`Ledger.AdjustUpToBalances`,
  `Projection.AdjustGroupBalances`).

## Model

| member | source | states |
|---|---|---|
| Schedules.Kind.YearlyFactor | schedule.go:48-50 | 52, 26, 12 and 0 for Weekly, Biweekly, Monthly and Once (lines 88-90, 125-127, 162-164): never negative, and zero exactly for Once |
| Schedules.Schedule.constructor | schedule.go:25-29 | `Weekly(day)`, `Biweekly(day)`, `Monthly(day)`, `Once(t)`: a schedule of that kind whose cursor is the zero time, not yet applied |
| Schedules.Schedule.ShouldApply | schedule.go:36-46 | for every kind (also lines 76-86, 116-123, 153-159): the answer is `Fires` of the old cursor; on no, the cursor is unchanged; on yes, `lastApplied` becomes t, or Once becomes applied |
| Schedules.NextDue | schedule.go:36-46 | the next due day (also lines 76-86, 116-123): Weekly's lies in lastApplied+1..lastApplied+7 and Biweekly's in lastApplied+8..lastApplied+14, each on the schedule's weekday; Monthly's is given by the `MonthlyDue` lemmas |
| Schedules.Fires | schedule.go:41-45 | the answer of `ShouldApply` (also lines 81-85, 118-122, 153-159): Once while unapplied and not before its date, the others when t is not before `NextDue`; its properties are `FiresOncePerDay` and `OnceFiresOnce` |
| Schedules.Advance | schedule.go:41-45 | the cursor after `ShouldApply` (also lines 81-85, 118-122, 153-159): unchanged on no; t, or applied for Once, on yes; `Schedule.ShouldApply` is proved against it |
| Schedules.WalkBackFrom | schedule.go:37-40 | the walk-back loop ends on the last day with the target weekday on or before lastApplied + days |
| Schedules.WeeklyDueWindow | schedule.go:37-40 | a Weekly schedule is next due on the unique day in lastApplied+1..lastApplied+7 with its weekday |
| Schedules.BiweeklyDueWindow | schedule.go:77-80 | a Biweekly schedule is next due on the unique day in lastApplied+8..lastApplied+14 with its weekday |
| Schedules.SteadyStride | schedule.go:37-40 | after firing on its own weekday, Weekly is next due exactly 7 days later and Biweekly exactly 14 days later |
| Schedules.MonthlyDueFromMonthStart | schedule.go:117-118 | Monthly(d) is due d - 1 days after the first of the month that lastApplied + 1 month normalises to |
| Schedules.MonthlyDueAfter | schedule.go:117-122 | for d >= 1, Monthly is next due strictly after lastApplied and not before the next month: at most one firing per calendar month |
| Schedules.MonthlySkipsShortMonth | schedule.go:117-118 | in any leap year, from January 31, +1 month normalises to March 2, so Monthly(15) is next due on March 15 and February is skipped |
| Schedules.MonthlyDayRollsOver | schedule.go:117-118 | in any leap year, Monthly(31) after January 15 is due on "February 31", which is March 2 |
| Schedules.FiresOncePerDay | schedule.go:41-45 | a schedule that fired on day t does not fire again on day t (Monthly when its day is >= 1) |
| Schedules.OnceFiresOnce | schedule.go:153-159 | Once fires only on or after its date and while not applied; once it has fired, it never fires again |
| Schedules.ParserNamed | schedule.go:10-15 | a parser is registered exactly for Weekly, Biweekly, Monthly and Once |
| Schedules.ParseFormatDate | schedule.go:171 | the "2006-01-02" layout reads back every valid date written in it |
| Schedules.WeekdayArg | schedule.go:52-62 | the weekday argument (also lines 92-102): Sunday with no arguments; otherwise accepted exactly when the lower-cased first argument is a table key, naming that weekday, and on failure the error carries the argument as given |
| Schedules.ParseSchedule | schedule.go:52-62 | each parser (also lines 92-102, 129-139, 166-176) yields a schedule of its own kind; "invalid weekday" comes only from Weekly and Biweekly, and the date errors only from Once |
| Schedules.ParseDate | schedule.go:171 | a date parses only from ten characters with '-' at positions 4 and 7; `ParseFormatDate` shows every valid date reads back |
| Schedules.ParseDefaults | schedule.go:52-62 | with no arguments: Weekly and Biweekly default to Sunday, Monthly to day 1, and Once is an error (lines 92-102, 129-139, 166-169) |
| Schedules.ParseMonthly | schedule.go:129-139 | Monthly succeeds exactly when Atoi does, with Atoi's value; otherwise Atoi's own error |
| Schedules.ParseOnce | schedule.go:166-176 | Once fails unless there is exactly one argument; with one, it succeeds exactly when the date parses |
| Schedules.ExplicitWeekdayRejected | schedule.go:52-62 | as written, any explicit weekday argument of Weekly or Biweekly is "invalid weekday" (also lines 92-102) |
| Schedules.FoldedAcceptsTableKeys | schedule.go:56 | with the intended case-insensitive lookup, every spelling of a weekday name is accepted |
| Dates.Date | schedule.go:118 | `time.Date(y, m, d)`: the day number, with the month carried into the year and the day added as an offset; `CivilOfDate` and `DateInYear` state it |
| Dates.CivilOf | schedule.go:117 | `Time.Date()`: a valid year, month and day that `Date` maps back to the same day |
| Dates.AddDate | schedule.go:117 | `AddDate(y, m, d)`: `Date` of the shifted year, month and day; `AddDays` states the day shift |
| Dates.WeekdayOf | schedule.go:38 | `Weekday()`: day 0 is a Monday, and a week later is the same weekday (`WeekLater`) |
| Dates.DateInYear | schedule.go:118 | for a month of 1 to 12, `Date` is the days before the year plus the days before the month plus d - 1 |
| Dates.WeekLater | schedule.go:38-40 | a day seven days on has the same weekday |
| Dates.CivilOfDate | schedule.go:117 | `Time.Date()` gives back exactly the year, month and day of a valid date |
| Dates.AddDays | schedule.go:37 | `AddDate(0, 0, k)` moves a day by exactly k days |
| Dates.OnOrBeforeUnique | schedule.go:38-40 | exactly one day in any seven consecutive days has a given weekday |
| Dates.WalkBack | portfolio.go:129-132 | the walk-back loop returns the last day with the weekday on or before its start |
| Dates.ShiftDays | portfolio_project.go:77 | `now.AddDate(0, 0, 1)` style shifts add exactly the number of days |
| Strconv.Atoi | schedule.go:133 | a successful result fits in int64; every error carries the whole input |
| Strconv.AtoiItoa | schedule.go:133 | Atoi reads back every int64 that Itoa writes |
| Strconv.AtoiNeedsDigits | parser.go:97 | the empty string and a lone sign are syntax errors |
| Text.ToLower | schedule.go:56 | same length; each ASCII capital becomes its small letter and every other character is kept; no ASCII capital remains |
| Text.SplitJoin | parser.go:79 | joining the pieces of `Split` with the separator gives the input back; no piece holds the separator |
| Text.SplitFirst | parser.go:79 | the first piece is everything before the first separator |
| Ledger.Weekly | portfolio.go:119-133 | `Weekly(day)`: for every t, Next(t) lies in t+1..t+7 and falls on the weekday |
| Ledger.Monthly | portfolio.go:136-148 | `Monthly(day)`: Next(t) is day `day` of the month that t + 1 month normalises to (`MonthlyNextInMonth`) |
| Ledger.WeeklyNextWindow | portfolio.go:128-134 | `weeklyFrequency.Next(t)` is the unique day in t+1..t+7 with the frequency's weekday |
| Ledger.MonthlyNextInMonth | portfolio.go:145-148 | `monthlyFrequency.Next(t)` is day `day` counted from the first of the month t + 1 month normalises to |
| Ledger.WeeklyNext | portfolio.go:128-134 | the loop returns the same day as `Weekly(wd).next(t)` |
| Ledger.FrequenciesMoveForward | portfolio.go:128-148 | Next is strictly after t for Weekly, and for Monthly when day >= 1 |
| Ledger.Credit | portfolio.go:170-175 | a balance update keeps the number and the names of the accounts |
| Ledger.StepsKeepShape | portfolio.go:104-176 | applying an adjustment or a transaction keeps the accounts' names and every reference |
| Ledger.AdjustmentStep | portfolio.go:104-112 | `ManualAdjustment.Apply`: reports a change exactly when not applied and now >= Time; otherwise nothing changes; on a change this adjustment alone becomes applied and transactions are untouched |
| Ledger.TransactionStep | portfolio.go:163-180 | `ScheduledTransaction.Apply`: fires exactly when now >= Next(lastApplied); otherwise nothing changes; on firing, adjustments are untouched and only this transaction's lastApplied changes, to now |
| Ledger.AdjustmentAppliesOnce | portfolio.go:104-112 | Apply reports true exactly when not yet applied and now >= Time; it then sets the balance to exactly Balance, leaves every other account as it was, and never reports true again |
| Ledger.TransactionMovesMoney | portfolio.go:163-176 | fires exactly when now >= Next(lastApplied); otherwise nothing changes; when it fires, each account's balance drops by Amount if it is FromAccount and rises by Amount if it is ToAccount (each when present), the total changes accordingly, lastApplied becomes now, and no adjustment or other transaction changes |
| Ledger.TransferConservesTotal | portfolio.go:170-175 | a transfer between two accounts keeps the sum of all balances |
| Ledger.CreditTotal | portfolio.go:170-175 | crediting one account changes the total by exactly the amount credited |
| Ledger.TransactionFiresOncePerDay | portfolio.go:163-176 | with a frequency that moves forward, a transaction fires at most once on a given day |
| Ledger.InsertSorted | portfolio.go:69-79 | the list with the new adjustment placed after every entry not later than it, one entry longer; its order is stated by the `Insert` lemmas |
| Ledger.FirstAfter | portfolio.go:69-74 | the search loop stops at the first entry later than t: every earlier entry has Time <= t |
| Ledger.FirstAfterUnique | portfolio.go:69-74 | that index is the only one with this property |
| Ledger.InsertKeepsSorted | portfolio.go:69-79 | insertion keeps the list sorted by non-decreasing Time |
| Ledger.InsertIsStable | portfolio.go:69-79 | the new entry follows every entry with an equal or earlier Time; removing it gives back the old list in its old order |
| Ledger.InsertBeforeLater | portfolio.go:69-77 | in a sorted list, every entry after the new one is strictly later |
| Ledger.InsertAddsOne | portfolio.go:75-79 | insertion adds exactly the new entry to the list's contents |
| Ledger.AdjustUpTo | portfolio.go:30-34 | the adjustment loop keeps the portfolio's shape |
| Ledger.TransactUpTo | portfolio.go:36-40 | the transaction loop keeps the portfolio's shape |
| Ledger.TransactUpToKeepsAdjustments | portfolio.go:36-40 | transactions never touch adjustments |
| Ledger.LastDue | portfolio.go:30-34 | the last adjustment before k that is for the account, pending and due; none after it in 0..k-1 is |
| Ledger.AdjustUpToBalances | portfolio.go:30-34 | after the day's adjustment loop each account holds the Balance of the last adjustment for it that was pending and due, or its old balance if there was none |
| Ledger.AdjustUpToKeeps | portfolio.go:30-34 | the loop over adjustments 0..k-1 leaves every later adjustment as it was |
| Ledger.AdjustUpToApplies | portfolio.go:30-34 | after a day's adjustment loop, every listed adjustment dated on or before now is applied, and none becomes unapplied |
| Ledger.DayStep | portfolio.go:30-40 | one day of the loop keeps the portfolio's shape |
| Ledger.DayStepApplies | portfolio.go:30-40 | after a day of the loop, every adjustment dated on or before it is applied |
| Ledger.Snapshot | portfolio.go:43-45 | a snapshot has one line per account |
| Ledger.ProjectDays | portfolio.go:29-48 | the day loop keeps the portfolio's shape |
| Ledger.ProjectDaysLines | portfolio.go:29-48 | the printed lines are blocks of one line per account, in account order, at most one block per day, days increasing within [now, to) |
| Ledger.ProjectDaysApplies | portfolio.go:29-40 | after days now..to-1, every adjustment dated in that range is applied |
| Ledger.SetupUpTo | portfolio.go:18-22 | the setup pass keeps the portfolio's shape |
| Ledger.SetupUpToApplies | portfolio.go:18-22 | the setup pass applies every adjustment dated before from |
| Ledger.ResetCursors | portfolio.go:23-25 | resetting the cursors keeps the number of transactions |
| Ledger.Setup | portfolio.go:17-25 | the set-up keeps the portfolio's shape |
| Ledger.SetupResetsCursors | portfolio.go:23-25 | after set-up, each transaction is unchanged apart from its lastApplied, which is from |
| Ledger.Projection | portfolio.go:16-49 | `Project(from, to)` as a value: keeps the portfolio's shape; its output is stated by the `Projection` lemmas |
| Ledger.ProjectionShowsFirstDay | portfolio.go:27-48 | nothing is printed when from >= to; otherwise the first lines are a snapshot of every account on day from |
| Ledger.ProjectionLines | portfolio.go:16-48 | `Project(from, to)` prints blocks of one line per account, in account order, at most one block per day, days increasing within [from, to) |
| Ledger.ProjectionAppliesAdjustments | portfolio.go:17-48 | when Project returns, every adjustment dated before to has been applied |
| Ledger.Portfolio.constructor | parser.go:115 | `&Portfolio{}`: an empty portfolio |
| Ledger.Portfolio.NewAccount | portfolio.go:52-59 | appends exactly one zero-balance account with the name, returns its index, and changes nothing else |
| Ledger.Portfolio.NewManualAdjustment | portfolio.go:63-80 | the search loop and the shift produce `InsertSorted` of the old list; accounts and transactions are unchanged |
| Ledger.Portfolio.NewScheduledTransaction | portfolio.go:83-93 | appends exactly one transaction whose lastApplied is the zero time, returns its index, and changes nothing else |
| Ledger.Portfolio.ApplyAdjustment | portfolio.go:104-112 | the new portfolio and result are `AdjustmentStep` of the old portfolio |
| Ledger.Portfolio.ApplyTransaction | portfolio.go:163-180 | the new portfolio and result are `TransactionStep` of the old portfolio |
| Ledger.Portfolio.SetupAdjustments | portfolio.go:18-22 | the first loop of Project is `SetupUpTo` |
| Ledger.Portfolio.AdjustAll | portfolio.go:30-34 | the day's adjustment loop is `AdjustUpTo` |
| Ledger.Portfolio.TransactAll | portfolio.go:36-40 | the day's transaction loop is `TransactUpTo` |
| Ledger.Portfolio.RunDay | portfolio.go:30-40 | a day is `DayStep` |
| Ledger.Portfolio.SnapshotLines | portfolio.go:43-45 | the print loop writes `Snapshot` of the accounts |
| Ledger.Portfolio.Prepare | portfolio.go:17-25 | the set-up is `Setup` |
| Ledger.Portfolio.DayLines | portfolio.go:29-48 | one turn of the day loop advances `ProjectDays` by a day |
| Ledger.Portfolio.RunDays | portfolio.go:27-48 | the day loop is `ProjectDays` from from, with the first day always printed |
| Ledger.Portfolio.Project | portfolio.go:16-49 | `Project(from, to)` is `Projection`: the new portfolio and the printed lines |
| LedgerParser.Args | parser.go:76-80 | with three submatches there is at least one argument; with fewer there are none |
| LedgerParser.ParseFrequency | parser.go:69-107 | a frequency parses only from the names Weekly and Monthly |
| LedgerParser.OnlyWeeklyAndMonthly | parser.go:75-106 | "invalid frequency" exactly when there is no name match or the name is neither Weekly nor Monthly; a known name fails only on its argument |
| LedgerParser.TrimParenthesised | parser.go:79 | trimming "(a)" gives a back when a does not start or end with a parenthesis |
| LedgerParser.FirstArgument | parser.go:79 | the first argument of "(a)" without a comma is a |
| LedgerParser.BareNameRejected | parser.go:76-100 | a bare "Weekly" or "Monthly" gets the argument "" and is rejected |
| LedgerParser.WeeklyArgument | parser.go:83-92 | Weekly accepts exactly the seven case-sensitive keys of `daysOfWeek` |
| LedgerParser.MonthlyArgument | parser.go:93-103 | Monthly(n) parses to day n for every int64 n, zero and negatives included |
| LedgerParser.AccountIds | parser.go:117-121 | every ID maps to an account created for the specs |
| LedgerParser.LastIdWins | parser.go:119-121 | an ID resolves exactly when some account declares it, and then to the last account that does |
| LedgerParser.NewAccounts | parser.go:119-121 | one account per spec entry |
| LedgerParser.AdjustmentsFrom | parser.go:123-129 | on success, one adjustment per spec entry, each naming a resolved account |
| LedgerParser.Resolve | parser.go:134-147 | 0 is no account, a declared ID is its account, and any other ID is "invalid account" for that ID |
| LedgerParser.TransactionsFrom | parser.go:131-149 | on success, one transaction per spec entry |
| LedgerParser.Resolved | parser.go:123-128 | one resolved adjustment per spec entry |
| LedgerParser.AdjustmentsSorted | parser.go:123-129 | adjustments come out sorted by time, whatever the input order |
| LedgerParser.AdjustmentsPermuted | parser.go:123-129 | the adjustments are exactly the spec entries, resolved: nothing is lost or duplicated |
| LedgerParser.AdjustmentsResolved | parser.go:123-127 | success exactly when every adjustment names a declared account; otherwise the error names an undeclared ID |
| LedgerParser.TransactionsResolved | parser.go:131-149 | success exactly when every non-zero ID is declared; then transaction n is spec entry n, with 0 as no account and the cursor at the zero time |
| LedgerParser.AdjustmentsFromPrefixErr | parser.go:123-127 | the first unknown account aborts the adjustment loop with its error |
| LedgerParser.TransactionsFromPrefixErr | parser.go:131-147 | the first unknown account aborts the transaction loop with its error |
| LedgerParser.ParsedPortfolio | parser.go:115-151 | a parsed portfolio has one zero-balance account per spec entry in order, every reference resolved, and sorted adjustments |
| LedgerParser.Parsed | parser.go:109-152 | on success, one account per account entry, one adjustment per adjustment entry and one transaction per transaction entry |
| LedgerParser.Parse | parser.go:109-152 | returns a fresh portfolio whose contents are `Parsed(spec)`, or `Parsed`'s error |
| LedgerParser.AdjustmentsStep | parser.go:123-129 | the adjustment loop builds `AdjustmentsFrom` through `NewManualAdjustment`, or stops with its error |
| LedgerParser.TransactionsStep | parser.go:131-149 | the transaction loop builds `TransactionsFrom` through `NewScheduledTransaction`, or stops with its error |
| Projection.AdjustmentStep | portfolio_project.go:66-70 | `adj.Apply(now)` reports a change exactly when not yet applied and now >= Time; otherwise nothing changes; on a change the adjustment's account gets exactly its Balance, every other account is as it was, and this adjustment alone becomes applied |
| Projection.InterestStep | portfolio_project.go:80-84 | `GainInterest` of one account keeps the portfolio's shape, adjustments and plan |
| Projection.WithBalances | portfolio_project.go:86-90 | new balances keep the account names, and are taken as given when there is one per account |
| Projection.TransactionStep | portfolio_project.go:86-90 | `trans.Apply(now)` keeps the portfolio's shape, adjustments and plan |
| Projection.InterestUpTo | portfolio_project.go:80-84 | the interest loop keeps the shape, adjustments and plan |
| Projection.TransactUpTo | portfolio_project.go:61-63 | the transaction loop keeps the shape, adjustments and plan |
| Projection.AdjustGroup | portfolio_project.go:66-70 | the loop over a time's adjustments keeps the shape and plan |
| Projection.Retire | portfolio_project.go:49-54 | a plan stays present or absent and keeps its balance-needed function; a date already set is kept; an unset date becomes now exactly when the total is strictly above the balance needed on that day |
| Projection.RecordAccounts | portfolio_project.go:35-55 | `recordAccounts` changes no account, transaction or adjustment |
| Projection.Grouping | portfolio_project.go:18-25 | `manTimes` has at most one entry per adjustment; its contents and `manGrp` are stated by the `Grouping` lemmas |
| Projection.GroupingKeys | portfolio_project.go:18-25 | `manTimes` holds each key of `manGrp` exactly once, and every adjustment's time is a key |
| Projection.GroupingMembers | portfolio_project.go:18-25 | every adjustment's index is in `manGrp` under its own time |
| Projection.GroupingGroups | portfolio_project.go:18-25 | `manGrp[t]` is non-empty and lists, in declaration order, only indices of adjustments at t (with `GroupingMembers`: exactly those) |
| Projection.InsertTime | portfolio_project.go:26 | insertion keeps a list strictly ascending, and its head is the smaller of t and the old head |
| Projection.InsertTimeCount | portfolio_project.go:26 | insertion adds t to the elements exactly when it was missing |
| Projection.SortedTimes | portfolio_project.go:18-26 | the sorted distinct times are strictly ascending and non-empty when there are adjustments |
| Projection.SortedTimesPermutes | portfolio_project.go:18-26 | the sorted times are a permutation of `manTimes` |
| Projection.SortedUnique | portfolio_project.go:26 | two non-decreasing lists with the same elements are equal, so any correct sort gives `SortedTimes` |
| Projection.ManTimes | portfolio_project.go:18-29 | `manTimes[0]` exists, every sorted time is a key of `manGrp`, every group indexes an adjustment, and every adjustment's time is among the sorted times |
| Projection.EarliestTime | portfolio_project.go:28 | `from` is the time of an adjustment, and no adjustment is earlier |
| Projection.SwapTimes | portfolio_project.go:103 | `Swap` exchanges two entries and keeps the contents |
| Projection.SortTimes | portfolio_project.go:99-103 | sorting by `Less` = `Before` leaves the array non-decreasing and a permutation of the input |
| Projection.AdjustTime | portfolio_project.go:57-75 | one turn of the adjustment phase keeps the portfolio's shape |
| Projection.AdjustPhase | portfolio_project.go:57-75 | the adjustment phase keeps the portfolio's shape |
| Projection.DayStep | portfolio_project.go:78-94 | one day of the main loop keeps the portfolio's shape |
| Projection.MainLoop | portfolio_project.go:77-95 | the main loop keeps the portfolio's shape |
| Projection.FirstCrossingNone | portfolio_project.go:49-54 | there is no first crossing exactly when no snapshot's total is above the balance needed on its day |
| Projection.FirstCrossingFirst | portfolio_project.go:49-54 | the first crossing is the day of the earliest snapshot whose total is strictly above the balance needed |
| Projection.ShapedSnoc | portfolio_project.go:37-47 | a snapshot recorded at a day after all earlier ones appends its lines, adds its day to `recordedTimes` and keeps the days increasing |
| Projection.LinesTotal | portfolio_project.go:41-50 | the balances of a snapshot sum to `TotalBalance()` |
| Projection.RecordTracks | portfolio_project.go:34-55 | `recordAccounts` keeps the invariant: at most one snapshot per day, one line per account in order, and a retirement date set once, to the first crossing |
| Projection.AdjustTimeTracks | portfolio_project.go:57-75 | one turn of the adjustment phase keeps the invariant |
| Projection.AdjustPhaseTracks | portfolio_project.go:57-75 | the adjustment phase keeps the invariant |
| Projection.DayStepTracks | portfolio_project.go:77-95 | one day of the main loop keeps the invariant |
| Projection.MainLoopTracks | portfolio_project.go:77-95 | the main loop keeps the invariant up to and including `to` |
| Projection.PhasesTrack | portfolio_project.go:28-95 | the two phases from an empty log keep the invariant from the first time on |
| Projection.ProjectionRecords | portfolio_project.go:16-97 | `Project(years)` keeps the accounts; its records are snapshots of every account in order, on strictly increasing days between from and max(last adjustment time, from + years); the retirement date is kept if set, and otherwise is the first crossing |
| Projection.LastDue | portfolio_project.go:66-70 | the last position of a group whose adjustment is for the account, pending and due; none after it is |
| Projection.AdjustGroupBalances | portfolio_project.go:66-70 | for a group of distinct adjustments, as `manGrp` holds, each account ends with the Balance of the last one in group order that was for it, pending and due, or keeps its old balance |
| Projection.AdjustGroupKeeps | portfolio_project.go:66-70 | an adjustment outside the group is left as it was |
| Projection.AdjustGroupApplies | portfolio_project.go:66-70 | applying a group marks applied exactly the listed adjustments dated on or before now, and a pending, due first entry reports a change |
| Projection.GroupAppliesAt | portfolio_project.go:65-70 | at the k-th sorted time, the adjustments up to that time end up applied and a change is reported |
| Projection.AdjustTimeRecords | portfolio_project.go:57-75 | over fresh adjustments, each turn of the adjustment phase records a snapshot of its own time |
| Projection.AdjustPhaseRecords | portfolio_project.go:57-75 | over fresh adjustments, after k turns exactly the adjustments before the next time are applied, and the snapshot days are the first k sorted times |
| Projection.MainLoopKeeps | portfolio_project.go:77-95 | the main loop never touches adjustments and only appends snapshots |
| Projection.AllApplied | portfolio_project.go:57-75 | once everything up to the last time is applied, every adjustment is |
| Projection.PhasesRecordAdjustments | portfolio_project.go:57-95 | over fresh adjustments, the log begins with one snapshot per distinct time, ascending, and every adjustment ends up applied |
| Projection.ProjectionRecordsAdjustments | portfolio_project.go:16-97 | `Project(years)` over fresh adjustments begins its records with one snapshot per distinct adjustment time, ascending, and applies every adjustment |
| Projection.YearlyExpenses | portfolio_stats.go:9-14 | the yearly total of the transactions with no destination; stated by `YearlySnoc` and `BucketsPartition` |
| Projection.YearlyIncome | portfolio_stats.go:9-14 | the yearly total of the transactions with a destination and a source; stated by `YearlySnoc` and `BucketsPartition` |
| Projection.YearlySnoc | portfolio_stats.go:9-14 | one more transaction adds its yearly amount to expenses if it has no destination, and to income if it has a destination and a source |
| Projection.BucketsPartition | portfolio_stats.go:10-14 | expenses, income and the uncounted rest add up to the yearly amount of all transactions, so each transaction is in at most one bucket |
| Projection.OnceCountsNothing | portfolio_stats.go:11-13 | a Once transaction adds nothing to either bucket |
| Projection.DestinationOnlyUncounted | portfolio_stats.go:12-13 | a transaction with a destination and no source is in neither bucket |
| Projection.Portfolio.ApplyAdjustment | portfolio_project.go:67 | `adj.Apply(now)` is `AdjustmentStep` |
| Projection.Portfolio.ApplyGroup | portfolio_project.go:65-70 | the loop over `manGrp[now]` is `AdjustGroup` |
| Projection.Portfolio.GainInterestAll | portfolio_project.go:80-84 | the interest loop is `InterestUpTo` |
| Projection.Portfolio.TransactAll | portfolio_project.go:86-90 | the transaction loop is `TransactUpTo` |
| Projection.Portfolio.RecordAt | portfolio_project.go:35-55 | the closure is `RecordAccounts` |
| Projection.Portfolio.AdjustAt | portfolio_project.go:58-74 | one turn of the adjustment phase is `AdjustTime` |
| Projection.Portfolio.AdjustAll | portfolio_project.go:57-75 | the adjustment phase is `AdjustPhase` over the sorted times |
| Projection.Portfolio.RunDay | portfolio_project.go:78-94 | one day of the main loop is `DayStep` |
| Projection.Portfolio.RunDays | portfolio_project.go:77-95 | the main loop is `MainLoop`, through `to` inclusive |
| Projection.Portfolio.GroupAdjustments | portfolio_project.go:18-25 | the grouping loop builds `Grouping` |
| Projection.Portfolio.SortedManTimes | portfolio_project.go:18-26 | after sorting, `manTimes` is `SortedTimes` and `manGrp` is `Grouping`'s map |
| Projection.Projected | portfolio_project.go:16-97 | `Project(years)` as a value: keeps the portfolio's shape; its records and retirement date are stated by `ProjectionRecords` |
| Projection.Portfolio.Project | portfolio_project.go:16-97 | `Project(years)` is `Projected`: the new portfolio and the records |
| Projection.Portfolio.Stats | portfolio_stats.go:6-21 | changes nothing; each average is the yearly total of its bucket over 12, and growth is income minus expenses |

## Left out

- Balances are `real`, not `float32`: rounding and overflow of the sums are not modelled.
- Times are whole days in one zone. `time.Local` and the time of day are not modelled.
- The `fmt.Printf` lines of portfolio.go:44 become `Ledger.Record` values. The log line at portfolio.go:178 is left out.
- JSON decoding, `laxTime` date parsing and the regex engine of parser.go are left out. The model starts from the decoded spec and the regex submatches.
- The body of `RegisterScheduleParser` is not part of this model. The registry is the fixed table `Schedules.ParserNamed`.
- `Account.GainInterest`, `Transaction.Apply` and `RetirementPlan.BalanceNeeded` of the later revision are not part of this model. They enter as function values, and nothing is proved about their effect on balances.
- `TotalBalance` is not part of this model; it is taken to be the sum of the account balances.
- The later revision's constructors and parser are not part of this model. Its portfolio is built from a `Projection.State` value.
- `sort.Sort` is modelled as an insertion sort by `Swap`. Only its promise is used: a non-decreasing permutation. `Projection.SortedUnique` shows that any such result is the same list.
- Pointer aliasing is not modelled. Accounts are referred to by index, and an entity appears only once in its list.
- `PortfolioStats.String`, portfolio_chart.go, logger.go and the command-line programs under cmd/ are output or I/O.
- Schedules.WeekdayArg: the later revision's `daysOfWeek` table is not shown. The earlier revision's capitalised table (parser.go:59-67) stands in for it, as `Dates.WeekdayNamed`.
- Text.ToLower: only ASCII capitals are folded, while Go's `strings.ToLower` lower-cases every Unicode letter. Go's result has no ASCII capital either, so `Schedules.ExplicitWeekdayRejected` holds for Go's function too.
- Ledger.ProjectDays: the printing rule of one turn is its definition: a block on the first day or when the day reported a change. The `ProjectDays` lemmas state the shape of the output.
- Projection.ProjectionRecords: states the names, day and order of every line, and ties the sum of a snapshot's balances to the retirement rule. It does not state each line's balance, which depends on the unmodelled `GainInterest` and `Transaction.Apply`.
- Projection.ProjectionRecordsAdjustments: assumes that no adjustment is applied when `Project` starts. An adjustment already applied records no snapshot for its time.

## Findings

| source | as written | input that shows it | evidently intended | confidence | as-written member | corrected member |
|---|---|---|---|---|---|---|
| schedule.go:56 | the weekday argument is lower-cased and then looked up in `daysOfWeek`, whose keys are capitalised (parser.go:59-67); the same happens at line 96 | `ParseSchedule(["Monday"])` of a Weekly or Biweekly schedule gives "invalid weekday: Monday"; so do "monday" and every other spelling | a case-insensitive lookup, so "Monday", "monday" and "MONDAY" all name Monday | not executed; the table shown is the earlier revision's (parser.go:59-67), the later revision's is not shown and may have lower-case keys | Schedules.ExplicitWeekdayRejected | Schedules.FoldedAcceptsTableKeys |
