# MoneyMoney budget core in Dafny

MoneyMoney is a monthly budgeting app. A signed-in user sets a monthly income
and a list of budget categories, each with a limit. They record expenses
against those categories, then watch spending through several views: a budget
table, a pie chart, a calendar with day totals and a day panel. They can move
budget between categories and ask a language model for an analysis of a
period.

This project models the logic behind those screens and proves its properties:

- `ExpenseContext`: the app-wide reducer and its spending queries.
  `getSpendingByCategory` is a method with loops, proved against a map
  defined by a reference sum.
- `BudgetOverview`: the budget table's summaries, totals, over-budget banner
  and red / yellow / green status.
- `AdjustBudget`: the budget-transfer dialog, with its donor categories, the
  transfer amount and the two-limit rewrite.
- `Analyze`: the analysis endpoint. Labels fall back to `Unknown`, totals are
  grouped by category name, each category gets an OVER BUDGET / WARNING / OK
  status, and the prompt lists the first 20 transactions. Its grouping loop is
  a method.
- `AIAnalysis`: the period resolver (this month, last month, last three
  months, custom) and the inclusive `yyyy-MM-dd` range filter.
- `CategoriesRoute`: the category endpoint over an in-memory table, as a class
  `CategoryStore`. `POST` replaces all of a user's categories. `PUT` updates
  the stored categories it names, creates the others and deletes the ones it
  does not name, in a loop with invariants.
- `Calendar`, `DayDetail`, `SpendingChart`: the per-date totals, the padding
  cells, the future-date guards, the month navigation, the day list and total,
  and the chart slices and their shares.
- `BudgetSetup`, `SettingsModal`: the two category editors. Each has add,
  remove and update-by-id list operations, the validation filter applied
  before saving and the totals shown under the list.

Shared modules:

- `Seqs`: filter, find and `slice(0, n)`.
- `Ledger`: per-key running totals and the lemma that the per-key totals add up
  to the grand total.
- `Text`: `trim` and JavaScript string order.
- `Dates`: the Gregorian calendar, `yyyy-MM-dd` formatting, month arithmetic
  and weekdays. These replace the date library.
- `Types`: the records of `src/types/index.ts`.

Money is whole yen (`int`). An 80 % test is written `5 * spent > 4 * limit`.
Percentages and shares are exact `real`. "Today", generated ids, the session,
the API key and the language-model call are parameters.

The server never stores `isEssential` as sent. `POST` and `PUT` create rows
without it, and `PUT` keeps the stored value on update. The database schema
is not part of this model; it assumes the column defaults to false, as the
client's own fallback `c.isEssential || false`
(src/context/ExpenseContext.tsx:125) reads a missing flag. So the essential
flag a user sets up in the first-run form is lost.
`CategoriesRoute.PostRowsExact`, `CategoriesRoute.PutResponseEntries` and
`SettingsModal.AddedRowIsCreated` state this.

## Model

| member | source | states |
|---|---|---|
| Types.FindCategory | src/components/DayDetail.tsx:24-26 | `find` by id: none exactly when no category has the id, otherwise the first category under it |
| Types.SumAmountsConcat | src/components/DayDetail.tsx:22 | the `reduce` sum of amounts over two joined lists is the sum of the two parts |
| Types.FindUnique | src/context/ExpenseContext.tsx:187-192 | with unique ids, looking up a category's own id finds that category |
| ExpenseContext.ReduceAddExpense | src/context/ExpenseContext.tsx:45-49 | ADD_EXPENSE puts the expense first, keeps the old list intact behind it (length + 1) and changes no other field |
| ExpenseContext.ReduceUpdateExpense | src/context/ExpenseContext.tsx:50-56 | UPDATE_EXPENSE replaces exactly the entries with a matching id, keeps every other entry in place, keeps the length, and changes no other field |
| ExpenseContext.ReplaceExpenseIdempotent | src/context/ExpenseContext.tsx:50-56 | updating twice with the same expense is updating once; every position keeps its id |
| ExpenseContext.ReduceDeleteExpense | src/context/ExpenseContext.tsx:57-61 | DELETE_EXPENSE leaves no expense with the id, keeps every other one, its length is the number of survivors, and no other field changes |
| ExpenseContext.RemoveExpenseConcat | src/context/ExpenseContext.tsx:57-61 | deletion keeps the survivors' relative order: deleting from two joined lists joins the two deletions |
| ExpenseContext.AddThenDelete | src/context/ExpenseContext.tsx:45-61 | adding an expense under a new id, then deleting that id, restores the state |
| ExpenseContext.ReduceOwnField | src/context/ExpenseContext.tsx:62-80 | SET_SELECTED_MONTH, UPDATE_CATEGORIES and UPDATE_INCOME change only their own field; an unrecognised action changes nothing |
| ExpenseContext.ReduceResetAndLoad | src/context/ExpenseContext.tsx:23-35 | RESET_APP yields the initial state with isLoading false; SET_INITIAL_STATE takes every field from the snapshot and clears isLoading |
| ExpenseContext.SpentNothing | src/context/ExpenseContext.tsx:166-168 | a category with no expense in the month has spent 0 |
| ExpenseContext.MonthEntriesSums | src/context/ExpenseContext.tsx:170-175 | the month's (id, amount) entries total, per id and overall, the sums of the expenses whose date starts with the month |
| ExpenseContext.GetSpendingByCategory | src/context/ExpenseContext.tsx:162-178 | the map built by the two loops is a key for every category id and every id an expense of the month names, holding that id's total in the target month (an omitted month meaning the selected one) |
| ExpenseContext.ZeroPerCategory | src/context/ExpenseContext.tsx:166-168 | the seeding loop gives exactly the category ids, each holding 0 |
| ExpenseContext.AddMonthExpenses | src/context/ExpenseContext.tsx:170-175 | the second loop adds each expense whose date starts with the month to its id's running total |
| ExpenseContext.SpendingLookup | src/context/ExpenseContext.tsx:162-178 | `spending.get(id) \|\| 0` is, for every id, the sum of the amounts of that id's expenses in the month; every category id is a key |
| ExpenseContext.OrphanKept | src/context/ExpenseContext.tsx:170-175 | an expense of the month under an id that is no category still gets its own key |
| ExpenseContext.GetMonthlyTotal | src/context/ExpenseContext.tsx:180-185 | the monthly total is the sum of the amounts of the expenses whose date starts with the target month |
| ExpenseContext.MonthlyTotalIsSpendingSum | src/context/ExpenseContext.tsx:162-185 | the monthly total equals the sum of every value of the spending map, however its keys are enumerated |
| ExpenseContext.IsOverBudget | src/context/ExpenseContext.tsx:187-192 | true exactly when the id is a category's and its spending in the month is strictly above that category's limit; false for an unknown id |
| ExpenseContext.GetOverBudgetCategories | src/context/ExpenseContext.tsx:194-200 | exactly the categories whose spending is strictly above their limit; the list is the category list filtered by that test on each category's true spending in the month, so it keeps the categories' order and multiplicity |
| ExpenseContext.OverBudgetAgrees | src/context/ExpenseContext.tsx:187-200 | with unique ids, a category is listed as over budget exactly when `isOverBudget` holds for it; spending equal to the limit is not over |
| BudgetOverview.Percentage | src/components/BudgetOverview.tsx:16 | spent/limit·100 when the limit is positive, 0 otherwise (no division by zero) |
| BudgetOverview.Summarize | src/components/BudgetOverview.tsx:14-25 | a summary keeps the category's id, name and limit; spent is the map's value or 0; remaining + spent = limit; over budget iff remaining < 0 |
| BudgetOverview.Summaries | src/components/BudgetOverview.tsx:11-27 | one summary per category, same order, its spent being the category's true spending in the selected month (0 when none), over budget iff spent > limit |
| BudgetOverview.OverBudgetSummaries | src/components/BudgetOverview.tsx:31 | the banner lists exactly the summaries flagged over budget |
| BudgetOverview.OverBudgetConcat | src/components/BudgetOverview.tsx:31 | the banner keeps the table's order: the flagged summaries of two joined lists are each list's flagged summaries, joined; a single summary is listed once iff flagged |
| BudgetOverview.RowToneExact | src/components/BudgetOverview.tsx:128-143 | red iff spent > limit; yellow iff within a positive limit and above 80 % of it; green otherwise; the three are exclusive |
| BudgetOverview.PercentAbove80 | src/components/BudgetOverview.tsx:130 | for a positive limit, percentage > 80 iff 5·spent > 4·limit |
| BudgetOverview.TotalSpentIsMonthlyTotal | src/components/BudgetOverview.tsx:29-30 | with unique ids and no expense of the month under an unknown id, the table's total spent is the month's total |
| AdjustBudget.AmountNeeded | src/components/AdjustBudgetModal.tsx:18 | the amount needed is the absolute value of the remaining budget, never negative |
| AdjustBudget.AvailableSources | src/components/AdjustBudgetModal.tsx:21-43 | the sources are the categories other than the target, not essential, with remaining > 0, in category order, each with its spent and remaining |
| AdjustBudget.SourcesSpent | src/components/AdjustBudgetModal.tsx:29-36 | every offered source carries its true spending in the selected month and a positive remaining budget |
| AdjustBudget.SelectedSource | src/components/AdjustBudgetModal.tsx:45 | none iff no source has the selected id, otherwise the first source with that id |
| AdjustBudget.TransferAmount | src/components/AdjustBudgetModal.tsx:47 | min(needed, remaining): never above either, and 0 with no selection |
| AdjustBudget.CanTransferIsFullCover | src/components/AdjustBudgetModal.tsx:46-47 | full coverage holds iff the transfer equals the amount needed; otherwise the whole, smaller remaining budget moves |
| AdjustBudget.RewriteLimits | src/components/AdjustBudgetModal.tsx:55-65 | the rewrite keeps the length and every field but the limit |
| AdjustBudget.HandleAdjust | src/components/AdjustBudgetModal.tsx:49-65 | nothing is sent iff no offered source has the selected id; otherwise the list sent is the category list rewritten with the transfer amount from the selected source to the over-budget category |
| AdjustBudget.HandleAdjustMoves | src/components/AdjustBudgetModal.tsx:55-65 | in the list sent, the over-budget category's limit gains the transfer amount, the selected source's loses it, every other category is sent unchanged, in the original order |
| AdjustBudget.RewriteTouchesTwo | src/components/AdjustBudgetModal.tsx:55-65 | the target's limit gains the amount, the source's loses it, every other category is unchanged |
| AdjustBudget.RewriteSum | src/components/AdjustBudgetModal.tsx:55-65 | with unique ids the sum of limits gains the amount for a listed target and loses it for a listed source |
| AdjustBudget.AdjustKeepsTotal | src/components/AdjustBudgetModal.tsx:55-67 | with unique ids and the target listed, an adjustment keeps the total budget |
| AdjustBudget.SourceStaysCovered | src/components/AdjustBudgetModal.tsx:35-62 | after an adjustment the source's new limit still covers what it has spent |
| AdjustBudget.FullTransferClears | src/components/AdjustBudgetModal.tsx:46-58 | when the transfer covers the overage, the target's new limit equals its spending, so it is no longer over budget |
| Analyze.LookupLast | src/app/api/analyze/route.ts:19-22 | `new Map(...).get(id)`: none iff no category has the id, otherwise a category under it (the last one) |
| Analyze.Label | src/app/api/analyze/route.ts:24 | the label is never empty: the category's name, or `Unknown` for an unknown id or an empty name |
| Analyze.ExpenseSummary | src/app/api/analyze/route.ts:21-29 | one line per expense, in order, none dropped, each with its label, amount, description and date |
| Analyze.CategoryTotals | src/app/api/analyze/route.ts:32-35 | the loop's record holds, under each label that occurs, the sum of that label's amounts |
| Analyze.KeyOrder | src/app/api/analyze/route.ts:49 | the keys `Object.values` walks through: every key of the record, each exactly once |
| Analyze.StatusOf | src/app/api/analyze/route.ts:45 | OVER BUDGET iff spent > limit; WARNING iff within it and 5·spent > 4·limit; OK otherwise |
| Analyze.AtLimitIsWarning | src/app/api/analyze/route.ts:45 | spending exactly a positive limit is WARNING, not OVER BUDGET |
| Analyze.BudgetStatus | src/app/api/analyze/route.ts:38-47 | one line per category, in order, whose spent is the total under the category's name or 0, with its status |
| Analyze.PromptOf | src/app/api/analyze/route.ts:52-73 | the prompt lists the first min(n, 20) summary lines, in input order |
| Analyze.AnalysisText | src/app/api/analyze/route.ts:87 | the content when present and non-empty, otherwise `Unable to generate analysis` |
| Analyze.Post | src/app/api/analyze/route.ts:4-106 | an unreadable body or a failed call gives 500 `Failed to analyze expenses`; a missing key gives 500 before the call; otherwise the analysis text and the summary |
| Analyze.TotalSpentIsAllAmounts | src/app/api/analyze/route.ts:32-49 | total spent is the sum of every expense amount, the `Unknown` bucket included |
| Analyze.TotalBudgetIsLimits | src/app/api/analyze/route.ts:50 | total budget is the sum of the limits |
| Analyze.TotalsByLabel | src/app/api/analyze/route.ts:32-35 | the total under a label is the sum of the amounts of the expenses with that label, so categories sharing a name share a total |
| Analyze.BudgetStatusSpent | src/app/api/analyze/route.ts:39 | a category's spent is what all expenses labelled with its name add up to |
| Analyze.OrphanIsUnknown | src/app/api/analyze/route.ts:19-35 | an expense under an unknown id is labelled `Unknown` and has a total under that label |
| AIAnalysis.GetDateRange | src/components/AIAnalysis.tsx:39-70 | this month: its first to last day; last month: the month before, January wrapping to December; last three months: first day two months back to today's month's end; custom: the strings as given |
| AIAnalysis.RangeFilter | src/components/AIAnalysis.tsx:81-83 | the expenses kept are exactly those with start ≤ date ≤ end in string order |
| AIAnalysis.RangeFilterConcat | src/components/AIAnalysis.tsx:81-83 | the filter keeps the list's order: the expenses in range of two joined lists are each list's, joined; a single expense is kept once iff in range |
| AIAnalysis.HandleAnalyze | src/components/AIAnalysis.tsx:72-105 | refused on an empty bound; refused when nothing is in range; otherwise a request is always submitted, carrying the kept expenses, the categories and the range |
| AIAnalysis.BuiltInRangesNonEmpty | src/components/AIAnalysis.tsx:43-78 | only a custom range can be refused as invalid |
| AIAnalysis.InRangeIsChronological | src/components/AIAnalysis.tsx:81-83 | for zero-padded dates, the string test is the chronological one |
| AIAnalysis.ThisMonthHoldsItsDays | src/components/AIAnalysis.tsx:43-47 | a day is in this month's range iff it is in today's month |
| AIAnalysis.LastMonthHoldsItsDays | src/components/AIAnalysis.tsx:48-53 | a day is in last month's range iff it is in the month before today's |
| AIAnalysis.Last3MonthsHoldsItsDays | src/components/AIAnalysis.tsx:54-58 | a day is in the range iff it is in today's month or one of the two before |
| AIAnalysis.LastMonthInLeapMarch | src/components/AIAnalysis.tsx:48-53 | on 2024-03-15 last month is 2024-02-01 to 2024-02-29 |
| AIAnalysis.LastMonthInJanuary | src/components/AIAnalysis.tsx:48-53 | on 2024-01-10 last month is 2023-12-01 to 2023-12-31 |
| Dates.StartOfMonth | src/components/AIAnalysis.tsx:45 | day 1 of the same month, no later than any day of that month |
| Dates.EndOfMonth | src/components/AIAnalysis.tsx:46 | the month's last day, no earlier than any day of that month |
| Dates.AddMonths | src/components/AIAnalysis.tsx:49 | moves exactly n months, clamping the day to the target month's length |
| Dates.FormatOrder | src/components/AIAnalysis.tsx:82 | `yyyy-MM-dd` strings compare as the dates do, and format distinct dates distinctly |
| Dates.MonthKeyPrefix | src/context/ExpenseContext.tsx:172 | a date's string starts with a month's `yyyy-MM` iff the date is in that month |
| Dates.MonthKeyInjective | src/components/Calendar.tsx:90 | two dates have the same `yyyy-MM` iff they are in the same month |
| Dates.NextDayNumber | src/components/Calendar.tsx:35 | the next day's weekday is one further, Saturday wrapping to Sunday |
| Dates.EpochWeekday | src/components/Calendar.tsx:35 | 1 January 1970 is a Thursday (4), anchoring `getDay()` |
| Text.Trim | src/components/BudgetSetup.tsx:82-84 | the result is a slice of the input without white space at either end |
| Text.TrimEmpty | src/components/SettingsModal.tsx:54 | a string trims to empty iff it is all white space |
| Text.TrimIdempotent | src/components/BudgetSetup.tsx:84 | trimming twice is trimming once |
| CategoriesRoute.UserIds | src/app/api/categories/route.ts:63-67 | exactly the stored ids whose row is the user's |
| CategoriesRoute.OtherUsers | src/app/api/categories/route.ts:17-19 | deleting by user keeps exactly the other users' rows, unchanged |
| CategoriesRoute.PostRowsExact | src/app/api/categories/route.ts:17-33 | after the writes of `POST` the user owns exactly one row per submitted category, under its new id, with its name, limit and colour and a false isEssential; other users' rows are unchanged |
| CategoriesRoute.PutRunFacts | src/app/api/categories/route.ts:69-96 | the loop answers once per incoming entry, in order, and leaves in the set exactly the stored ids the list did not name, their rows untouched |
| CategoriesRoute.PutRunRows | src/app/api/categories/route.ts:69-96 | the loop only adds rows it creates and writes no row outside the set it matched against |
| CategoriesRoute.PutRunShrinks | src/app/api/categories/route.ts:83 | the loop only removes ids from the set |
| CategoriesRoute.PutDeletesUnnamed | src/app/api/categories/route.ts:63-105 | after `PUT` a stored id of the user survives iff the list names it; other users' rows are unchanged |
| CategoriesRoute.PutRunContents | src/app/api/categories/route.ts:69-96 | after the loop every answered entry names a row of the user's that the response shows as stored and that is no longer pending deletion; every user row not pending deletion was answered |
| CategoriesRoute.PutRowsContents | src/app/api/categories/route.ts:63-107 | after `PUT` the table holds every returned category exactly as returned, and the user's rows are exactly the ones the response lists |
| CategoriesRoute.PutRowsWritten | src/app/api/categories/route.ts:71-96 | after `PUT` the first occurrence of a stored id leaves that row updated with the entry's name, limit and colour; any other entry leaves a new row of the user's under its new id |
| CategoriesRoute.PutResponseEntries | src/app/api/categories/route.ts:72-107 | one response entry per incoming category with its name, limit and colour; a matched id is updated in place and keeps its isEssential; any other entry gets a new id and a false isEssential |
| CategoriesRoute.RepeatedIdCreates | src/app/api/categories/route.ts:72-83 | a stored id sent twice is updated on its first occurrence and created anew on the second |
| CategoriesRoute.CategoryStore.Replace | src/app/api/categories/route.ts:17-33 | the user's rows are deleted, then one row per submitted category is created in order; the creates' results are returned; users are untouched |
| CategoriesRoute.CategoryStore.Post | src/app/api/categories/route.ts:6-49 | 401 with no change without a session; 500 with no change when the body cannot be read; otherwise the user's rows are replaced by the created ones, then the user is marked set up with `monthlyIncome \|\| 0`, or 500 when that update fails |
| CategoriesRoute.CategoryStore.Put | src/app/api/categories/route.ts:52-112 | 401 with no change without a session; 500 with no change when the body cannot be read; otherwise the table and the response are those of the reconciliation; users are never touched |
| DayDetail.DayExpenses | src/components/DayDetail.tsx:20-21 | exactly the expenses whose date equals the day's string |
| DayDetail.DayExpensesConcat | src/components/DayDetail.tsx:21 | the filter keeps the list's order |
| DayDetail.DayTotal | src/components/DayDetail.tsx:22 | 0 on a day without expenses |
| DayDetail.DayView | src/components/DayDetail.tsx:20-22 | the panel shows the day's `yyyy-MM-dd`, its expenses and their total |
| DayDetail.EmptyStateExact | src/components/DayDetail.tsx:67-70 | the empty state shows iff no expense carries the day's date |
| DayDetail.DisplayName | src/components/DayDetail.tsx:24-87 | never empty: the first category's name under the id, or `Unknown` when there is none or its name is empty |
| DayDetail.DisplayColor | src/components/DayDetail.tsx:24-83 | the first category's colour under the id, or `#6b7280` when no category has the id or its colour is empty |
| DayDetail.DisplayNameAgreesWithAnalysis | src/components/DayDetail.tsx:24-87 | with unique ids the day panel and the analysis endpoint name an expense's category alike |
| Calendar.ExpensesByDate | src/components/Calendar.tsx:40-47 | the loop yields a key per date some expense carries, holding the sum of that date's amounts |
| Calendar.DateTotalIsDayTotal | src/components/Calendar.tsx:40-47 | a date's running total is the day panel's total for that date |
| Calendar.CellTotalIsDayTotal | src/components/Calendar.tsx:78-81 | a cell's total is the day panel's total, and 0 for a date without expenses |
| Calendar.ByDateKeys | src/components/Calendar.tsx:40-47 | the map's keys are exactly the dates expenses carry |
| Calendar.ByDateSum | src/components/Calendar.tsx:40-47 | the map's values add up to the sum of all amounts |
| Calendar.EntriesTotal | src/components/Calendar.tsx:42-45 | the (date, amount) entries total the sum of all amounts |
| Calendar.PaddingDays | src/components/Calendar.tsx:35-38 | the padding count is the weekday (0-6, Sunday 0) of the month's first day |
| Calendar.DayUnderItsWeekday | src/components/Calendar.tsx:35-38 | after the padding, day k of the month sits in its own weekday's column |
| Calendar.HandleDayClick | src/components/Calendar.tsx:57-64 | a future day leaves the view unchanged; another day is selected and its panel opened |
| Calendar.HandleAddExpense | src/components/Calendar.tsx:66-72 | a future day leaves the view unchanged; another day is selected and the form opened |
| Calendar.HandlersKeepSelectionPast | src/components/Calendar.tsx:57-76 | clicking a day or adding an expense never selects a future day |
| Calendar.HandleMonthChange | src/components/Calendar.tsx:86-92 | the calendar shows the new date and the selected month becomes its `yyyy-MM`, nothing else changing |
| Calendar.MonthChangeSelectsShownMonth | src/components/Calendar.tsx:86-92 | after a month change, the budget counts exactly the expenses dated in the month shown |
| Calendar.ArrowsMoveOneMonth | src/components/Calendar.tsx:99-108 | the arrows move the shown and the selected month by exactly one |
| SpendingChart.AllSlices | src/components/SpendingChart.tsx:21-26 | one entry per category with its name, spending (0 when none) and colour |
| SpendingChart.Slices | src/components/SpendingChart.tsx:21-27 | exactly the category entries with a positive value |
| SpendingChart.SlicesConcat | src/components/SpendingChart.tsx:21-27 | the slices follow the category order |
| SpendingChart.ChartDataExact | src/components/SpendingChart.tsx:19-28 | a category's slice, with its true spending in the selected month, is shown iff that spending is positive |
| SpendingChart.SliceWithinTotal | src/components/SpendingChart.tsx:30-60 | each slice is a positive part of the total |
| SpendingChart.TotalNonNegative | src/components/SpendingChart.tsx:30 | a non-empty chart has a positive total |
| SpendingChart.EmptyChartExact | src/components/SpendingChart.tsx:32-55 | the empty branch is taken iff no category has positive spending; otherwise the total is positive |
| SpendingChart.ShareTimesTotal | src/components/SpendingChart.tsx:60 | a slice's percentage times the total is 100 times its value |
| SpendingChart.SharesMakeWhole | src/components/SpendingChart.tsx:60-122 | the shares of a non-empty chart add up to 100 % |
| SpendingChart.SharesScale | src/components/SpendingChart.tsx:60 | the sum of shares, times the total, is 100 times the sum of the values |
| SpendingChart.ChartTotalIsRowsTotal | src/components/SpendingChart.tsx:30 | with no negative spending, the chart's total is the budget table's total spent |
| SpendingChart.TotalConcat | src/components/SpendingChart.tsx:30 | the total of joined slice lists is the sum of their totals |
| SpendingChart.ChartTotalIsMonthlyTotal | src/components/SpendingChart.tsx:30 | with no negative amount, unique ids and no orphan spending, the chart's total is the month's total |
| SpendingChart.OrphanSpendingNotCharted | src/components/SpendingChart.tsx:19-30 | spending under an unknown id counts in the month's total but not in the chart |
| BudgetSetup.InitialList | src/components/BudgetSetup.tsx:8-44 | eight rows in preset order, ids `cat-0`..`cat-7`, empty limits, the preset names, colours and essential flags |
| BudgetSetup.InitialListShape | src/components/BudgetSetup.tsx:8-44 | the initial ids are distinct; exactly Rent, Utilities and Healthcare start essential |
| BudgetSetup.AddCategory | src/components/BudgetSetup.tsx:46-57 | one empty, non-essential row appended, coloured COLORS[length mod 10]; the rest unchanged |
| BudgetSetup.RemoveCategory | src/components/BudgetSetup.tsx:60-62 | exactly the rows under other ids are kept |
| BudgetSetup.RemoveCategoryConcat | src/components/BudgetSetup.tsx:60-62 | removal keeps the survivors' order: removing from two joined lists joins the two removals; a single row survives once iff its id differs |
| BudgetSetup.Apply | src/components/BudgetSetup.tsx:67 | the edited field takes its new value; the other fields are kept |
| BudgetSetup.UpdateCategory | src/components/BudgetSetup.tsx:64-70 | the rows under the id are edited, every other row is unchanged, length and order kept |
| BudgetSetup.RemoveUndoesAdd | src/components/BudgetSetup.tsx:46-62 | removing a row just added under a new id restores the list |
| BudgetSetup.RemoveAfterUpdate | src/components/BudgetSetup.tsx:60-70 | editing then removing a row is removing it |
| BudgetSetup.ValidIsTrimTest | src/components/BudgetSetup.tsx:82 | a row is valid iff its trimmed name and its limit text are non-empty |
| BudgetSetup.ValidRows | src/components/BudgetSetup.tsx:82 | exactly the valid rows are kept |
| BudgetSetup.ValidRowsConcat | src/components/BudgetSetup.tsx:82 | the filter keeps the form's order: the valid rows of two joined lists are each list's valid rows, joined; a single row is kept once iff valid |
| BudgetSetup.ToDrafts | src/components/BudgetSetup.tsx:83-88 | each row becomes its draft, in order |
| BudgetSetup.Drafts | src/components/BudgetSetup.tsx:81-88 | every submitted name is trimmed and non-empty; the list is empty iff no row is valid |
| BudgetSetup.DraftsExact | src/components/BudgetSetup.tsx:81-88 | every valid row's draft is submitted, and every submitted draft comes from a valid row |
| BudgetSetup.HandleSubmit | src/components/BudgetSetup.tsx:72-93 | refused when income ≤ 0, refused when no row is valid, otherwise the drafts and the income |
| BudgetSetup.InitialListRefused | src/components/BudgetSetup.tsx:36-93 | the untouched form is always refused |
| BudgetSetup.SavingsOfSubmission | src/components/BudgetSetup.tsx:81-108 | when every row left out of the submission counts 0, the savings shown are the income minus the submitted limits, and are not negative iff those limits fit in the income |
| BudgetSetup.SubmittedTotalIsShown | src/components/BudgetSetup.tsx:81-106 | the submitted limits add up to the total shown when every row left out parses to 0 |
| BudgetSetup.BlankNameCountedNotSubmitted | src/components/BudgetSetup.tsx:82-106 | a blank-named row with a limit counts in the total shown but is not submitted |
| SettingsModal.OpenDialog | src/components/SettingsModal.tsx:19-21 | the local list is an element-wise copy of the categories |
| SettingsModal.AddCategory | src/components/SettingsModal.tsx:24-35 | one row with an empty name, limit 0 and colour COLORS[length mod 10] appended; the rest unchanged |
| SettingsModal.RemoveCategory | src/components/SettingsModal.tsx:37-39 | exactly the rows under other ids are kept |
| SettingsModal.RemoveCategoryConcat | src/components/SettingsModal.tsx:37-39 | removal keeps the survivors' order: removing from two joined lists joins the two removals; a single row survives once iff its id differs |
| SettingsModal.Apply | src/components/SettingsModal.tsx:48 | the edited field takes its new value; the other fields are kept |
| SettingsModal.UpdateCategory | src/components/SettingsModal.tsx:41-51 | the rows under the id are edited, every other row is unchanged, length and order kept |
| SettingsModal.EditsOfAbsentId | src/components/SettingsModal.tsx:24-51 | editing an absent id changes nothing; removing a row just added under a new id restores the list |
| SettingsModal.KeepIsTrimTest | src/components/SettingsModal.tsx:54 | a row is kept iff its trimmed name is non-empty and its limit is positive |
| SettingsModal.ValidCategories | src/components/SettingsModal.tsx:54 | exactly the kept rows, unchanged |
| SettingsModal.ValidCategoriesConcat | src/components/SettingsModal.tsx:54 | the filter keeps the dialog's order: the kept rows of two joined lists are each list's kept rows, joined; a single row is kept once iff it passes |
| SettingsModal.HandleSave | src/components/SettingsModal.tsx:53-61 | refused iff no row is kept; when some row is kept, the kept rows are always sent |
| SettingsModal.UntouchedRowDropped | src/components/SettingsModal.tsx:24-54 | a row added and left untouched does not change what saving gives |
| SettingsModal.SavedTotalAtLeastShown | src/components/SettingsModal.tsx:54-71 | what is saved budgets at least the total shown when no blank-named row has a positive limit |
| SettingsModal.AsIncoming | src/components/SettingsModal.tsx:61 | the request carries each row's id, name, limit, colour and flag |
| SettingsModal.AddedRowIsCreated | src/components/SettingsModal.tsx:25 | a row added in the dialog reaches the server under an unknown id and is created anew, not essential |

## Left out

- Rendering, React hooks and memoisation, and the `fetch` wrappers in the
  context (`loadUser`, `setupBudget` and the rest) are not modelled. They are
  I/O; the model covers only the reducer actions they dispatch.
- The session lookup is not modelled. `auth()` becomes an optional user id.
- The chat-completion call is a function parameter.
- `Date.now()` ids, database-generated ids and `new Date()` are parameters:
  `newId`, `freshIds` and `today`.
- The persistence routes for expenses and users, `ExpenseModal`, the header,
  the dashboard and the providers are not part of this model.
- Prisma's concurrency is not modelled. The `Promise.all` creates of `POST`
  are taken in list order, and the database is a map.
- `POST` runs without a transaction, so a failed user update leaves the rows
  already replaced. The model reproduces that rather than rolling back.
- A database `create` or `update` that fails inside `POST` or `PUT` is not
  modelled: the route would answer 500 and keep the writes made before the
  failure, since neither route uses a transaction. The model's table never
  fails a write; only the final user update of `POST` can fail.
- A readable body whose `categories` is not a list is not modelled: `POST`
  would answer 500 after deleting the user's rows, and `PUT` would answer 500
  with no change. The model takes `categories` as a list, and `None` stands
  for a body that cannot be read at all.
- Floating point is not modelled. Money is `int`, and percentages and shares
  are exact `real`. This leaves out three things:
  - `toFixed`, `toLocaleString` and the `k` abbreviation;
  - the percentage string of the analysis lines;
  - the unguarded `spent / limit` at `src/app/api/analyze/route.ts:44`.
- `parseFloat` is not modelled. BudgetSetup keeps the limit as its text and
  takes the parser as a function parameter; incomes and SettingsModal limits
  arrive already parsed. A `NaN` limit in the SettingsModal total
  (`c.limit || 0`) cannot occur in the integer model.
- SettingsModal.AddCategory: the new row's `isEssential` is left unset; the
  model reads it as false.
- Analyze.CategoryTotals: treats category names as ordinary keys. A name
  that collides with a built-in object property, such as `constructor`, is
  not modelled. The order of `Object.values` does not change the sum.
- The `default` branch of `getDateRange` cannot be reached with the four
  period kinds, so the model has no counterpart for it.
- Dates are limited to years 0 to 9999 (four-digit `yyyy`). Time zones and
  the local-time offset of `new Date()` are left out.
- BudgetOverview.TotalSpentIsMonthlyTotal: needs unique ids and no
  expense of the month under an unknown category id. Without them the
  table's total and the month's total differ, because orphan spending is
  not shown in the table.
- SpendingChart.ChartTotalIsMonthlyTotal: needs the same as above plus no
  negative amounts; `SpendingChart.OrphanSpendingNotCharted` shows the
  difference.
- AdjustBudget.AdjustKeepsTotal: the total is kept only with unique ids and
  the over-budget category present in the list. With a repeated id, every
  copy is rewritten.
