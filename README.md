# Personal-finance tracker: a verified model of its bookkeeping core

This project is a Dafny model of the arithmetic and table bookkeeping of a personal-finance tracker. The tracker has an Express/MongoDB backend and a React frontend, and amounts are whole Vietnamese đồng. The model covers three groups.

* **Yearly statistics** (`Stats`, on top of `Grouping`). This is `getYearlyStats`:
  * two grouped sums, by month, for one year: expense amounts and budget limits;
  * a dense merge into twelve month entries, each with a clamped overage and a rounded percentage;
  * yearly totals that add up the already-clamped months.
* **The record stores** (`BudgetStore`, `ExpenseStore`, `CategoryStore`, `IncomeStore`, on top of `Table`, `Http` and `AmountFormat`).
  * Each controller is a class that owns an id-to-document map and an id counter. Its handlers are methods that return an HTTP reply datatype.
  * The modelled rules are:
    * the field guards, in the order they run;
    * the duplicate checks: budget slot (409) and category name (400);
    * the existence checks that answer 404;
    * the unconditional 200 of some deletes;
    * the totals, with the `formatAmount` suffix.
* **The client-side figures and list state.**
  * The home dashboard (`HomeDashboard`):
    * year filter, total, average, min and max;
    * grouping by category name and the top five;
    * budget spending and its progress class;
    * the remaining-budget message.
  * The year summary cards (`YearSummary`) and the alert box (`AlertBox`).
  * The two transaction tables' over-limit maps (`TransactionList`, `TransactionTable`).
  * The monthly report page (`MonthlyReport`).
  * The expense manager and category manager pages (`ExpenseManager`, `CategoryManager`). Each is a class whose fields are the page's state and whose methods are its handlers.
  * The older dashboard (`LegacyDashboard`).

Conventions used throughout:

* A database failure (the `catch` branch) is a `dbUp: bool` parameter.
* On the client, a request that failed and was caught is an `Option` answer that is `None`.
* A numeric request field that is absent or not a number is `None`. This is exact for `addExpense` and `addIncome`, which test `typeof`. The budget handlers and `updateExpense` see JSON strings and `null` differently (see "## Left out"). `Truthy` is JavaScript truthiness, so `Some(0)` is falsy.
* A key absent from an update body is `None`, and that field keeps its value.
* Ids are issued by a counter, so "newest `createdAt` first" is descending id and a collection's natural order is ascending id.
* `Math.round(a / b * 100)` is computed exactly as the integer nearest to the quotient, with halves rounded up (`Util.RoundedPercent`).
* Dates are already split into year, month and day.

README.md is the only prose file. Every `.dfy` file is given to Dafny in one command.

## Model

| member | source | states |
|---|---|---|
| Stats.GetYearlyStats | backend/controllers/stats.js:5-52 | A missing, zero or non-numeric year gives 400 and no report. Otherwise a failed query gives 500. Otherwise, and only then, the reply is the report built for that year. |
| Stats.BuildReport | backend/controllers/stats.js:13-47 | The report echoes the year and has exactly 12 entries. Entry i is month i+1, with the spending and the budget of exactly that month and year. The totals are the sums of the entries, and the total overage is never negative and never below the year's net overage. |
| Stats.MonthsMatchDocs | backend/controllers/stats.js:13-31 | Looking month m up in either grouped aggregate gives the sum over the documents of that year and month, and 0 when the month has no group. |
| Stats.MonthStatOf | backend/controllers/stats.js:30-34 | `over` is non-negative, at least `spent - budget`, and either 0 or exactly `spent - budget`. `percent` is the rounded percentage when the budget is non-zero, and 0 otherwise. |
| Stats.Months | backend/controllers/stats.js:27-35 | The merge has exactly 12 entries, and entry i is month i+1 built from both sparse lookups. |
| Stats.LookupIsSum | backend/controllers/stats.js:28-31 | `find` on the grouped result, with `\|\| 0`, gives the sum of that key's values. |
| Stats.SpentPairsSum | backend/controllers/stats.js:13-17 | The `$match`/`$group` of expense amounts yields, for each month, the sum of that year's amounts in that month. |
| Stats.BudgetPairsSum | backend/controllers/stats.js:20-24 | The same for budget limits. |
| Stats.TallyIsSums | backend/controllers/stats.js:38-45 | The `reduce` totals are the sums of the entries' `spent`, `budget` and `over` fields. |
| Stats.TotalOverCoversNet | backend/controllers/stats.js:32-45 | When every month is clamped, the total overage is at least 0 and at least total spent minus total budget. |
| Stats.ClampThenSumExample | backend/controllers/stats.js:32-45 | Clamping before summing differs from summing before clamping. One month 50 over and one 50 under give a total overage of 50 with a net of 0. |
| Stats.OverMonths | frontend/src/Components/AlertBox/AlertBox.tsx:10 | The months with a positive overage, in report order, each kept with its multiplicity. |
| Grouping.FindIndex | backend/controllers/stats.js:28-29 | `findIndex` returns the first group with the key, or the length when there is none. |
| Grouping.FindGroupSums | backend/controllers/stats.js:15 | Finding a key in the grouped pairs gives exactly that key's sum and count, and nothing for a key that never occurs. |
| Grouping.FindAfterAdd | frontend/src/Components/Dashboard/Dashboard.tsx:144-151 | After one fold step, only the stepped key's group changes: a new group for a new key, or the old group with the value and one more count. |
| Grouping.GroupSumsDistinct | frontend/src/Components/Dashboard/Dashboard.tsx:139-157 | No key is grouped twice. |
| Grouping.GroupSumsEntries | frontend/src/Components/Dashboard/Dashboard.tsx:139-157 | Every group carries its own key's sum and occurrence count, and that count is positive. |
| Grouping.GroupSumsComplete | frontend/src/Components/Dashboard/Dashboard.tsx:139-157 | Every key that occurs has a group. |
| Grouping.GroupSumsTotals | frontend/src/Components/Dashboard/Dashboard.tsx:139-157 | Grouping loses nothing. The totals add up to the sum of all values, and the counts add up to the number of pairs. |
| Grouping.AddToDistinct | frontend/src/Components/Dashboard/Dashboard.tsx:145-152 | One fold step keeps the keys distinct. |
| Grouping.AddToTotals | frontend/src/Components/Dashboard/Dashboard.tsx:147-152 | One fold step adds the value to the totals and one to the counts. |
| Grouping.NoCountNoSum | backend/controllers/stats.js:30 | A key with no occurrence has sum 0. |
| Grouping.CountForPositive | frontend/src/Components/Dashboard/Dashboard.tsx:144-153 | A key taken from one of the pairs occurs at least once. |
| Table.FirstWhere | backend/controllers/budgetController.js:14-18 | `findOne` gives the smallest id that matches the filter, or nothing exactly when no document matches. |
| Table.Ascending | backend/controllers/budgetController.js:56 | `find(filter)`: exactly the matching documents, each with its own id, in ascending id order. |
| Table.NewestFirst | backend/controllers/category.js:23 | `find().sort({ createdAt: -1 })`: every document, in strictly descending id order. |
| Table.SumRowsInsert | backend/controllers/expense.js:114-115 | Inserting a document under a fresh id adds its share to the `reduce` total. |
| Table.SumRowsUpdate | backend/controllers/expense.js:114-115 | Replacing one document changes the total by the difference of the two shares. |
| Table.SumRowsRemove | backend/controllers/expense.js:114-115 | Removing one document takes its share off the total. |
| Table.SumRowsAbove | backend/controllers/expense.js:114-115 | Documents at or above the counter take no part in the total. |
| BudgetStore.Budgets.AddBudget | backend/controllers/budgetController.js:5-40 | The reply is 400 exactly when a numeric field is `None` or 0, or the category id is missing. It is 500 exactly when the fields are there and the database fails. It is 409 exactly when some budget already holds the (category, month, year) slot, and the reply carries a budget that holds it. It is 201 exactly otherwise, with the one new budget added under a new id. No other reply changes the table, and unique slots stay unique. |
| BudgetStore.InsertKeepsSlotsUnique | backend/controllers/budgetController.js:14-35 | Inserting a budget whose slot `findOne` found free keeps every (category, month, year) slot unique. |
| BudgetStore.Budgets.GetBudgetsByMonth | backend/controllers/budgetController.js:53-61 | A row is listed exactly when it is a stored budget of that month and year. The list is in ascending id order, and a database failure gives 500. |
| BudgetStore.Budgets.UpdateBudget | backend/controllers/budgetController.js:64-83 | An unknown id gives 404 and no change. Otherwise only that budget changes: the given limit, month and year replace the old ones, the category is kept, and no slot check is made. |
| BudgetStore.UpdateCanDuplicateSlot | backend/controllers/budgetController.js:69-73 | Because the update makes no slot check, moving a budget into an occupied month leaves two budgets in one slot. |
| BudgetStore.Budgets.DeleteBudget | backend/controllers/budgetController.js:86-98 | An unknown id gives 404 and no change. Otherwise exactly that budget is removed. |
| ExpenseStore.Expenses.AddExpense | backend/controllers/expense.js:13-44 | The checks run in source order, each reply holding exactly when the earlier checks pass: a missing category, description or date gives 400; then a non-number or non-positive amount gives 400; then a database failure gives 500; then an unknown category gives 404. Otherwise the reply is 201 with one new expense holding the given fields, nothing else changes, and the total grows by its amount. |
| ExpenseStore.Expenses.UpdateExpense | backend/controllers/expense.js:66-93 | A given but unknown category gives 404, before the expense itself is looked up. An unknown expense gives 404. Otherwise only that expense's given fields are replaced, the amount is not re-checked, and the total moves by the difference. |
| ExpenseStore.Expenses.DeleteExpense | backend/controllers/expense.js:96-109 | An unknown id gives 404 and no change. Otherwise exactly that expense is removed and the total drops by its amount. |
| ExpenseStore.Expenses.GetTotalExpense | backend/controllers/expense.js:112-125 | The total is the sum of every stored amount, with the suffix of that total. |
| AmountFormat.SuffixOf | backend/controllers/expense.js:5-10 | "B" exactly from one billion up, "M" exactly from one million to below one billion, "K" exactly from one thousand to below one million, and plain digits exactly below one thousand. |
| AmountFormat.SuffixMonotone | backend/controllers/income.js:4-9 | A larger value never gets a smaller suffix. |
| CategoryStore.Categories.AddCategory | backend/controllers/category.js:4-18 | An empty name gives 400 before the database is asked. Then a database failure gives 500. Then a name some category already has gives 400 and inserts nothing. Otherwise the reply is 201 with exactly one new category of that name. Unique names stay unique. |
| CategoryStore.InsertKeepsNamesUnique | backend/controllers/category.js:9-13 | Inserting a name `findOne` did not find keeps names unique. |
| CategoryStore.Categories.GetCategories | backend/controllers/category.js:21-28 | Every stored category is listed, each with its own id, newest first. A database failure gives 500. |
| CategoryStore.Categories.UpdateCategory | backend/controllers/category.js:31-46 | An unknown id gives 404 and no change. Otherwise only that category's name changes, to the given one, with no duplicate check. |
| CategoryStore.UpdateCanDuplicateName | backend/controllers/category.js:36-40 | A rename can give two categories the same name. |
| CategoryStore.Categories.DeleteCategory | backend/controllers/category.js:49-57 | The reply is 200 whether or not the id existed. Afterwards the id is absent and the other categories are unchanged. |
| IncomeStore.Incomes.AddIncome | backend/controllers/income.js:12-36 | A missing title, category, description or date gives 400. Then a non-number or non-positive amount gives 400. Then a database failure gives 500. Otherwise the reply is 200 (not 201), exactly one income is added, and the total grows by its amount. |
| IncomeStore.Incomes.GetIncomes | backend/controllers/income.js:39-50 | Every income is listed newest first, each with the suffix of its own amount. A database failure gives 500. |
| IncomeStore.WithSuffix | backend/controllers/income.js:42-45 | Each listed row keeps its document and gains the suffix of its amount. |
| IncomeStore.WithSuffixHas | backend/controllers/income.js:41-46 | Every stored income appears in the formatted list. |
| IncomeStore.Incomes.DeleteIncome | backend/controllers/income.js:53-62 | The reply is 200 whether or not the id existed. Afterwards the id is absent, and the total drops by the removed amount. |
| IncomeStore.Incomes.GetTotalIncome | backend/controllers/income.js:65-75 | The total is the sum of every stored income amount, with its suffix. |
| HomeDashboard.FilteredExpenses | frontend/src/Components/Dashboard/Dashboard.tsx:119-122 | Exactly the expenses dated in the selected year, each kept with its multiplicity. |
| HomeDashboard.AverageExpense | frontend/src/Components/Dashboard/Dashboard.tsx:125-130 | The average times the count is the total, and the average is 0 for no expenses. |
| HomeDashboard.MinExpense | frontend/src/Components/Dashboard/Dashboard.tsx:131-133 | 0 for no expenses. Otherwise it is the amount of some expense and no amount is smaller. |
| HomeDashboard.MaxExpense | frontend/src/Components/Dashboard/Dashboard.tsx:134-136 | 0 for no expenses. Otherwise it is the amount of some expense and no amount is larger. |
| HomeDashboard.CategoryName | frontend/src/Components/Dashboard/Dashboard.tsx:143 | "Khác" exactly when the category is missing, has an empty name or is named "Khác". Otherwise it is the category's own name. |
| HomeDashboard.PairsSum | frontend/src/Components/Dashboard/Dashboard.tsx:125-157 | The amounts fed to the grouping add up to the year's total expense. |
| HomeDashboard.ExpensesByCategory | frontend/src/Components/Dashboard/Dashboard.tsx:139-157 | The in-place `reduce` gives one entry per distinct category name. Each entry has that name's sum and count, every expense's name has an entry, the counts add up to the number of expenses, and the totals add up to the total expense. |
| HomeDashboard.SortByTotal | frontend/src/Components/Dashboard/Dashboard.tsx:159 | The in-place sort leaves the groups in descending total order and is a permutation of them. It is stable: the groups of each total keep their original order. |
| HomeDashboard.Sift | frontend/src/Components/Dashboard/Dashboard.tsx:159 | One insertion pass extends the sorted prefix by one entry, permutes the array and keeps every tie in order. |
| HomeDashboard.TopCategories | frontend/src/Components/Dashboard/Dashboard.tsx:159-160 | The top list is the first at most five sorted groups. None of them totals less than any group left out. The sorted list is a permutation of the groups, and groups with equal totals keep their original order. |
| HomeDashboard.SwapKeepsTies | frontend/src/Components/Dashboard/Dashboard.tsx:159 | Exchanging two neighbours with different totals leaves the order of every tie unchanged. |
| HomeDashboard.StableDescendingUnique | frontend/src/Components/Dashboard/Dashboard.tsx:159-160 | Two descending orders that keep every tie in its original order are equal. So the sorted list, and the five groups `slice(0, 5)` keeps when totals tie at the cut, are fully determined. |
| HomeDashboard.WithSpent | frontend/src/Components/Dashboard/Dashboard.tsx:98-108 | The callback throws exactly when the budget has no category and there is an expense to test, because the filter reads `budget.category._id`. Otherwise `spent` is the sum of the year's expenses with the budget's category id and month, and the percentage is that of `spent` against the limit. |
| HomeDashboard.PercentageOf | frontend/src/Components/Dashboard/Dashboard.tsx:106 | For a positive limit, the percentage times the limit is 100 times the spending. Otherwise it is 0. |
| HomeDashboard.BudgetsWithSpent | frontend/src/Components/Dashboard/Dashboard.tsx:98-109 | The `map` throws exactly when there are expenses and some budget has no category. Otherwise it gives one entry per budget, in order, each with its own spending. |
| HomeDashboard.BudgetsShown | frontend/src/Components/Dashboard/Dashboard.tsx:98-114 | The `budgets` state after a fetch. When the `map` throws, the `catch` skips `setBudgets` and the state keeps its previous list. Otherwise the state holds one entry per budget, with its spending and percentage. |
| HomeDashboard.ProgressMeansSpending | frontend/src/Components/Dashboard/Dashboard.tsx:289-295 | For a positive limit and a budget that reaches the `budgets` state (it has a category, or there were no expenses to test), the bar is over-budget exactly when spending exceeds the limit. It is a warning exactly when spending is above 80 percent of the limit but not over. |
| HomeDashboard.ProgressOf | frontend/src/Components/Dashboard/Dashboard.tsx:289-295 | The class thresholds at 100 and 80 percent, read as comparisons of spending against the limit. |
| HomeDashboard.BarWidth | frontend/src/Components/Dashboard/Dashboard.tsx:297 | The width is at most 100, at most the percentage, and one of the two. |
| HomeDashboard.BudgetRemaining | frontend/src/Components/Dashboard/Dashboard.tsx:163-165 | 0 while there is no report. Otherwise the remainder plus the year's spending is the year's budget. |
| HomeDashboard.Message | frontend/src/Components/Dashboard/Dashboard.tsx:231-235 | "Vượt" exactly for a negative remainder, by its absolute value. "Vừa đủ định mức" exactly for zero, and "Còn dư trong định mức" exactly for a positive remainder. |
| HomeDashboard.MessageMeansSpending | frontend/src/Components/Dashboard/Dashboard.tsx:163-165 | The footer reports an excess exactly when the year's spending is above its budget, and it reports that difference. |
| HomeDashboard.Amounts | frontend/src/Components/Dashboard/Dashboard.tsx:132 | One amount per expense, in order. |
| HomeDashboard.Pairs | frontend/src/Components/Dashboard/Dashboard.tsx:143-151 | One (category name, amount) pair per expense, in order. |
| YearSummary.MonthsOver | frontend/src/Components/Summary/YearSummary.tsx:10 | The count of months over budget is at most the number of months. |
| YearSummary.MonthsOverCounts | frontend/src/Components/Summary/YearSummary.tsx:10 | `filter(...).length` counts exactly the months with a positive overage. |
| YearSummary.PercentOver | frontend/src/Components/Summary/YearSummary.tsx:11 | Undefined (`NaN`) exactly for no months. Otherwise it is the nearest integer to the share of months over budget, with halves rounded up, and it lies between 0 and 100. |
| YearSummary.ColourOf | frontend/src/Components/Summary/YearSummary.tsx:51 | Red exactly when the percentage is defined and above 50. |
| YearSummary.SummaryOf | frontend/src/Components/Summary/YearSummary.tsx:9-51 | The money cards show the three totals unchanged, and the ratio card shows the count, the number of months, the percentage and its colour. |
| YearSummary.RedFromSevenOfTwelve | frontend/src/Components/Summary/YearSummary.tsx:11-51 | Over twelve months the card is red exactly when at least seven months are over budget. |
| AlertBox.AlertOf | frontend/src/Components/AlertBox/AlertBox.tsx:9-32 | The listed months are exactly those with a positive overage, in report order and with their multiplicity. The count is the number listed, which is at most the number of months. |
| AlertBox.NoOverageNoAlert | frontend/src/Components/AlertBox/AlertBox.tsx:10-32 | A report without overage lists nothing and counts 0. |
| AlertBox.EachOverMonthOnce | frontend/src/Components/AlertBox/AlertBox.tsx:27-32 | In a report built by the backend, each month over budget is listed exactly once. |
| AlertBox.DistinctOnce | frontend/src/Components/AlertBox/AlertBox.tsx:27-28 | Month entries that are pairwise different each occur once. |
| TransactionList.SpentByFilter | frontend/src/Components/TransactionList.tsx:30-32 | The filtered `reduce` is the sum of absolute amounts of the transactions with that category. |
| TransactionList.LastLimit | frontend/src/Components/TransactionList.tsx:29-35 | The limit that survives in the map is that of the last entry with the name, and there is none exactly when no entry has the name. |
| TransactionList.BuildOverLimitMap | frontend/src/Components/TransactionList.tsx:29-35 | The map has a key exactly for each entry's name. Its value is whether that name's spending exceeds the limit of the last entry with the name. |
| TransactionList.OverLimitMap | frontend/src/Components/TransactionList.tsx:29-35 | The same, with the spending of a name summed over all the transactions. |
| TransactionList.Flag | frontend/src/Components/TransactionList.tsx:50 | `map[name] \|\| false` is true exactly when the name is a key mapped to true. |
| TransactionList.Rows | frontend/src/Components/TransactionList.tsx:49-50 | One row per transaction, in input order, each flagged through the map. |
| TransactionList.RowFlagMeansOverLimit | frontend/src/Components/TransactionList.tsx:29-50 | A row is flagged exactly when its category is listed and its spending is strictly above that limit. An unlisted category is never flagged. |
| TransactionTable.RefSpentByFilter | frontend/src/Components/TransactionList/TransactionList.tsx:32-34 | The filtered `reduce` is the sum of absolute amounts over the transactions whose category reference has that name. |
| TransactionTable.OverLimitMapOf | frontend/src/Components/TransactionList/TransactionList.tsx:31-37 | A key exactly for each entry's name. The value is whether that name's spending exceeds the last such entry's limit. |
| TransactionTable.DisplayName | frontend/src/Components/TransactionList/TransactionList.tsx:52 | "Khác" exactly when the category is missing, its name is empty, or it is named "Khác". Otherwise it is the category's name. |
| TransactionTable.RefRows | frontend/src/Components/TransactionList/TransactionList.tsx:51-53 | One row per transaction, in order, with its display name and the flag of that name. |
| TransactionTable.RowFlagOfReference | frontend/src/Components/TransactionList/TransactionList.tsx:31-53 | A row with a named category is flagged exactly when that name is over its limit. A row shown as "Khác" (no category, or an empty name) takes the flag of a "Khác" entry. |
| TransactionTable.MissingCategoryCountsNowhere | frontend/src/Components/TransactionList/TransactionList.tsx:33 | A transaction without a category adds to no name's spending. |
| MonthlyReport.FilteredByMonthYear | frontend/src/pages/MonthlyReport.tsx:30-32 | Exactly the transactions of that month and year, each kept with its multiplicity. |
| MonthlyReport.SpentByCategory | frontend/src/pages/MonthlyReport.tsx:35-39 | The `forEach` gives a key exactly for the categories that occur. Each value is the sum of that category's absolute amounts, and `spent[c] \|\| 0` equals that sum for every name. |
| MonthlyReport.SpentOnAbsent | frontend/src/pages/MonthlyReport.tsx:44 | A category with no transaction has spending 0. |
| MonthlyReport.CategoryDataOf | frontend/src/pages/MonthlyReport.tsx:42-46 | One entry per limit key, in key order, with that key's spending (0 by default) and limit. |
| MonthlyReport.FilteredTransactions | frontend/src/pages/MonthlyReport.tsx:49-52 | "Tất cả" keeps the whole month. Any other choice keeps exactly that category's transactions, every copy of each, in their original order. |
| MonthlyReport.TotalIsSpentAcross | frontend/src/pages/MonthlyReport.tsx:54 | The total spent is the spending under the listed names, added up. |
| MonthlyReport.SpentAcrossCovers | frontend/src/pages/MonthlyReport.tsx:42-54 | With distinct names covering every transaction, that sum is the month's whole spending. |
| MonthlyReport.CoveredTotal | frontend/src/pages/MonthlyReport.tsx:42-54 | When every transaction's category has a limit, the total spent is the month's whole spending. Spending under categories without a limit is dropped. |
| MonthlyReport.LimitNamesDistinct | frontend/src/pages/MonthlyReport.tsx:14-18 | The limit table's names are distinct. |
| MonthlyReport.PercentOf | frontend/src/pages/MonthlyReport.tsx:92 | For a non-zero limit, the nearest integer to the percentage, with halves rounded up. For a zero limit, +Infinity, NaN or -Infinity by the sign of the spending. |
| MonthlyReport.Capped | frontend/src/pages/MonthlyReport.tsx:100 | `Math.min(percent, 100)`: a finite width is at most 100, +Infinity becomes 100, and NaN and -Infinity stay. |
| MonthlyReport.GaugeOf | frontend/src/pages/MonthlyReport.tsx:92-101 | Over and red exactly when spending exceeds the limit. Orange exactly when not over and the percentage is above 80. The width is the capped percentage. |
| MonthlyReport.OverFillsBar | frontend/src/pages/MonthlyReport.tsx:100-101 | Against a positive limit, spending above it gives a full red bar. |
| MonthlyReport.OrangeBand | frontend/src/pages/MonthlyReport.tsx:100-101 | Within a positive limit, the bar is orange exactly from 80.5 percent on and green below, and its width is the percentage itself. |
| MonthlyReport.FindByName | frontend/src/pages/MonthlyReport.tsx:115-116 | `find` gives the first entry with the name, or nothing exactly when there is none. |
| MonthlyReport.GaugeFor | frontend/src/pages/MonthlyReport.tsx:90-138 | "Tất cả" shows the gauge of the totals. Another name shows the gauge of its entry, and nothing exactly when no entry has the name. |
| MonthlyReport.RowsAgreeWithGauges | frontend/src/pages/MonthlyReport.tsx:141-145 | A transaction row is flagged exactly when its category's entry has a gauge over the limit, so the table and the gauges agree. |
| MonthlyReport.Render | frontend/src/pages/MonthlyReport.tsx:30-145 | One render: the category data is built from the limits and the month's transactions, and the totals are its sums. Those totals are the month's whole spending when every category has a limit. The gauge is the selected one, the rows are the selected transactions in order, and each row's flag agrees with its category's gauge. |
| MonthlyReport.ShownRows | frontend/src/pages/MonthlyReport.tsx:49-52 | The table rows are the selected transactions, in order. Each row is flagged exactly when its category's entry has a gauge over the limit. |
| MonthlyReport.WithinMonthKept | frontend/src/pages/MonthlyReport.tsx:30-32 | A list already within the month is kept whole. |
| MonthlyReport.SampleSpent | frontend/src/pages/MonthlyReport.tsx:21-27 | The built-in transactions spend 7,000,000 on "Ăn uống", 500,000 on "Đi lại", 250,000 on "Giải trí", and nothing otherwise. |
| MonthlyReport.NovemberData | frontend/src/pages/MonthlyReport.tsx:14-46 | For November 2025 the category data is the three limits with those spendings. |
| MonthlyReport.NovemberTotals | frontend/src/pages/MonthlyReport.tsx:54-55 | Those data total 7,750,000 spent of 9,000,000. |
| MonthlyReport.NovemberGauges | frontend/src/pages/MonthlyReport.tsx:92-126 | The November total gauge is 86 percent and orange. "Ăn uống" alone is 140 percent, over, red and at full width. |
| ExpenseManager.Page.constructor | frontend/src/pages/ExpenseManager.tsx:39-56 | The initial state: empty lists, an empty form, nothing editing or deleting, total 0, no month, and the current year. |
| ExpenseManager.Loaded | frontend/src/pages/ExpenseManager.tsx:66-71 | The expenses of the selected year, and also of the selected month when one is chosen, each kept with its multiplicity. |
| ExpenseManager.Page.Load | frontend/src/pages/ExpenseManager.tsx:59-87 | The list becomes the filtered response. Once the categories arrive too, they are set and the total becomes the sum of the filtered amounts. A failed request leaves what it would have set. |
| ExpenseManager.TotalQuery | frontend/src/pages/ExpenseManager.tsx:104-106 | The total request is scoped to the month and year exactly when both are truthy. |
| ExpenseManager.Page.HandleAdd | frontend/src/pages/ExpenseManager.tsx:96-115 | On success the returned record is appended. Its category is the bare id that `addExpense` returns. The total becomes the server's and the form is cleared only when the total request succeeds too. A failed add changes nothing. |
| ExpenseManager.CategoryCell | frontend/src/pages/ExpenseManager.tsx:243 | The category cell is the populated category's name when that name is non-empty, and "Khác" otherwise. So it shows "Khác" for the unpopulated record an add appends and for a category that no longer exists. |
| ExpenseManager.Page.HandleUpdate | frontend/src/pages/ExpenseManager.tsx:117-138 | Every entry with the id becomes the returned record, and the others and the length are kept. Then the server's total is taken, and editing, the modal and the form are cleared. |
| ExpenseManager.Page.ConfirmDelete | frontend/src/pages/ExpenseManager.tsx:140-158 | Nothing happens without a pending id. After the delete, entries with that id are removed and the rest stay in order. Then the server's total is taken and the pending id and modal are cleared. |
| ExpenseManager.WithoutId | frontend/src/pages/ExpenseManager.tsx:144 | The kept entries are exactly those with another id. |
| ExpenseManager.WithoutIdIsFilter | frontend/src/pages/ExpenseManager.tsx:144 | The removal is the order-keeping filter, and each kept entry keeps its multiplicity. |
| ExpenseManager.DeleteCount | frontend/src/pages/ExpenseManager.tsx:144 | The list shrinks by the number of entries with that id. |
| CategoryManager.TrimStart | frontend/src/pages/CategoryManager.tsx:37 | Only leading white space is removed, and the result starts with a non-space. |
| CategoryManager.TrimEnd | frontend/src/pages/CategoryManager.tsx:54 | Only trailing white space is removed, and the result ends with a non-space. |
| CategoryManager.TrimEmptyIffBlank | frontend/src/pages/CategoryManager.tsx:37 | `!s.trim()` holds exactly for strings of white space only, the empty string included. |
| CategoryManager.Page.constructor | frontend/src/pages/CategoryManager.tsx:17-21 | The initial state: no categories, empty inputs, nothing editing or deleting. |
| CategoryManager.Page.Load | frontend/src/pages/CategoryManager.tsx:23-34 | The list becomes the server's, and it is unchanged when the request fails. |
| CategoryManager.Page.HandleAdd | frontend/src/pages/CategoryManager.tsx:36-46 | A blank name does nothing. A successful add appends the server's record and clears the input. A failure leaves both. |
| CategoryManager.Page.HandleEditClick | frontend/src/pages/CategoryManager.tsx:48-51 | The editing state takes the row's id and name, and nothing else changes. |
| CategoryManager.Page.HandleSave | frontend/src/pages/CategoryManager.tsx:53-63 | A blank name does nothing. A successful save replaces the entries with that id, keeps the others and the length, and ends editing. A failure leaves both. |
| CategoryManager.Page.HandleDeleteClick | frontend/src/pages/CategoryManager.tsx:65-67 | The pending id is set, and nothing else changes. |
| CategoryManager.Page.CancelEdit | frontend/src/pages/CategoryManager.tsx:116 | Cancelling an edit clears the editing id, and nothing else changes. |
| CategoryManager.Page.CancelDelete | frontend/src/pages/CategoryManager.tsx:122 | Cancelling a delete clears the pending id, and nothing else changes. |
| CategoryManager.Page.ConfirmDelete | frontend/src/pages/CategoryManager.tsx:69-78 | A successful delete removes exactly the entries with that id, keeps the order, and clears the pending id. A failure leaves both. |
| LegacyDashboard.Smallest | src/Components/Dashboard/Dashboard.tsx:40-48 | 0 for an empty list. Otherwise it is the amount of some entry and no amount is smaller. This covers incomes and expenses alike. |
| LegacyDashboard.Largest | src/Components/Dashboard/Dashboard.tsx:43-51 | 0 for an empty list. Otherwise it is the amount of some entry and no amount is larger. |
| LegacyDashboard.SmallestAtMostLargest | src/Components/Dashboard/Dashboard.tsx:40-51 | The "Min" figure never exceeds the "Max" figure of the same list. |
| LegacyDashboard.ShownTotal | src/Components/Dashboard/Dashboard.tsx:65-74 | A non-empty server text is shown as it is. Otherwise the local sum of amounts is shown with its suffix. |
| LegacyDashboard.FallbackGrows | src/Components/Dashboard/Dashboard.tsx:65-66 | Adding an amount moves the fallback total by that amount, and a non-negative amount never lowers its suffix. |
| Util.Filter | frontend/src/Components/Dashboard/Dashboard.tsx:119-122 | `filter` keeps exactly the matching elements, each with its multiplicity, and never grows the list. |
| Util.FilterConcat | frontend/src/pages/ExpenseManager.tsx:66-71 | Filtering a concatenation filters each part, in order. |
| Util.FilterKeepsOrder | frontend/src/pages/MonthlyReport.tsx:49-52 | `filter` keeps the order of what it keeps: its result is its input with some elements left out. |
| Util.SumByConcat | frontend/src/pages/MonthlyReport.tsx:54-55 | A `reduce` sum over a concatenation is the sum of the parts. |
| Util.SumByPrefix | frontend/src/pages/MonthlyReport.tsx:36-38 | Extending a prefix by one element adds that element's share. |
| Util.SumByUpdate | frontend/src/Components/Dashboard/Dashboard.tsx:147-148 | Replacing one element changes the sum by the difference of the shares. |
| Util.SumByFilter | frontend/src/Components/TransactionList.tsx:30-32 | `filter(p).reduce(+f)` equals the sum with rejected elements counted as 0. |
| Util.MinOr0 | frontend/src/Components/Dashboard/Dashboard.tsx:131-133 | `length ? Math.min(...) : 0` is 0 for an empty list, and otherwise a member no larger than any element. |
| Util.MaxOr0 | frontend/src/Components/Dashboard/Dashboard.tsx:134-136 | The same for `Math.max`. |
| Util.RoundedPercent | backend/controllers/stats.js:33 | `Math.round(part / whole * 100)`: the integer r within half a unit of 100·part/whole, with halves rounded up. |
| Util.PercentWithinRange | frontend/src/Components/Summary/YearSummary.tsx:11 | A share no larger than its positive whole rounds to between 0 and 100 percent. |
| Util.RoundedPercentUnique | frontend/src/pages/MonthlyReport.tsx:92 | Only one integer lies within half a unit of the exact percentage. |
| Util.ReplaceWhere | frontend/src/pages/CategoryManager.tsx:57 | `map(c => matches ? y : c)` replaces exactly the matching entries and keeps the length. |
| Util.MapOrThrow | frontend/src/Components/Dashboard/Dashboard.tsx:98-109 | A `map` whose callback may throw gives the exception exactly when the callback throws on some element. Otherwise it gives one result per element, in order. |

## Left out

- HTTP plumbing is not modelled: Express routing, `req`/`res`, JSON bodies, status messages and `console.error`. Replies are the `Http.Reply` datatype, with 200, 201, 400, 404, 409 and 500.
- Mongoose is not modelled. Collections are in-memory maps with an id counter. `populate` is not modelled, so a budget's or expense's category stays an id. Database failures are a boolean parameter.
- Expense and budget documents carry explicit `month` and `year` fields, as `getYearlyStats`'s aggregate reads them. Schema validation (required fields, the `userId` that `addBudget` never sets, `runValidators`) is not modelled. backend/models/CategoryModel.js and the income model are not part of this model.
- Casting a malformed id string (`CastError`, which leads to 500) is not modelled: ids are natural numbers.
- BudgetStore.Budgets.AddBudget: JSON strings and other non-number values of `limit`, `month` and `year` are not modelled. The guard (budgetController.js:9) tests only truthiness, so a truthy string passes it. Mongoose then casts a numeric string ("500000" gives 201 or 409) and fails with 500 on any other. The model has `None` for every non-number and answers 400.
- BudgetStore.Budgets.UpdateBudget: a non-number or `null` value in the body is not modelled. The source fails the cast with 500 for a non-numeric string and writes `null` for an explicit `null`. The model has only a number or an absent key (`None`, kept).
- BudgetStore.Budgets.GetBudgetsByMonth: the query strings are not modelled. `month` and `year` arrive as strings, possibly absent or non-numeric, and Mongoose casts them (a cast failure is a 500). The model takes two integers.
- ExpenseStore.Expenses.UpdateExpense: a non-number or `null` amount is not modelled. A non-numeric string fails the cast with 500 and `null` is written. The model has only a number or an absent key (`None`, kept).
- `getBudgets` (all budgets, populated) and `getExpense` (all expenses with `formattedAmount`, newest first) are not modelled. They are listings with no rule beyond `Table.NewestFirst` and `AmountFormat.SuffixOf`, which are modelled.
- Timing is not modelled: `createdAt` ties (documents created within one millisecond) are not modelled, and ids stand for creation order.
- Concurrency is not modelled: every handler is one atomic step, so the check-then-insert races of `addBudget` and `addCategory` are not represented.
- Network requests are not modelled: the Dashboard's twelve sequential `fetchBudgets` requests are left out, and only the post-processing of the collected budgets is modelled.
- Floating point is not modelled. Amounts are unbounded integers. The Dashboard's average and budget percentage are exact `real`s, not IEEE-754 doubles.
- HomeDashboard.AverageExpense: states the exact quotient, not the double JavaScript computes.
- HomeDashboard.WithSpent: the percentage is the exact quotient, not the double JavaScript computes.
- The number formatting is left out, because it depends on floating point and locale. That covers:
  - the digits `formatAmount` prints before its suffix (`toFixed(1)`);
  - `toLocaleString("vi-VN")`;
  - the "₫" texts;
  - `dateFormat`.

  Only the choice of suffix is modelled. frontend/src/utils/formatAmount is not part of this model.
- AmountFormat.SuffixOf: a negative value always gets plain digits, as in the source, and the digits themselves are not modelled.
- Stats.GetYearlyStats: `Number(req.query.year)` of a non-integer string such as "2025.5" is not modelled. The year is `None` (not a number) or an integer.
- Expense amounts that are not numbers (NaN in the store) are not modelled. The stored amount is always an integer.
- UI handlers are not modelled:
  - `handleChange` (the form inputs);
  - the expense manager's edit-click and delete-click handlers, which copy a record into the string form, a number-to-string conversion with no rule to state;
  - all rendering, styling, toasts and alerts.
- HomeDashboard.BudgetsShown: rendering is not modelled, and the budget list's render throws for a budget without a category. With no expenses loaded yet (the context starts with `expenses = []`, so on first mount), such a budget passes the `map` and reaches the `budgets` state. The list then reads `budget.category.name` (Dashboard.tsx:275), which throws, and no error boundary catches it. A budget whose category was deleted therefore crashes the dashboard on first load. The model states the `budgets` state only.
- The older dashboard's `totalBalance()` comes from a context provider that is not part of this model.
- ExpenseManager.Page.HandleAdd: the edit click on the appended row (`categoryId: e.category._id`, which reads `undefined` off the bare id string) is not modelled, like the other edit clicks.
- ExpenseManager.Page.HandleAdd: the total stored after add, update or delete is whatever the server returns. The page asks for a month-scoped total (`ExpenseManager.TotalQuery`), but the backend's `getTotalExpense` ignores the query and sums every expense. After any change, the shown total is therefore the all-time total, while the list stays filtered. The model keeps both halves apart and does not relate them.
- CategoryManager.Page.HandleAdd: the `addCategory(newName)` request itself, sent with the untrimmed name, is not modelled. The server's answer (the created category, or a failure) is the parameter.
- The older copy src/pages/CategoryManager.tsx has the same handlers and state as frontend/src/pages/CategoryManager.tsx, one line earlier (handleAdd 35-45, handleEditClick 47-50, handleSave 52-62, handleDeleteClick 64-66, confirmDelete 68-77). The one `CategoryManager.Page` class models both. The older dashboard's local `formatAmount` (src/Components/Dashboard/Dashboard.tsx:10-15) uses the backend thresholds, so `AmountFormat.SuffixOf` models it too.
- Authentication, the token blacklist, OAuth and the context providers are outside the modelled logic.
- Names inherited from `Object.prototype` are not modelled. The pages' lookup tables are plain JavaScript objects (`{}`), and the model's are Dafny maps. For a category named "constructor", "toString" or "__proto__" the two differ:
  - `map["__proto__"] = b` creates no key;
  - `map["constructor"] || false` is the inherited function, which is truthy;
  - `spentByCategory["constructor"] || 0` concatenates strings.
  The members this affects follow, one per line.
- TransactionList.BuildOverLimitMap: assumes no entry is named "__proto__", which would create no key in JavaScript.
- TransactionList.OverLimitMap: the same; a key for every entry's name holds only for names that are not "__proto__".
- TransactionList.Flag: `overLimitMap[name] || false` is also truthy for an inherited name such as "constructor", which the model does not flag.
- TransactionList.RowFlagMeansOverLimit: "an unlisted category is never flagged" holds only for names not inherited from `Object.prototype`.
- TransactionTable.OverLimitMapOf: the same "__proto__" gap as TransactionList.OverLimitMap.
- TransactionTable.RowFlagOfReference: an unlisted inherited name such as "constructor" is flagged in JavaScript and not in the model.
- MonthlyReport.SpentByCategory: for an inherited category name, `spentByCategory[cat] || 0` starts from the inherited function and concatenates strings. The model adds numbers from 0.

## Notes on the design text and the code

- `getCategories` lists the stored categories, newest first, and does not create default categories when the table is empty. The model follows the code.
- No controller filters by owner, so every uniqueness rule (budget slot, category name) is table-wide. The model follows the code.
- `getTotalExpense` takes no month or year filter, although the expense manager passes both.
