# yosan-os finance and task data layer, in Dafny

This project models the data layer of yosan-os, a personal budget and
productivity app, and proves properties about it.

**The local database (`src/lib/db.ts`, `src/hooks/useDatabase.ts`).**
- It has five auto-incrementing tables: settings, categories, expenses, projects and tasks.
- Seeding fills it the first time the app runs.
- Mutations:
  - category rebalance;
  - project delete, which cascades to the project's tasks;
  - add task, toggle task and reorder tasks.
- Read-side derivations:
  - the spend per category over the budget month;
  - task counts and the today and overdue lists;
  - the savings rate, the per-category breakdown, four weekly buckets and the productivity score.
- Helpers:
  - `formatCurrency`;
  - `getMonthDateRange`, the budget-month window built with JavaScript's `Date` normalisation.

**Three pages and one panel that compute their figures from cloud documents.**
- The budget allocation panel (`BudgetAllocation.tsx`):
  - loads the categories with defaults;
  - computes the spend per category with ids compared as strings;
  - derives each category's view;
  - sets one category's percentage;
  - resets the seven default categories.
- The money page (`Money.tsx`):
  - normalises transactions;
  - computes the remaining budget, the utilisation and the liquidity dot;
  - groups spending by category with each category's share;
  - runs the text search and builds the CSV export.
- The projects page (`Projects.tsx`): the active and completed lists, the velocity, the search and status filter, the filter button and the status toggle.
- The overview page (`Overview.tsx`):
  - computes spent, saved and the percentage saved;
  - buckets the last 28 days of activity into a grid;
  - ranks the top four categories and sizes their bars;
  - counts the open projects.

**Modules.** There is one module per file:
- `Wrappers`: `Option`.
- `Numeric`: `Math.round`, and JavaScript numbers with NaN and the infinities.
- `Text`: `toLowerCase`, `includes`, `join`, and printing and reading numbers.
- `Sequences`: `filter`, `reduce`, `map` and a descending sort.
- `Calendar`: the `Date` normaliser and day numbers.
- `Tables`: one auto-increment table as a class.
- `Db`: `db.ts`.
- `UseDatabase`: `useDatabase.ts`.
- `Documents`: document field values and JavaScript coercions.
- `Grouping`: the per-name totals dictionary loop.
- `BudgetAllocation`.
- `MoneyPage`.
- `ProjectsPage`.
- `OverviewPage`.

**State that changes in place is a class:**
- the tables (`Tables.Table`, with `map<int, T>` rows and a `nextId` counter);
- the database (`Db.FinanceDB`);
- the category documents of the allocation panel (`BudgetAllocation.CategoryStore`);
- the project documents (`ProjectsPage.ProjectStore`).

**Inputs instead of environment calls:**
- Clock readings are parameters: a civil date `today` or an instant `now` in milliseconds of local time.
- `toLocaleDateString`, `toLocaleString` and string-to-date parsing are function parameters.
- Amounts and percentages are `real`. `Num` stands for a JavaScript number that may be NaN or infinite. It is used where NaN and the infinities arise from well-typed fields: a zero divisor, the 29th grid cell. NaN from a missing or non-numeric amount on the overview page is not carried (see Left out).

Where a page reads a document field that may be missing or of another type, the field is a `Documents.Value`. The JavaScript coercions `Number(v) || 0` and `String(id)` are written out where the pages apply them. The overview page's amounts are the exception: they are read as `Number(v) || 0` throughout, although the source adds the raw or `Number`-coerced amount (see Left out).

## Model

| member | source | states |
|---|---|---|
| Tables.Table.constructor | src/lib/db.ts:70-76 | A new table is empty and its auto-increment counter starts at 1. |
| Tables.Table.ToArray | src/hooks/useDatabase.ts:20 | `toArray()` lists every row exactly once, with its key, in ascending key order, and lists nothing else. |
| Tables.Table.First | src/hooks/useDatabase.ts:9 | `toCollection().first()` is missing exactly when the table is empty. Otherwise it is a stored row whose key is the smallest. |
| Tables.Table.Get | src/hooks/useDatabase.ts:164 | `get(id)` returns the stored row exactly when the key exists. |
| Tables.Table.Add | src/hooks/useDatabase.ts:22-28 | `add` stores the row under the next counter value. That key is larger than every existing key, and the other rows are unchanged. |
| Tables.Table.BulkAdd | src/lib/db.ts:98-106 | `bulkAdd` stores the rows in order under consecutive fresh keys and returns those keys. |
| Tables.Table.Update | src/hooks/useDatabase.ts:30-32 | `update(id, changes)` rewrites only that row when it exists. For a missing id nothing changes. |
| Tables.Table.Delete | src/hooks/useDatabase.ts:34-36 | `delete(id)` removes exactly that key. |
| Tables.Table.DeleteWhere | src/hooks/useDatabase.ts:128 | `where(...).equals(...).delete()` removes exactly the rows that match and keeps every other row. |
| Tables.RowsListing | src/hooks/useDatabase.ts:39 | The key-ordered listing of a table holds each row once, with its key, in strictly ascending key order. |
| Tables.RowsMapValues | src/hooks/useDatabase.ts:42-50 | Rewriting every row and then listing gives the same result as listing and then rewriting each listed row. |
| Tables.MapValues | src/hooks/useDatabase.ts:42-50 | The rewritten table has the same keys, and each row is the rewrite of the old row. |
| Db.FinanceDB.constructor | src/lib/db.ts:61-78 | The database starts with five empty, fresh tables. |
| Db.DefaultSettings | src/lib/db.ts:88-95 | The seeded settings have a budget of 50000, INR with the rupee sign, and month start day 1. |
| Db.DefaultCategories | src/lib/db.ts:98-106 | There are five seeded categories with distinct names. Their percentages add up to 100, and each allocation is its percentage of 50000. |
| Db.SampleProject | src/lib/db.ts:109-117 | The sample project is active and of high priority. |
| Db.SampleTasks | src/lib/db.ts:120-145 | Both sample tasks reference the given project and have orders 0 and 1. They are open, with no completion time, and are due now and seven days from now. |
| Db.InitializeDefaultData | src/lib/db.ts:83-147 | With a settings row already present, nothing changes. With none, the seeding adds the settings row, then the five categories in order, then the project under its fresh id, then its two tasks. Afterwards the settings table is never empty, so a second run is a no-op. |
| Db.FormatCurrencyDigits | src/lib/db.ts:150-152 | The text starts with the symbol, the rupee sign by default. Removing the group separators from the rest leaves the amount printed in decimal. |
| Db.GetMonthDateRange | src/lib/db.ts:154-170 | The month window's start and end are both valid calendar dates. |
| Db.MonthDateRangeDays | src/lib/db.ts:161-167 | The window starts `msd - 1` days after the first of this month if today's day is at least the start day `msd`, and of last month otherwise. It ends `msd - 2` days after the first of the following month. |
| Db.CalendarMonthRange | src/lib/db.ts:154-170 | With start day 1, the default, the window is exactly the calendar month of today. |
| Db.MonthDateRangeContainsToday | src/lib/db.ts:154-170 | For start days 1 to 28, the window contains today and is as long as the month it starts in. |
| Db.LateStartDayMissesToday | src/lib/db.ts:161-166 | Today is March 1, 2023, with start day 31. The window starts on March 3, after today. |
| Db.ClampedStart | src/lib/db.ts:162-166 | The start day moved into the month: a valid date of that month, keeping the day when the month has it. |
| Calendar.PrevDayIsDateBefore | src/lib/db.ts:163 | The day before a valid date, as the corrected window computes it, is the date `new Date(y, m, d - 1)` builds. |
| Db.GetMonthDateRangeClamped | src/lib/db.ts:154-170 | The corrected window also consists of valid dates. |
| Db.ClampedRangeContainsToday | src/lib/db.ts:154-170 | With the start day clamped into each month, the window contains today for every start day. |
| Db.PeriodInstants | src/hooks/useDatabase.ts:59-64 | The expense query bounds, as written, are two local midnights. |
| Db.PeriodInstantsDropLastDay | src/hooks/useDatabase.ts:59-64 | As written, noon of the window's last day falls outside the query. |
| Db.PeriodInstantsWholeDays | src/hooks/useDatabase.ts:59-64 | The corrected bounds hold an instant exactly when its day lies between the window's first and last day. |
| UseDatabase.UpdateSettings | src/hooks/useDatabase.ts:8-13 | Only the first settings row is patched. Without a settings row, nothing is written. |
| UseDatabase.AddCategory | src/hooks/useDatabase.ts:22-28 | The category is stored under a key above all existing keys, with `createdAt` and `updatedAt` set to the current time. |
| UseDatabase.UpdateCategory | src/hooks/useDatabase.ts:30-32 | Only the named category is patched, and its `updatedAt` is stamped. A missing id changes nothing. |
| UseDatabase.DeleteCategory | src/hooks/useDatabase.ts:34-36 | Exactly the named category is removed. |
| UseDatabase.TotalPercentage | src/hooks/useDatabase.ts:40 | The sum of finite percentages is finite. |
| UseDatabase.Rebalanced | src/hooks/useDatabase.ts:42-50 | With a total P that is finite and not 0, the new percentage is `old / P * 100` and the allocation is `Math.round(pct / 100 * budget)`. Name, icon, colour and `createdAt` are kept. With P = 0 the percentage and allocation are not finite. |
| UseDatabase.AllocationFor | src/hooks/useDatabase.ts:44 | The allocation is `Math.round` of the percentage of the budget, and is not finite when the percentage is not. |
| UseDatabase.UpdateListed | src/hooks/useDatabase.ts:42-50 | The update loop over the listing rewrites every row of the table once with the same rewrite. |
| UseDatabase.RebalanceCategories | src/hooks/useDatabase.ts:38-51 | Every category is rewritten using the total of the percentages read before the loop. |
| UseDatabase.RebalancedTotal | src/hooks/useDatabase.ts:40-50 | After the rewrite, the total of the percentages is the old total as a percentage of P. |
| UseDatabase.ListingFinite | src/hooks/useDatabase.ts:39 | A table whose percentages are finite lists only finite percentages. |
| UseDatabase.RebalanceSumsTo100 | src/hooks/useDatabase.ts:38-51 | With finite percentages and P ≠ 0, the rebalanced percentages add up to exactly 100. |
| UseDatabase.RebalanceIdempotent | src/hooks/useDatabase.ts:38-51 | A second rebalance with the same budget changes no percentage and no allocation, only `updatedAt`. |
| UseDatabase.MonthExpenses | src/hooks/useDatabase.ts:58-64 | The month's expenses are exactly those dated between the window's two midnights, both included. The settings row's start day is used, or 1 when there is no settings row. |
| UseDatabase.AddExpense | src/hooks/useDatabase.ts:68-74 | The expense is stored under a fresh key with the current timestamps. |
| UseDatabase.UpdateExpense | src/hooks/useDatabase.ts:76-78 | Only that expense is patched. A missing id changes nothing. |
| UseDatabase.DeleteExpense | src/hooks/useDatabase.ts:80-82 | Exactly that expense is removed. |
| UseDatabase.CategoryIs | src/hooks/useDatabase.ts:85 | The filter keeps an expense exactly when its `categoryId` equals the id. |
| UseDatabase.CategoryIsNot | src/hooks/useDatabase.ts:92-96 | The complement of that filter. |
| UseDatabase.ExpensesByCategory | src/hooks/useDatabase.ts:84-86 | The result holds exactly the expenses whose `categoryId` equals the id. |
| UseDatabase.SpentByCategory | src/hooks/useDatabase.ts:92-96 | The spend of an id that no expense carries is 0. |
| UseDatabase.SumNonNegative | src/hooks/useDatabase.ts:88-90 | `getTotalSpent` of non-negative amounts is non-negative. |
| UseDatabase.FilterNonNegative | src/hooks/useDatabase.ts:85 | A filter keeps amounts non-negative. |
| UseDatabase.SpentWithinTotal | src/hooks/useDatabase.ts:88-96 | One category's spend lies between 0 and the total spend. |
| UseDatabase.SpendSplitsByCategory | src/hooks/useDatabase.ts:88-96 | When each expense belongs to exactly one listed category, the per-category spends add up to the total spend. |
| UseDatabase.SpentOverKeys | src/hooks/useDatabase.ts:92-96 | Adding up `getSpentByCategory` over ids is the per-key sum over those ids. |
| UseDatabase.AddProject | src/hooks/useDatabase.ts:114-120 | The project is stored under a fresh key with the current timestamps. |
| UseDatabase.UpdateProject | src/hooks/useDatabase.ts:122-124 | Only that project is patched. A missing id changes nothing. |
| UseDatabase.WithoutProjectTasks | src/hooks/useDatabase.ts:128 | The remaining tasks are exactly the tasks of other projects, or of no project, each unchanged. |
| UseDatabase.DeleteProject | src/hooks/useDatabase.ts:126-130 | The project's tasks are deleted first, then the project. All other tasks and projects are unchanged. |
| UseDatabase.CascadeLeavesNoOrphans | src/hooks/useDatabase.ts:126-130 | If every task referenced an existing project before the delete, that still holds after it. |
| UseDatabase.MaxOrder | src/hooks/useDatabase.ts:150 | The value is missing exactly when there are no tasks. Otherwise it is the largest order, and some task has it. |
| UseDatabase.NextOrder | src/hooks/useDatabase.ts:153 | `(max?.order ?? -1) + 1` is above every existing order, and is 0 when there are no tasks. |
| UseDatabase.AddTask | src/hooks/useDatabase.ts:149-157 | The new task is stored under a fresh key with the current timestamps. Its order is larger than every existing task's order, and is 0 when the table was empty. |
| UseDatabase.UpdateTask | src/hooks/useDatabase.ts:159-161 | Only that task is patched. A missing id changes nothing. |
| UseDatabase.Toggled | src/hooks/useDatabase.ts:165-171 | The toggle flips `completed` and sets `completedAt` exactly when the task becomes completed, to the current time. Every other field is kept except `updatedAt`. |
| UseDatabase.ToggleTask | src/hooks/useDatabase.ts:163-172 | Toggling an existing task writes the toggled task. A missing id changes nothing. |
| UseDatabase.ToggleKeepsSync | src/hooks/useDatabase.ts:163-172 | If `completed ⇔ completedAt ≠ null` holds for every task, it still holds after a toggle. |
| UseDatabase.LastIndexOf | src/hooks/useDatabase.ts:178-182 | The result is the last position of the id in the list, or -1 when the id is not in the list. |
| UseDatabase.ReorderedOrders | src/hooks/useDatabase.ts:178-182 | After a reorder, each listed task's order is its last position in the list. Unlisted tasks are unchanged, and the set of ids is the same. |
| UseDatabase.ReorderTasks | src/hooks/useDatabase.ts:178-182 | The update loop produces that reordered table. |
| UseDatabase.DeleteTask | src/hooks/useDatabase.ts:174-176 | Exactly that task is removed. |
| UseDatabase.CompletedCount | src/hooks/useDatabase.ts:184 | The count is the number of positions holding a completed task, so at most the number of tasks. |
| UseDatabase.PendingCount | src/hooks/useDatabase.ts:185 | The count is the number of positions holding a task that is not completed, so at most the number of tasks. |
| UseDatabase.CountsPartition | src/hooks/useDatabase.ts:184-185 | Completed plus pending is the number of tasks. |
| UseDatabase.TomorrowMidnight | src/hooks/useDatabase.ts:189-190 | Tomorrow's midnight is one day after today's. |
| UseDatabase.TodayTasks | src/hooks/useDatabase.ts:186-197 | Today's tasks are exactly those whose due instant falls on today's day. |
| UseDatabase.OverdueTasks | src/hooks/useDatabase.ts:199-207 | Overdue tasks are exactly the open tasks due on an earlier day than today. |
| UseDatabase.TodayNotOverdue | src/hooks/useDatabase.ts:186-207 | No task is both due today and overdue. |
| UseDatabase.SavingsRate | src/hooks/useDatabase.ts:231-234 | The rate is 0 for a budget that is not positive. With a positive budget: it lies in [0, 100] within the budget; it is 100 exactly when nothing was spent; it is negative exactly when overspent. |
| UseDatabase.SpendOf | src/hooks/useDatabase.ts:236-241 | A breakdown row has the category's spend among the expenses passed in (the hook passes the current budget window of `UseDatabase.MonthExpenses`) and `remaining = allocated - spent` (which may be negative). `percentSpent` is 0 when the allocation is not positive, and the spend as a percentage of the allocation otherwise. |
| UseDatabase.Breakdown | src/hooks/useDatabase.ts:236-241 | There is one breakdown row per category, in order, each computed over the expenses passed in (the current budget window in the hook). |
| UseDatabase.PercentSpentBounds | src/hooks/useDatabase.ts:236-241 | Spending within a positive allocation gives a `percentSpent` in [0, 100] and a remainder that is not negative. |
| UseDatabase.WeekStartIsSunday | src/hooks/useDatabase.ts:248-250 | Each week starts on a Sunday, `7i + getDay()` days before today. |
| UseDatabase.WeeklyData | src/hooks/useDatabase.ts:243-268 | There are four buckets, "Week 1" to "Week 4", oldest first. Each holds the spending of the expenses passed in that are dated in its week. The hook passes the current budget window, so a week before the window's start shows 0 even if money was spent then. |
| UseDatabase.WeeksAdjacent | src/hooks/useDatabase.ts:252-259 | Each bucket covers seven whole days and ends one millisecond before the next bucket starts. |
| UseDatabase.CurrentWeekContainsNow | src/hooks/useDatabase.ts:243-268 | The last bucket contains the present instant. |
| UseDatabase.ProductivityScore | src/hooks/useDatabase.ts:270-274 | The score lies in [0, 100]. It is 100 with no tasks or all tasks completed, and 0 when none is completed. |
| Documents.ToNumber | src/components/money/BudgetAllocation.tsx:72-73 | `Number(v)` keeps a number, gives 0 for null and gives NaN for undefined. A `Timestamp` is read as NaN (see Left out). |
| Documents.NumberOrZeroReads | src/pages/Money.tsx:70 | `Number(x) \|\| 0` gives a stored number back and a printed integer as its value. A missing field, null or non-numeric text gives 0. |
| Documents.TextOr | src/components/money/BudgetAllocation.tsx:70-71 | `v \|\| fallback` is the text when it is non-empty, and the fallback otherwise. |
| Documents.IdMatchesPrinted | src/components/money/BudgetAllocation.tsx:89 | A category id that prints the integer i matches exactly the transactions whose `categoryId` is the number i or the text of i. |
| BudgetAllocation.DefaultsWellFormed | src/components/money/BudgetAllocation.tsx:21-29 | The seven default percentages add up to 100, and the ids are distinct. |
| BudgetAllocation.LoadCategory | src/components/money/BudgetAllocation.tsx:66-75 | The id is the document's id. Name and icon are never empty. The percentage and allocation are `Number(x) \|\| 0`. |
| BudgetAllocation.LoadCategories | src/components/money/BudgetAllocation.tsx:64-78 | An empty snapshot keeps the current list. Otherwise the result is a permutation of the loaded documents with percentages non-increasing. |
| BudgetAllocation.LoadedCategoriesNamed | src/components/money/BudgetAllocation.tsx:64-78 | Every loaded category has a name and an icon, and its id comes from the snapshot. |
| BudgetAllocation.LoadedBudget | src/components/money/BudgetAllocation.tsx:46-50 | A truthy `totalBudget` is used; otherwise a truthy `budget`; otherwise the budget is unchanged. Without a document nothing changes. |
| BudgetAllocation.InCategory | src/components/money/BudgetAllocation.tsx:89 | A transaction belongs to the category exactly when the string forms of the ids agree. |
| BudgetAllocation.SpentByCategory | src/components/money/BudgetAllocation.tsx:87-91 | A category that no transaction matches has spent 0. |
| BudgetAllocation.NumberOrTextId | src/components/money/BudgetAllocation.tsx:89 | Selects exactly the transactions whose `categoryId` is the number i or its text. |
| BudgetAllocation.SpentByPrintedId | src/components/money/BudgetAllocation.tsx:87-91 | For a numeric category id, the spend adds up the transactions carrying that id as a number or as text, with amounts `Number(x) \|\| 0`. |
| BudgetAllocation.ViewOf | src/components/money/BudgetAllocation.tsx:126-131 | The allocation is recomputed as `Math.round(pct / 100 * budget)`, and `remaining = allocated - spent`. The category is overspent exactly when spent exceeds the allocation. `percentSpent` is 0 for a non-positive allocation. The bar is `percentSpent` capped at 100. |
| BudgetAllocation.ViewIgnoresStoredAllocation | src/components/money/BudgetAllocation.tsx:127 | The stored `allocated` field has no influence on the view. |
| BudgetAllocation.ViewWithinAllocation | src/components/money/BudgetAllocation.tsx:126-131 | Spending within a positive allocation is not overspent, and its bar shows a width between 0 and 100. |
| BudgetAllocation.ViewOverspent | src/components/money/BudgetAllocation.tsx:129-131 | Spending past the allocation is overspent, and the bar is full. |
| BudgetAllocation.MergePercentage | src/components/money/BudgetAllocation.tsx:98-101 | The merge writes only `percentage` and `allocated`. Every other field of the document is kept. |
| BudgetAllocation.CategoryStore.constructor | src/components/money/BudgetAllocation.tsx:63-64 | The store starts from the given documents. |
| BudgetAllocation.CategoryStore.SetPercentage | src/components/money/BudgetAllocation.tsx:93-102 | Without a user nothing changes. Otherwise only that category's document is merged, with `allocated = Math.round(p / 100 * budget)`. |
| BudgetAllocation.SetPercentageReadBack | src/components/money/BudgetAllocation.tsx:93-102 | Reading back a category after the merge gives the new percentage and allocation, and keeps its name and icon. |
| BudgetAllocation.BatchContents | src/components/money/BudgetAllocation.tsx:106-111 | The batch writes exactly the given ids, each with its default document and rounded allocation. |
| BudgetAllocation.CategoryStore.ResetToDefaults | src/components/money/BudgetAllocation.tsx:104-113 | Without a user or without confirmation nothing changes. Otherwise the seven default documents are overwritten and every other document is kept. |
| BudgetAllocation.ResetResult | src/components/money/BudgetAllocation.tsx:104-113 | After the reset, each of the seven default ids holds its default. Documents with other ids are unchanged. |
| BudgetAllocation.ResetReadBack | src/components/money/BudgetAllocation.tsx:66-75 | A category written by the reset loads back as the default category, with its rounded allocation. |
| MoneyPage.Trunc | src/pages/Money.tsx:64 | Truncates toward zero: it stays within one unit of x, on the side toward zero. |
| MoneyPage.Normalize | src/pages/Money.tsx:57-73 | The amount becomes `Number(x) \|\| 0`. A `Timestamp` date gives its instant, and a missing or falsy date gives now. Text fields are kept. |
| MoneyPage.Remaining | src/pages/Money.tsx:34 | `remaining` is never negative: it is the unspent budget, or 0 once the spending reaches the budget. |
| MoneyPage.Progress | src/pages/Money.tsx:35 | The utilisation is 0 for a budget that is not positive, and otherwise the spend as a percentage of the budget. |
| MoneyPage.ProgressWithinBudget | src/pages/Money.tsx:35 | Within a positive budget the utilisation lies in [0, 100], and is 100 exactly at the budget. |
| MoneyPage.DotNeverRed | src/pages/Money.tsx:176 | The `remaining < 0` dot is never red, not even with 150 spent of a budget of 100. |
| MoneyPage.DotRedIffOverBudget | src/pages/Money.tsx:176 | The corrected dot is red exactly when the spending exceeds the budget, which is exactly when the clamped `remaining` hides the deficit. |
| MoneyPage.HeroOf | src/pages/Money.tsx:33-35 | The hero card shows the total spent, the utilisation of `MoneyPage.Progress`, and `remaining`, which is the unspent budget or 0 once the budget is exceeded. Its dot (line 176) tests the clamped `remaining < 0`, so it is never red, even past the budget. |
| MoneyPage.Categories | src/pages/Money.tsx:37-44 | There is one entry per distinct category name ('Uncategorized' when the name is missing), holding that name's total. Entries are sorted non-increasing, and they add up to the total spent. |
| MoneyPage.Share | src/pages/Money.tsx:225 | `(value / total) * 100 \|\| 0` is the percentage for a non-zero total, 0 for 0/0 (NaN), and ±Infinity for a non-zero value over 0. |
| MoneyPage.SharesAdd | src/pages/Money.tsx:225 | The shares of the cards add up to the share of their sum. |
| MoneyPage.SharesSumTo100 | src/pages/Money.tsx:225 | With a non-zero total spend, every card's share is finite and the shares add up to 100. |
| MoneyPage.Matches | src/pages/Money.tsx:46-49 | A transaction matches exactly when its category name or its note contains the query, ignoring the case of the letters A–Z. |
| MoneyPage.FilteredTransactions | src/pages/Money.tsx:46-49 | The result keeps exactly the matching transactions, each once, in their original order. |
| MoneyPage.HasText | src/pages/Money.tsx:47-48 | Holds exactly when the transaction has a non-empty category name or note. |
| MoneyPage.EmptyQuery | src/pages/Money.tsx:46-49 | The empty query keeps exactly the transactions with a non-empty category name or note. |
| MoneyPage.QueryCaseInsensitive | src/pages/Money.tsx:46-49 | Lower-casing the query does not change the result. |
| MoneyPage.CsvLines | src/pages/Money.tsx:137 | The export has a header line `Date,Category,Note,Amount`, then one row per transaction, in order. |
| MoneyPage.HeaderSingleLine | src/pages/Money.tsx:137 | The header has no newline. |
| MoneyPage.RowSingleLine | src/pages/Money.tsx:137 | A row whose fields have no newline has no newline. |
| MoneyPage.CsvLineCount | src/pages/Money.tsx:137 | The export starts with the `data:text/csv` prefix. When no field contains a newline, the body has exactly one line break per transaction, so it has one line more than there are transactions. |
| MoneyPage.ExportLineCount | src/pages/Money.tsx:136-139 | The export holds one row per transaction that the search keeps. |
| ProjectsPage.StatusIs | src/pages/Projects.tsx:41-42 | Holds exactly for a project whose status is that exact text ('Active' or 'Completed'). |
| ProjectsPage.StatusLists | src/pages/Projects.tsx:41-42 | The lists hold exactly the projects with status 'Active' and 'Completed', and are disjoint. The lowercase 'active' lands in neither list. Together they hold at most all the projects. |
| ProjectsPage.Velocity | src/pages/Projects.tsx:45-47 | The velocity is 0 when no project is active. Otherwise it is the mean progress of the active projects: times their number, it gives the sum of their progress (missing progress counts as 0). |
| ProjectsPage.VelocityBetween | src/pages/Projects.tsx:45-47 | The velocity is bounded by any range that holds every active progress (missing progress counts as 0). |
| ProjectsPage.VelocityBounds | src/pages/Projects.tsx:45-47 | With every progress in [0, 100], the velocity lies in [0, 100]. |
| ProjectsPage.Shown | src/pages/Projects.tsx:49-53 | A project is shown exactly when its title contains the query, ignoring the case of the letters A–Z, and the filter is 'All' or equals its status. |
| ProjectsPage.TitleIncludes | src/pages/Projects.tsx:50 | Holds exactly when the title contains the query, ignoring the case of the letters A–Z. |
| ProjectsPage.FilteredProjects | src/pages/Projects.tsx:49-53 | The result keeps exactly the shown projects, each once, in their original order. |
| ProjectsPage.ShowAll | src/pages/Projects.tsx:49-53 | The empty query with the 'All' filter shows every project, in order. |
| ProjectsPage.ActiveOnly | src/pages/Projects.tsx:49-53 | The 'Active' filter shows the active projects whose title matches. |
| ProjectsPage.FilterAlternates | src/pages/Projects.tsx:93 | From 'All' or 'Active', the button switches to the other value, and two presses return to the start. |
| ProjectsPage.Toggled | src/pages/Projects.tsx:62-64 | 'Active' becomes 'Completed' with progress 100. Any other status becomes 'Active' with its progress kept. |
| ProjectsPage.ToggleTwice | src/pages/Projects.tsx:62-69 | Toggling an active project twice leaves it active at progress 100: the old progress is not restored. |
| ProjectsPage.ProjectStore.constructor | src/pages/Projects.tsx:23-34 | The store starts from the given documents. |
| ProjectsPage.ProjectStore.ToggleStatus | src/pages/Projects.tsx:62-69 | The update writes only status and progress, and only to that project. It keeps every completed project at progress 100. |
| OverviewPage.Rows | src/pages/Overview.tsx:34-36 | The mapping succeeds exactly when every date is a `Timestamp`, giving one row per document. |
| OverviewPage.Budget | src/pages/Overview.tsx:39-43 | `Number(totalBudget) \|\| 0` when the settings document exists; otherwise the budget stays as it was. |
| OverviewPage.Saved | src/pages/Overview.tsx:57 | `saved` is never negative, at least the unspent budget, and is either 0 or the unspent budget. |
| OverviewPage.PercentageSaved | src/pages/Overview.tsx:58 | The percentage lies in [0, 100], and is 0 for a budget that is not positive. |
| OverviewPage.PercentageSavedMeaning | src/pages/Overview.tsx:56-58 | Within the budget the percentage is the unspent share. It is 0 once overspent and 100 when nothing was spent. |
| OverviewPage.DaysAway | src/pages/Overview.tsx:65-66 | `diffDays` is 0 exactly when the row is dated now. |
| OverviewPage.DaysAwayBounds | src/pages/Overview.tsx:65-66 | A row d > 0 days away lies more than d - 1 and at most d whole days from now. |
| OverviewPage.FutureCountsLikePast | src/pages/Overview.tsx:65 | A future date counts as many days away as an equally distant past one. |
| OverviewPage.CellsAsWritten | src/pages/Overview.tsx:61-70 | As written, the grid has 28 cells, or 29 when a row is dated exactly now. |
| OverviewPage.RowAtNowOverflows | src/pages/Overview.tsx:67 | One row dated now makes the grid grow a 29th cell holding NaN. |
| OverviewPage.Cell | src/pages/Overview.tsx:67 | The corrected cell: a row 1 to 28 days back lands in `28 - d` as written, a row dated now in the last cell, and an older row in none. |
| OverviewPage.DailyTotals | src/pages/Overview.tsx:61-70 | The corrected grid always has 28 cells. |
| OverviewPage.InCell | src/pages/Overview.tsx:67 | Holds exactly for the rows that land in cell k. |
| OverviewPage.DailyActivity | src/pages/Overview.tsx:61-70 | Filling the 28-cell array in place gives the corrected grid. Each cell holds the sum of exactly the rows that land in it. |
| OverviewPage.DailyCells | src/pages/Overview.tsx:61-70 | Each cell of the grid holds the sum of the rows that land in it. |
| OverviewPage.Recent | src/pages/Overview.tsx:67 | Holds exactly for the rows at most 28 days away. |
| OverviewPage.DailyTotalsSum | src/pages/Overview.tsx:61-70 | The grid adds up to the amounts of the rows at most 28 days away. |
| OverviewPage.AsWrittenAgrees | src/pages/Overview.tsx:61-70 | When no row is dated exactly now, the grid as written equals the corrected grid. |
| OverviewPage.TopCategories | src/pages/Overview.tsx:73-80 | The result has at most four entries, sorted non-increasing, with distinct names ('General' when the name is missing), each holding its name's total. When fewer than four names exist, all are present. A name left out totals no more than any kept entry. |
| OverviewPage.MaxCatVal | src/pages/Overview.tsx:82 | `maxCatVal` is at least 1 and at least every value, so the bar height never divides by zero. |
| OverviewPage.BarHeight | src/pages/Overview.tsx:215-219 | A bar whose rank exists is between 15 and 100 high; a missing rank gives 10. |
| OverviewPage.LargestBarFull | src/pages/Overview.tsx:215-219 | The middle bar shows the largest category at full height once that total reaches 1. |
| OverviewPage.NotCompleted | src/pages/Overview.tsx:85 | Holds exactly when the status is not 'Completed'. |
| OverviewPage.OpenProjects | src/pages/Overview.tsx:85 | Every project is either completed or counted as open, and the open count is at least the number of 'Active' projects. |
| Grouping.AddRow | src/pages/Money.tsx:39-41 | One turn of the `forEach` loop keeps the dictionary accumulated over the rows seen so far plus this one: every total is the sum of its name's rows, every row's name is a key, and the key order lists each key once. |
| Grouping.GroupTotals | src/pages/Money.tsx:38-43 | The dictionary loop followed by `Object.entries` gives exactly one entry per distinct name, holding the sum of that name's values. |
| Grouping.GroupingSum | src/pages/Money.tsx:37-44 | The totals of a grouping add up to the sum over all the rows. |
| Grouping.SortedGrouping | src/pages/Money.tsx:43 | Sorting the entries keeps them a grouping. |
| Grouping.Top | src/pages/Overview.tsx:79 | `.slice(0, k)` of the sorted entries keeps at most k entries, the largest ones, in order. |
| Grouping.TopOfGrouping | src/pages/Overview.tsx:79 | A prefix of a sorted grouping has distinct names and each entry holds its name's total. A name left out totals no more than any kept entry. |
| Sequences.SortDesc | src/pages/Money.tsx:43 | `sort((a, b) => b - a)` gives a permutation with keys non-increasing. |
| Sequences.Filter | src/pages/Money.tsx:46-49 | `filter` keeps only elements of the input that satisfy the predicate, and never more elements than the input has. Order and multiplicity are stated by `Sequences.FilterInOrder`. |
| Sequences.FilterInOrder | src/pages/Money.tsx:46-49 | `filter` strikes out exactly the failing elements: the result lists the input at strictly increasing positions, and those positions are exactly the ones whose element satisfies the predicate. |
| Sequences.FilterCount | src/hooks/useDatabase.ts:184-185 | The length of a filtered list is the number of positions whose element satisfies the predicate. |
| Sequences.FilterKeeps | src/pages/Money.tsx:46-49 | Every element of the input that satisfies the predicate is kept. |
| Text.LowerIdempotent | src/pages/Money.tsx:47-48 | Lower-casing twice is the same as lower-casing once. |
| Text.ParseIntToString | src/components/money/BudgetAllocation.tsx:89 | Reading back a printed integer gives the integer. |
| Numeric.Round | src/hooks/useDatabase.ts:44 | `Math.round` is the integer within one half, with halves rounded up. |
| Calendar.MakeDate | src/lib/db.ts:162-166 | `new Date(y, m, d)` always gives a valid date. |
| Calendar.MakeDateNumber | src/lib/db.ts:162-166 | Day d of month m lies d - 1 days after the first of that month, with the month carried across years. |
| Calendar.NormalizeDayNumber | src/lib/db.ts:162-166 | Normalising an out-of-range day agrees with day arithmetic. Day 0 is the last day of the previous month. |

## Left out

- Persistence and reactivity are not modelled: Dexie `useLiveQuery`, Firestore `onSnapshot`, `addDoc`, `setDoc`, `updateDoc` and `writeBatch`, and `onAuthStateChanged`. The stores are in-memory maps, each `await` is one sequential step, and a signed-in user is a boolean parameter.
- The listing queries (`orderBy('date').reverse()`, `orderBy('createdAt').reverse()`, and the per-project task list sorted by `order`) are plain index reads and are not modelled.
- UseDatabase.MonthExpenses: keeps the window's expenses in key order. `where('date').between(...).toArray()` lists them in date order, so the order of `expenses` and of `getExpensesByCategory` is not the source's. Only membership is stated.
- A failing `updateDoc` (an unknown project id in `toggleStatus`) is modelled as no change. The rejected promise is not modelled.
- `window.confirm` is a boolean parameter. CSV download plumbing (`encodeURI`, the anchor click) and PDF generation are not modelled.
- Clocks are not modelled as such: `new Date()` is a parameter. Instants are milliseconds of local time over uniform 24-hour days, with no time zones and no daylight-saving shifts.
- Locale formatting is left out:
  - `toLocaleDateString` and the CSV's number printing are function parameters;
  - `formatCurrency` is modelled for whole amounts, so the `en-IN` rendering of fractions is left out;
  - string dates are parsed by a function parameter.
- Documents.ToNumber: parses decimal text only (digits, one point, a leading minus). JavaScript forms such as exponents, hexadecimal, surrounding white space and `Infinity` are not modelled.
- A date that parses to "Invalid Date" is not modelled.
- Number semantics are simplified:
  - Amounts and percentages are exact reals, so floating-point rounding is not modelled.
  - NaN and the infinities appear only where they visibly arise: a zero percentage total in the rebalance, the 29th grid cell, and a share over a zero total.
  - A NaN budget read by the pages is not modelled.
- Document fields are assumed to hold the expected types:
  - Title, name, note and status fields are assumed to hold text.
  - A non-numeric `progress` is read as 0. In the source the velocity would then concatenate strings.
- OverviewPage.Rows: reads an amount as `Number(x) || 0`. In the daily grid (src/pages/Overview.tsx:67) the source adds `t.amount` as stored, so a text amount would concatenate and a missing one would give NaN.
- OverviewPage.TopCategories: works on amounts read as `Number(x) || 0`. The source (src/pages/Overview.tsx:77) adds `Number(t.amount)` with no `|| 0`. A missing or non-numeric amount therefore makes that name's total NaN, and `(cats[name] || 0)` restarts it from 0 at the name's next row. While a total is NaN, the comparator `b - a` gives NaN, which the sort treats as 0, so the order is not the one stated. `maxCatVal` (`OverviewPage.MaxCatVal`) is then NaN, and so is every bar height (`OverviewPage.BarHeight`). The model's sorting, its `maxCatVal >= 1` and its 15–100 bar heights hold only when every amount is numeric.
- `Object.entries` lists integer-like keys first. The grouping models entries in insertion order, so category names that are array indices are ordered differently in the source.
- Category names that the dictionary `{}` inherits from `Object.prototype` are not modelled. With `__proto__`, `constructor`, `toString`, `valueOf`, `hasOwnProperty` and the like, `(cats[name] || 0)` starts from an inherited member, so the source's total for that name becomes a string or is lost. The model starts every name from 0.
- The dot grid colours at src/pages/Overview.tsx:156-160 are left out as rendering.
- UseDatabase.ProductivityScore: states bounds and the extreme cases, not the rounded ratio itself.
- Text.Lower: folds only the ASCII letters A–Z. `toLowerCase` folds every cased letter, so a search for "éclair" finds a title "Éclair" in the source but not in the model.
- Documents.ToNumber: reads a `Timestamp` as NaN. The cloud SDK's `Timestamp.valueOf` returns a digit string, so `Number(timestamp)` is a finite number there. The SDK is not part of this model.
- Sequences.SortDesc: states a permutation with non-increasing keys, not the order among equal keys. JavaScript's `sort` is stable, so with tied totals the source's order, and the four categories `slice(0, 4)` keeps, follow insertion order.

## Findings

| source | as written | input that shows it | evidently intended | confidence | as-written member | corrected member |
|---|---|---|---|---|---|---|
| src/lib/db.ts:161-166 | When today's day is before `monthStartDay`, the window starts at `new Date(y, m - 1, msd)`, which normalisation carries into this month when last month is shorter. | Today March 1, 2023, with `monthStartDay` 31: the window starts March 3, after today. | A window that contains today, with the start day clamped into short months. | not executed | Db.LateStartDayMissesToday | Db.ClampedRangeContainsToday |
| src/hooks/useDatabase.ts:59-62, src/lib/db.ts:163-166 | The expense query runs `between(start, end, true, true)` on dates at local midnight, so the window ends at 00:00 of its last day. | An expense at noon on the last day of the window. | Every instant of the window's last day included. | not executed | Db.PeriodInstantsDropLastDay | Db.PeriodInstantsWholeDays |
| src/pages/Money.tsx:34, src/pages/Money.tsx:176 | The dot turns red when `remaining < 0`, but `remaining` is clamped with `Math.max(0, …)`. | A budget of 100 with 150 spent: the dot stays green. | Red when the spending exceeds the budget. | not executed | MoneyPage.DotNeverRed | MoneyPage.DotRedIffOverBudget |
| src/pages/Overview.tsx:61-70 | A transaction dated exactly now has `diffDays` 0 and is added to `days[28]`, past the 28 cells. | One transaction whose date equals the page's `now`: the grid gets a 29th cell, `undefined + amount`, which is NaN. | Today's spending counted in the last cell. | not executed | OverviewPage.RowAtNowOverflows | OverviewPage.DailyActivity |
