# Budget navigator: the client-side figures, in Dafny

A model of the arithmetic and list processing inside the React components of
a personal-finance app. The components fetch transaction, budget and goal
rows from a database and then compute, in the browser:

- the dashboard's totals, savings rate, 30-day spending breakdown and recent activity;
- each budget's spending this month, its percentage, status badge, warning and pie entry;
- each savings goal's progress, days left, status badge, completion flag and "Add Progress" update;
- the analytics charts: spending by category, income and expenses per month (last six months) and spending per week (last eight weeks), with the home-grown `YYYY-Www` week key;
- the export page: the date-range filter, the CSV document (descriptions quoted as in RFC 4180, section 2) and the PDF report's summary and rows;
- the transaction list's search and filters, its category choices, count badge and empty-state message;
- the budget form's weekly (Sunday to Saturday) or monthly period and the outcome of submitting it.

Amounts are whole cents (`int`), percentages `real`, dates civil
`(year, month, day)` values with ECMAScript's day-number, week-day and
month/day overflow rules (`Calendar`). A JavaScript `Date` that the source
mutates is the class `JsDates.JsDate`; its setters roll out-of-range days and
months over as JavaScript does. The current time is a parameter `now`. The
database, authentication and the browser's dialogs become parameters that
give their answers (`AuthResult`, `InsertResult`, the prompt's text).

Modules: `Calendar`, `JsDates`, `Text`, `Seqs`, `Sorting`, `Grouping`,
`Records` and `Csv` are the shared vocabulary; `Dashboard`, `BudgetManager`,
`GoalsManager`, `FinancialCharts`, `ExportData`, `TransactionList` and
`BudgetForm` follow the components of the same names.

Two behaviours of the source are kept as they are:

- the budget and goal percentages divide without a guard, so a positive budget amount and a positive goal target are preconditions;
- the monthly trend counts every row whose type is not "income" as an expense, while the dashboard counts only "income" and "expense" (`FinancialCharts.MonthlyBucketsSpec` states the difference).

## Model

| member | source | states |
|---|---|---|
| Records.CalculateTotals | savvy-budget-navigator-main/src/components/dashboard/Dashboard.tsx:74-86 | the balance is income minus expenses |
| Records.TotalsEmpty | savvy-budget-navigator-main/src/components/dashboard/Dashboard.tsx:74-86 | no transactions give income, expenses and balance of 0 |
| Records.TotalsSnoc | savvy-budget-navigator-main/src/components/dashboard/Dashboard.tsx:75-81 | a further transaction adds its amount to income only when its type is exactly "income", to expenses only when it is exactly "expense", and changes nothing for any other type |
| Records.TypeTotalSnoc | savvy-budget-navigator-main/src/components/dashboard/Dashboard.tsx:75-81 | a type's total grows by a further row's amount exactly when the row has that type |
| Dashboard.Round | savvy-budget-navigator-main/src/components/dashboard/Dashboard.tsx:202 | `Math.round` gives the integer within one half of its argument, halves upward |
| Dashboard.SavingsRate | savvy-budget-navigator-main/src/components/dashboard/Dashboard.tsx:202 | the savings rate is 0 without positive income (no division), else within one half of balance * 100 / income |
| Dashboard.SavingsRateBounds | savvy-budget-navigator-main/src/components/dashboard/Dashboard.tsx:202 | with income and 0 <= expenses <= income, the rate lies in 0..100 |
| Dashboard.ThirtyDaysBefore | savvy-budget-navigator-main/src/components/dashboard/Dashboard.tsx:95-96 | the cutoff is a valid instant exactly 30 days of milliseconds before `now`, same time of day |
| Dashboard.ThirtyDaysAgo | savvy-budget-navigator-main/src/components/dashboard/Dashboard.tsx:95-96 | `setDate(getDate() - 30)` on a `Date` yields that cutoff, across month and year ends |
| Dashboard.RecentExpenseDays | savvy-budget-navigator-main/src/components/dashboard/Dashboard.tsx:99 | an expense dated within the last 30 days is in; one dated 30 days back is in exactly when `now` is midnight; nothing older |
| Dashboard.GetExpenseData | savvy-budget-navigator-main/src/components/dashboard/Dashboard.tsx:91-113 | the pie has each recent expense category once, valued at its recent expense sum, the values summing to the recent expense total, ordered by value non-increasing |
| Dashboard.RecentActivity | savvy-budget-navigator-main/src/components/dashboard/Dashboard.tsx:218 | the first min(5, n) transactions, in list order |
| Grouping.Group | savvy-budget-navigator-main/src/components/dashboard/Dashboard.tsx:98-107 | the `Map` accumulation gives the grouped slices: keys in first-occurrence order, each with its key's sum |
| Grouping.GroupedSpec | savvy-budget-navigator-main/src/components/dashboard/Dashboard.tsx:98-107 | the slices name each key once and carry each key's sum (`Summarizes`) |
| Grouping.GroupedSum | savvy-budget-navigator-main/src/components/dashboard/Dashboard.tsx:98-107 | the slice values add up to the total amount: nothing dropped or counted twice |
| Grouping.ReorderedSummary | savvy-budget-navigator-main/src/components/dashboard/Dashboard.tsx:110-112 | a permutation of a summary is still a summary: sorting keeps the breakdown |
| Grouping.ByValueDescending | savvy-budget-navigator-main/src/components/dashboard/Dashboard.tsx:112 | `b.value - a.value` orders by value non-increasing, a total preorder |
| Seqs.GroupSum | savvy-budget-navigator-main/src/components/dashboard/Dashboard.tsx:98-107 | the keyed accumulation loop ends with the keys in first-occurrence order and each key's running total equal to its sum |
| Sorting.Sort | savvy-budget-navigator-main/src/components/dashboard/Dashboard.tsx:110-112 | the sorted copy is ordered by the comparison and a permutation of the input |
| Sorting.InsertionSort | savvy-budget-navigator-main/src/components/analytics/FinancialCharts.tsx:139 | sorting an array in place orders it and keeps its multiset of elements |
| Sorting.InsertNext | savvy-budget-navigator-main/src/components/analytics/FinancialCharts.tsx:139 | one pass of the in-place sort: with the first i elements ordered, moving the next one left leaves the first i + 1 ordered and the multiset of elements the same |
| BudgetManager.SpentSnoc | savvy-budget-navigator-main/src/components/budget/BudgetManager.tsx:75-85 | a further row raises `spent` by its amount exactly when it counts against the budget |
| BudgetManager.SpentEmpty | savvy-budget-navigator-main/src/components/budget/BudgetManager.tsx:75-85 | nothing is spent without transactions |
| BudgetManager.Percentage | savvy-budget-navigator-main/src/components/budget/BudgetManager.tsx:87-88 | the percentage never exceeds 100, equals 100 exactly when spent >= amount, and below that is spent * 100 / amount |
| BudgetManager.BudgetStatusBySpending | savvy-budget-navigator-main/src/components/budget/BudgetManager.tsx:87-96 | "Over Budget" exactly when spent >= amount; "Alert" from 80% to below 100%; "Warning" from 60% to below 80%; else "On Track" |
| BudgetManager.PercentageThreshold | savvy-budget-navigator-main/src/components/budget/BudgetManager.tsx:91-94 | below the cap, the percentage reaches k exactly when 100 * spent >= k * amount |
| BudgetManager.BudgetWarning | savvy-budget-navigator-main/src/components/budget/BudgetManager.tsx:272-279 | the warning shows exactly when the percentage is >= 80; it reports an overrun exactly when spent >= amount, of spent - amount >= 0 |
| BudgetManager.Card | savvy-budget-navigator-main/src/components/budget/BudgetManager.tsx:240-268 | a card's spent is `spent` and spent + remaining is the amount; the percentage is `Percentage` and the status its ladder, each status exactly at its spending thresholds (over at >= 100%, alert from 80%, warning from 60%, on track below); the warning is `BudgetWarning`, shown exactly for "Over Budget" or "Alert", with the overrun -remaining |
| BudgetManager.PieEntryOf | savvy-budget-navigator-main/src/components/budget/BudgetManager.tsx:117-125 | an entry names the category, is valued at the amount, and has remaining = max(0, amount - spent) >= 0 |
| BudgetManager.PieData | savvy-budget-navigator-main/src/components/budget/BudgetManager.tsx:117-125 | one entry per budget in budget order, with the budget's category, amount and spending, and remaining = max(0, amount - spent) |
| GoalsManager.Progress | savvy-budget-navigator-main/src/components/goals/GoalsManager.tsx:114 | progress * target = current * 100 (the target must be positive) |
| GoalsManager.DaysLeftIsDayDifference | savvy-budget-navigator-main/src/components/goals/GoalsManager.tsx:115-116 | rounding up cancels the time of day: days left is the calendar-day difference to the target date |
| GoalsManager.GoalStatusSpec | savvy-budget-navigator-main/src/components/goals/GoalsManager.tsx:113-123 | "Completed" exactly for completed goals; "Overdue" exactly for others with a past target date; then 3/4 and 1/2 of the target decide the rest |
| GoalsManager.ProgressThreshold | savvy-budget-navigator-main/src/components/goals/GoalsManager.tsx:120-121 | progress reaches 100 * num / den percent exactly when den * current >= num * target |
| GoalsManager.NoTargetDateNeverOverdue | savvy-budget-navigator-main/src/components/goals/GoalsManager.tsx:115-119 | a goal without a target date is never "Overdue" |
| GoalsManager.Find | savvy-budget-navigator-main/src/components/goals/GoalsManager.tsx:58 | `find` returns the first goal with the id, and nothing exactly when none has it |
| GoalsManager.ProgressPatch | savvy-budget-navigator-main/src/components/goals/GoalsManager.tsx:56-58 | the update writes the new amount, completed exactly when the first goal with the id has a target at most that amount |
| GoalsManager.AddProgress | savvy-budget-navigator-main/src/components/goals/GoalsManager.tsx:243-246 | an update happens exactly for a non-empty numeric answer, and sets current + entered |
| GoalsManager.AddProgressCompletes | savvy-budget-navigator-main/src/components/goals/GoalsManager.tsx:56-58 | after added progress, a goal is completed exactly when its new amount reaches its target |
| GoalsManager.DaysLabel | savvy-budget-navigator-main/src/components/goals/GoalsManager.tsx:208-209 | for a positive count the label is canonical digits (no leading zero) reading back as the count, then " days left"; otherwise canonical digits reading back as its magnitude, then " days overdue" |
| GoalsManager.Card | savvy-budget-navigator-main/src/components/goals/GoalsManager.tsx:178-237 | the bar is min(progress, 100) while the status uses the uncapped figure; remaining + current = target; with a target date the days label is `DaysLabel` of the calendar-day difference to it, else none; controls exactly for goals not completed |
| FinancialCharts.ExpensesByCategory | savvy-budget-navigator-main/src/components/analytics/FinancialCharts.tsx:42-53 | each expense category once, in first-met order, valued at its expense sum; the values add up to the expense total |
| FinancialCharts.SortLegend | savvy-budget-navigator-main/src/components/analytics/FinancialCharts.tsx:139 | the in-place sort orders the pie largest first, permutes it and keeps its summary |
| FinancialCharts.ByKey | savvy-budget-navigator-main/src/components/analytics/FinancialCharts.tsx:74 | `localeCompare` on a key orders by the key's text, a total preorder |
| FinancialCharts.LastByKey | savvy-budget-navigator-main/src/components/analytics/FinancialCharts.tsx:73-75 | `.sort().slice(-n)` keeps min(n, len) entries of the input (all of them for n = 0, as `slice(-0)` does), strictly ascending by key, every dropped key below every kept one |
| FinancialCharts.DroppedBelowKept | savvy-budget-navigator-main/src/components/analytics/FinancialCharts.tsx:75 | slicing off the front of an ascending list drops only keys below those kept |
| FinancialCharts.MonthKeyShape | savvy-budget-navigator-main/src/components/analytics/FinancialCharts.tsx:58 | for a four-digit year the month key is 7 characters: the year's 4 digits, '-', and the month's 2 digits |
| FinancialCharts.MonthKeyOrder | savvy-budget-navigator-main/src/components/analytics/FinancialCharts.tsx:58 | month keys sort as (year, month) pairs; equal keys exactly for the same month of the same year |
| FinancialCharts.MonthlyData | savvy-budget-navigator-main/src/components/analytics/FinancialCharts.tsx:56-71 | the reduce produces the month buckets: one per month key of the rows, in first-met order |
| FinancialCharts.ReduceBuckets | savvy-budget-navigator-main/src/components/analytics/FinancialCharts.tsx:56-71 | the reduce loop, for any key function, yields one bucket per key in insertion order with that key's income and non-income sums |
| FinancialCharts.MonthlyStep | savvy-budget-navigator-main/src/components/analytics/FinancialCharts.tsx:60-68 | one row creates its bucket at zero on first sight and adds its amount to income for "income", else to expenses |
| FinancialCharts.ListBuckets | savvy-budget-navigator-main/src/components/analytics/FinancialCharts.tsx:73 | `Object.values` lists the buckets in key insertion order |
| FinancialCharts.NewBucket | savvy-budget-navigator-main/src/components/analytics/FinancialCharts.tsx:60-61 | a key no row carries has an empty bucket |
| FinancialCharts.BucketsFor | savvy-budget-navigator-main/src/components/analytics/FinancialCharts.tsx:73 | one bucket per listed key, in the listed order |
| FinancialCharts.IncomeShareSum | savvy-budget-navigator-main/src/components/analytics/FinancialCharts.tsx:64-65 | the income shares add up to the "income" total |
| FinancialCharts.ExpenseShareSum | savvy-budget-navigator-main/src/components/analytics/FinancialCharts.tsx:66-67 | the expense shares add up to the "expense" total plus every row of any other non-income type |
| FinancialCharts.MonthlyBucketsSpec | savvy-budget-navigator-main/src/components/analytics/FinancialCharts.tsx:56-71 | buckets are exactly the distinct month keys, each with its month's sums; incomes total the dashboard income, expenses total the dashboard expenses plus other-type rows |
| FinancialCharts.TrendData | savvy-budget-navigator-main/src/components/analytics/FinancialCharts.tsx:73-80 | min(6, months) points, strictly ascending by month, each a month of the rows with its sums and balance = income - expenses, every month left out sorting before every month shown |
| FinancialCharts.FirstDayOfOwnYear | savvy-budget-navigator-main/src/components/analytics/FinancialCharts.tsx:254 | outside years 0..99, `new Date(year, 0, 1)` is January 1 of the date's year |
| FinancialCharts.WeekNumberCountsWeeks | savvy-budget-navigator-main/src/components/analytics/FinancialCharts.tsx:255-256 | the week number counts Sunday-to-Saturday weeks from the week of January 1 |
| FinancialCharts.JanuaryFirstIsWeekOne | savvy-budget-navigator-main/src/components/analytics/FinancialCharts.tsx:256 | January 1 is always week 1 |
| FinancialCharts.WeekNumberRange | savvy-budget-navigator-main/src/components/analytics/FinancialCharts.tsx:256 | week numbers lie in 1..54 |
| FinancialCharts.SameWeekNumber | savvy-budget-navigator-main/src/components/analytics/FinancialCharts.tsx:256 | two days of one year share a week number exactly when they share a Sunday-to-Saturday week |
| FinancialCharts.WeekFiftyFour | savvy-budget-navigator-main/src/components/analytics/FinancialCharts.tsx:252-257 | 2000-12-31 is in week 54, so the scheme is not ISO 8601 weeks |
| FinancialCharts.WeekKeyOrder | savvy-budget-navigator-main/src/components/analytics/FinancialCharts.tsx:257 | week keys sort as (year, week number) pairs; equal keys exactly for equal pairs |
| FinancialCharts.WeekLabelOfKey | savvy-budget-navigator-main/src/components/analytics/FinancialCharts.tsx:96 | the bar label is the key with its `-W` turned into ` W` |
| FinancialCharts.LastGroups | savvy-budget-navigator-main/src/components/analytics/FinancialCharts.tsx:83-94 | the last n per-key totals by ascending key: min(n, keys) groups (all for n = 0), strictly ascending names, each a key of the rows with its key's sum, every key left out sorting before every key kept |
| FinancialCharts.BarData | savvy-budget-navigator-main/src/components/analytics/FinancialCharts.tsx:83-98 | min(8, weeks) bars, strictly ascending by week key, each a week of the expenses with its expense sum and label, every week left out sorting before every week shown |
| ExportData.RangeStart | savvy-budget-navigator-main/src/components/analytics/ExportData.tsx:27-40 | the start is a valid instant at now's time of day |
| ExportData.StartDate | savvy-budget-navigator-main/src/components/analytics/ExportData.tsx:27-40 | the switch of `setMonth` / `setFullYear` on a fresh `Date` yields that start |
| ExportData.RangeStartSpan | savvy-budget-navigator-main/src/components/analytics/ExportData.tsx:30-40 | the start lies exactly the month's, quarter's or year's day count before today: 28-31, 89-92, or 365-366 days |
| ExportData.MonthBack | savvy-budget-navigator-main/src/components/analytics/ExportData.tsx:32 | `setMonth(getMonth() - 1)` goes back by the previous month's length |
| ExportData.QuarterBack | savvy-budget-navigator-main/src/components/analytics/ExportData.tsx:35 | `setMonth(getMonth() - 3)` goes back by the three previous months' lengths |
| ExportData.QuarterLength | savvy-budget-navigator-main/src/components/analytics/ExportData.tsx:35 | three consecutive months hold 89 to 92 days |
| ExportData.YearBack | savvy-budget-navigator-main/src/components/analytics/ExportData.tsx:38 | `setFullYear(getFullYear() - 1)` goes back 365 days, or 366 across a 29 February |
| ExportData.FilterTransactions | savvy-budget-navigator-main/src/components/analytics/ExportData.tsx:24-43 | the component's filter yields the modelled filtered list |
| ExportData.FilterByDateRangeSpec | savvy-budget-navigator-main/src/components/analytics/ExportData.tsx:24-43 | the result is a subsequence of the input, containing exactly the rows that are all-time or dated at or after the start |
| ExportData.AmountRoundTrip | savvy-budget-navigator-main/src/components/analytics/ExportData.tsx:56 | the amount as written reads back as exactly that amount |
| ExportData.NumbersArePlainSafe | savvy-budget-navigator-main/src/components/analytics/ExportData.tsx:52-56 | dates and amounts written unquoted hold no comma, quote or line feed |
| ExportData.CsvRoundTrip | savvy-budget-navigator-main/src/components/analytics/ExportData.tsx:45-58 | reading the CSV back gives the header and, for each filtered row in order, its date, type, category, description (whatever it holds) and amount: 1 + n records |
| ExportData.CsvRecordAt | savvy-budget-navigator-main/src/components/analytics/ExportData.tsx:51-57 | record i + 1 of the CSV reads back as filtered row i's fields |
| ExportData.PeriodLabel | savvy-budget-navigator-main/src/components/analytics/ExportData.tsx:81 | the period line capitalises the range name |
| ExportData.PdfReport | savvy-budget-navigator-main/src/components/analytics/ExportData.tsx:78-104 | the period line is `PeriodLabel`; income and expenses are the "income" and "expense" totals of the date-filtered rows and the net is their difference; table row i is the report row of filtered row i |
| ExportData.PdfSummaryAllTime | savvy-budget-navigator-main/src/components/analytics/ExportData.tsx:85-95 | over all time the PDF summary equals the dashboard totals of the whole list |
| ExportData.RowMatchesFields | savvy-budget-navigator-main/src/components/analytics/ExportData.tsx:98-104 | a table row carries the same fields as the CSV record, the type capitalised |
| ExportData.ReportAgreesWithCsv | savvy-budget-navigator-main/src/components/analytics/ExportData.tsx:98-104 | table row i and CSV record i + 1 hold the same transaction's fields |
| ExportData.ExportToast | savvy-budget-navigator-main/src/components/analytics/ExportData.tsx:127-136 | the toast is destructive exactly when the export threw; success names the format, failure says "There was an error exporting your data" |
| Csv.ReadEncodedDocument | savvy-budget-navigator-main/src/components/analytics/ExportData.tsx:49-58 | records of readable fields joined by line feeds read back as exactly those records |
| Csv.ReadEscaped | savvy-budget-navigator-main/src/components/analytics/ExportData.tsx:55 | a quoted field with each quote doubled reads back as the original text |
| TransactionList.FilteredSpec | savvy-budget-navigator-main/src/components/dashboard/TransactionList.tsx:55-62 | the shown rows are a subsequence of the list, and a row is shown exactly when it passes all three conditions |
| TransactionList.UnfilteredKeepsAll | savvy-budget-navigator-main/src/components/dashboard/TransactionList.tsx:55-62 | an empty search with both filters on "all" keeps every row |
| TransactionList.SearchIgnoresCase | savvy-budget-navigator-main/src/components/dashboard/TransactionList.tsx:56-57 | the search gives the same answer for a term and its lower-cased form |
| TransactionList.CategoryFilterIsCaseSensitive | savvy-budget-navigator-main/src/components/dashboard/TransactionList.tsx:56-59 | a "Food" row is found by searching "FOOD" but not kept by the category filter "food" |
| TransactionList.CategoriesSpec | savvy-budget-navigator-main/src/components/dashboard/TransactionList.tsx:64 | the categories are distinct, are exactly the list's categories, and come in first-occurrence order |
| TransactionList.CountBadge | savvy-budget-navigator-main/src/components/dashboard/TransactionList.tsx:86 | the badge's number is canonical digits (no leading zero) reading back as the count of shown rows, followed by " transactions" |
| Text.CanonicalDigitsUnique | savvy-budget-navigator-main/src/components/dashboard/TransactionList.tsx:86 | two digit strings without a leading zero and with the same value are the same text, so the labels' numbers are fixed exactly |
| TransactionList.EmptyState | savvy-budget-navigator-main/src/components/dashboard/TransactionList.tsx:129-131 | no message while a row is shown; "No transactions yet" exactly for an empty list; "No transactions match your filters" exactly when rows exist but none is shown |
| BudgetForm.WeeklyRange | savvy-budget-navigator-main/src/components/budget/BudgetForm.tsx:58-65 | start is a Sunday and end a Saturday, start <= today <= end, 7 days inclusive, at today's time of day |
| BudgetForm.WeekAround | savvy-budget-navigator-main/src/components/budget/BudgetForm.tsx:60-62 | moving back by the weekday lands on a Sunday at most 6 days before; 6 days on is the Saturday after the day |
| BudgetForm.ShiftDays | savvy-budget-navigator-main/src/components/budget/BudgetForm.tsx:60-62 | `setDate(getDate() + k)` moves the date by k days across month and year ends |
| BudgetForm.MonthlyRange | savvy-budget-navigator-main/src/components/budget/BudgetForm.tsx:67-69 | start is day 1 and end the last day (28-31) of the constructor's year and this month; outside years 0..99 they enclose today |
| BudgetForm.FirstOfMonth | savvy-budget-navigator-main/src/components/budget/BudgetForm.tsx:68 | `new Date(y, m - 1, 1)` is the first of month m |
| BudgetForm.DayZeroOfNextMonth | savvy-budget-navigator-main/src/components/budget/BudgetForm.tsx:69 | `new Date(y, m, 0)` is the last day of month m |
| BudgetForm.PeriodRange | savvy-budget-navigator-main/src/components/budget/BudgetForm.tsx:58-70 | the dates are the weekly or monthly range of the period |
| BudgetForm.PeriodRangeUnique | savvy-budget-navigator-main/src/components/budget/BudgetForm.tsx:58-70 | a period's range is determined by today: no two different ranges meet its description |
| BudgetForm.AfterInsert | savvy-budget-navigator-main/src/components/budget/BudgetForm.tsx:83-104 | success toasts, then `onBudgetCreated`, then `onClose`; code 23505 names period and category; other errors give "Failed to create budget"; a throw the unexpected-error toast; callbacks exactly on success |
| BudgetForm.HandleSubmit | savvy-budget-navigator-main/src/components/budget/BudgetForm.tsx:37-114 | loading is set first and cleared last; no user means an error toast and no insert; a signed-in user's row carries the category, period, amount and `YYYY-MM-DD` range dates, and the insert's answer decides the rest |

## Left out

- Database reads, inserts, updates and deletes, authentication, toasts as rendered, and React state and effects: I/O and framework plumbing. Their answers are parameters, and `deleteTransaction` and the `fetch*` functions are not modelled.
- Rendering, chart geometry and the pie label placement (floating-point trigonometry), jsPDF layout, and the Blob and link download mechanics.
- `toLocaleString`, `toLocaleDateString`, `toFixed` and the trend's "Mar 24" month labels: locale formatting. The trend points keep the month key.
- The export file names and the "Generated on" line: they only print the current date.
- IEEE floating-point sums and `parseFloat`: amounts are exact whole cents, and the amount the budget form inserts is a parameter applied to the typed text.
- Time zones: every date is a calendar date in one zone, and `new Date("YYYY-MM-DD")` is that date's midnight. The budget form stores its range dates with `toISOString().split('T')[0]`, which is the UTC date; the model writes the local date's `IsoDate`, which agrees only in UTC. East of UTC (Kenya is UTC+3) a local midnight such as `new Date(y, m, 1)` is stored as the previous day.
- Transaction dates are parsed into a `Date` when loaded, and the CSV and the PDF table write `IsoDate` of that date where the source writes the stored `date` text. The two agree when the stored text is canonical `YYYY-MM-DD`, as a `date` column gives for years 1..9999.
- `toLowerCase` is modelled on ASCII letters only, and `localeCompare` as code-unit order.
- The GoalForm component, which only forwards form fields to an insert.
- Sorting.Sort: does not state that rows with equal values keep their order (JavaScript's sort is stable), only that the result is sorted and a permutation.
- Dashboard.GetExpenseData: the order among categories with equal totals is left open, as a consequence of the line above.
- Sorting.InsertionSort: does not state stability either; the loop stops at a neighbour that may stay before the moved element, so equal elements are not swapped, but no contract says so.
- FinancialCharts.SortLegend: for the same reason, legend entries with equal values are not promised to keep the pie's order.
- FinancialCharts.ExpensesByCategory: the plain object `acc` is modelled as an insertion-ordered map. In JavaScript, names that are array indices ("2", "10") are listed first in numeric order; a name inherited from `Object.prototype` such as "constructor" starts its sum from a function and turns it into text; and "__proto__" is dropped. The first-met order and the sums hold only for other category names.
- ExportData.CsvRoundTrip: holds only when every type and category has no comma, double quote or line feed, because the source writes those fields unquoted. This is an assumption about the data: the transaction form that creates transactions is not part of this model.
- FinancialCharts.MonthKeyShape: stated for four-digit years only; other years print with fewer or more digits and the keys no longer sort by date.
- FinancialCharts.WeekKeyOrder: stated for four-digit years only, for the same reason.
- FinancialCharts.WeekNumberRange: excludes the years 0..99, where `new Date(year, 0, 1)` builds a date in 1900..1999 and the week number is meaningless.
- BudgetForm.MonthlyRange: today lies in the range only outside the years 0..99, for the same constructor rule.
- GoalsManager.AddProgress: JavaScript's `Number` on the prompt's text is a parameter (None for NaN), not a model of number parsing.
