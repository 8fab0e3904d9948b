# Iverson Budget: the budget rules engine in Dafny

This project models the rules engine of a personal budget-tracking web application. Users record
income, expenses and savings against named funds. The application then shows monthly totals, a
savings rate, a budget "health" level, breakdowns by category, source and fund, banner messages, a
countdown to retirement, and a CSV export. The model covers the code that computes these values:
the aggregation, calculation and fund helpers of `js/services/budget.js`, and the category table,
month counting, relative-date banding and CSV text of `js/utils.js`.

Modules, one per part of the source:

- `Entries` (`entries.dfy`): the entry record and the totals fold shared by `getTotalIncome`,
  `getTotalExpenses` and `getTotalSavings`.
- `Grouping` (`grouping.dfy`): `getExpensesByCategory`, `getIncomeBySource` and
  `getSavingsByType`. A method with a `while` loop builds the per-key dictionary and is proved
  against left-fold specification functions. The stable sort by total, largest first, is a
  functional insertion sort.
- `Rules` (`rules.dfy`): savings rate, spending check, remaining budget and health level.
- `Lookup` (`lookup.dfy`): lookup in a fixed table declared as an object literal.
- `Funds` (`funds.dfy`): `FUND_TYPES`, `getFundLabel`, `getFundEmoji` and `getAllFundTypes`.
- `Messages` (`messages.dfy`): `getWafflesMessage`, `getSavingsMessage` and
  `getRetirementCountdown`.
- `Numerals` (`numerals.dfy`): the decimal text that template literals produce for whole numbers.
- `Categories` (`categories.dfy`): `CATEGORY_MAP`, `getCategoryClass`, `getCategoryEmoji` and
  `getAllCategories`.
- `Dates` (`dates.dfy`): `monthsUntil` and the banding of `getRelativeDate`.
- `Csv` (`csv.dfy`): the content string built by `downloadCSV`, with a reader that recovers the
  cells of a record.
- `Wrappers` (`wrappers.dfy`): the `Option` type.

Modelling choices:

- Amounts are exact `real` numbers, not doubles. An entry's amount is `None` when it is absent or
  falsy, and then it counts as 0, as `parseFloat(e.amount || 0)` does.
- A category, source or fund field that is absent or empty falls back to `"General"`, `"Other"` or
  `"general"`.
- Times are integer milliseconds. The current time is a parameter. The year of 365.25 days is
  31,557,600,000 ms and the month of 30.44 days is 2,630,016,000 ms; both are exact, so integer
  division reproduces the source's `Math.floor` on these quotients.
- The source uses `label` and `class` as field names, but these are Dafny keywords, so the model
  calls them `fundLabel` and `cssClass`.

Three details of the code that the model keeps:

- A non-numeric amount string is not turned into 0. `parseFloat` gives NaN, and only absent or
  falsy amounts count as 0.
- The breakdown rows are `{ category, total }` and `{ source, total }`, not a generic
  `{ key, total }`. The model uses one `Group(key, total)` for both.
- The countdown adds the plural "s" to every count except exactly 1, so it writes "0 years".

## Model

| member | source | states |
|---|---|---|
| Entries.AmountOf | js/services/budget.js:142 | An absent or falsy amount counts as 0; any other amount counts as its own value. |
| Entries.Total | js/services/budget.js:141-151 | A list whose amounts are all absent totals 0; a list of non-negative amounts has a non-negative total. |
| Entries.TotalSmall | js/services/budget.js:141-151 | The total of no entries is 0; the total of one entry is its amount (0 when absent or falsy). |
| Entries.TotalAppend | js/services/budget.js:141-151 | The total of a concatenation is the sum of the totals of its parts. |
| Entries.TotalPermutation | js/services/budget.js:141-151 | Two lists holding the same entries in any order have the same total. |
| Entries.MissingAmountAddsNothing | js/services/budget.js:142 | Inserting an entry with an absent or falsy amount anywhere leaves the total unchanged. |
| Entries.TotalBounds | js/services/budget.js:141-151 | With non-negative amounts, the total is non-negative and at least every single amount. |
| Grouping.KeyOf | js/services/budget.js:156 | A non-empty field value is its own key; an absent or empty field gives the default key; the key is never empty. |
| Grouping.FirstSeenOrder | js/services/budget.js:154-158 | The dictionary lists its keys in the order of each key's first occurrence among the entries. |
| Grouping.TotalsOfMeaning | js/services/budget.js:154-158 | The per-entry accumulation holds exactly the entries' keys, each mapped to the sum of the amounts of the entries with that key. |
| Grouping.FirstSeenKeys | js/services/budget.js:154-158 | The dictionary's key order lists exactly the keys some entry carries, each once. |
| Grouping.GroupTotalOfAbsentKey | js/services/budget.js:157 | A key that no entry carries has total 0, the value a new dictionary key starts from. |
| Grouping.GroupTotals | js/services/budget.js:154-158 | The loop yields the first-seen key order and a dictionary holding exactly the entries' keys, each mapped to the sum of the amounts of its entries. |
| Grouping.SortedBreakdown | js/services/budget.js:153-161 | The returned rows are the stable sort, by total descending, of one row per first-seen key with that key's total. |
| Grouping.ExpensesByCategory | js/services/budget.js:153-162 | `getExpensesByCategory`: the sorted breakdown by category, defaulting to "General". |
| Grouping.IncomeBySource | js/services/budget.js:164-173 | `getIncomeBySource`: the sorted breakdown by source, defaulting to "Other". |
| Grouping.SavingsByType | js/services/budget.js:175-182 | `getSavingsByType`: a dictionary whose keys are exactly the entries' fund types (default "general"), each mapped to its total. |
| Grouping.SortByTotalDesc | js/services/budget.js:161 | The sort's result is ordered by total, largest first, and is a permutation of its input. |
| Grouping.SortStable | js/services/budget.js:161 | The sort is stable: for every total, the rows with that total keep their input order. |
| Grouping.BreakdownKeys | js/services/budget.js:155-160 | A breakdown has a row for a key exactly when some entry carries that key, and no key appears twice. |
| Grouping.BreakdownTotals | js/services/budget.js:155-160 | Each row of a breakdown holds the sum of the amounts of the entries with its key. |
| Grouping.BreakdownTies | js/services/budget.js:159-161 | Rows of equal total appear in the order their keys were first met in the entries. |
| Grouping.GroupsSumToTotal | js/services/budget.js:141-158 | The per-key totals add up to the total of the whole list. |
| Grouping.BreakdownSum | js/services/budget.js:141-161 | The totals of a sorted breakdown add up to the total of the list. |
| Grouping.DefaultKeyRow | js/services/budget.js:156 | An entry with an absent or empty key gives the breakdown a row for the default key, holding that key's total. |
| Rules.SavingsRate | js/services/budget.js:187-190 | The rate is 0 when income is not positive; otherwise rate × income = savings × 100. |
| Rules.SavingsRateUnclamped | js/services/budget.js:187-190 | For positive income the rate is above 100 exactly when savings exceed income, 100 exactly when they are equal, and negative exactly when savings are negative. |
| Rules.RemainingBudget | js/services/budget.js:204-206 | Remaining plus expenses plus savings is income; it is negative exactly when expenses and savings exceed income. |
| Rules.IsSpendingUnderIncome | js/services/budget.js:192-194 | Spending is under income exactly when the remaining budget with no savings is non-negative. |
| Rules.HealthLevel.Name | js/services/budget.js:196-202 | Each of the four strings "neutral", "healthy", "warning", "danger" names exactly one level. |
| Rules.BudgetHealthLevel | js/services/budget.js:196-202 | Neutral iff income ≤ 0; healthy iff expenses ≤ 0.7·income; warning iff 0.7·income < expenses ≤ 0.9·income; danger iff expenses > 0.9·income (all with positive income). |
| Rules.HealthLevelMonotone | js/services/budget.js:196-202 | For a fixed income, higher expenses never give a less severe level. |
| Lookup.Find | js/services/budget.js:220 | A lookup finds nothing exactly when no declared key matches; otherwise it returns a record declared under that key. |
| Lookup.FindDeclared | js/utils.js:118 | In a table with unique keys, looking up a declared key returns that key's own record. |
| Funds.FundTableWellFormed | js/services/budget.js:211-217 | The five fund names are distinct, and every label and emoji is non-empty. |
| Funds.FundLabel | js/services/budget.js:219-221 | A declared fund gets its own label; any other input gets "General Savings". |
| Funds.FundEmoji | js/services/budget.js:223-225 | A declared fund gets its own emoji; any other input gets the money bag. |
| Funds.AllFundTypes | js/services/budget.js:227-233 | Exactly five records in declaration order (retirement, travel, emergency, waffles, general), each agreeing with the label and emoji lookups. |
| Messages.WafflesMessage | js/services/budget.js:236-243 | Each of the six messages is returned exactly on its band: ≥500, [200,500), [100,200), [50,100), (0,50), ≤0. |
| Messages.SavingsMessage | js/services/budget.js:246-253 | Each of the six messages is returned exactly on its band: ≥30, [20,30), [10,20), [5,10), (0,5), ≤0. |
| Messages.SavingsTargetBoundary | js/services/budget.js:249-250 | A rate of exactly 10 hits the target, while any rate in [5,10) gets "Paddle harder". |
| Messages.Quantity | js/services/budget.js:265 | The count-and-unit text ends in "s" exactly when the count is not 1. |
| Messages.RetirementCountdown | js/services/budget.js:256-267 | No date gives null; a date at or before now gives 0 years, 0 months and the terminal message; otherwise the years and months are the floors of the elapsed time over 365.25 and 30.44 days, months ≤ 11, and the message is built from them. |
| Messages.EighteenMonthsAhead | js/services/budget.js:263-264 | A date 18 average months ahead counts as 1 year and 6 months. |
| Numerals.NatToString | js/services/budget.js:265 | The decimal text of a whole number is a non-empty string of digits with no leading zero. |
| Numerals.NatToStringRoundTrip | js/services/budget.js:265 | Reading the decimal text back gives the number. |
| Numerals.IntToString | js/utils.js:59 | The text of an integer starts with "-" exactly when the integer is negative; the rest is a digit string that reads back as the integer's magnitude. |
| Categories.CategoryTableWellFormed | js/utils.js:100-115 | The fourteen category names are distinct, and every class and emoji is non-empty. |
| Categories.CategoryClass | js/utils.js:117-119 | A declared category gets its own class; any other input gets "general". |
| Categories.CategoryEmoji | js/utils.js:121-123 | A declared category gets its own emoji; any other input gets the money bag. |
| Categories.AllCategories | js/utils.js:125-127 | The fourteen distinct category names in declaration order, from "Housing" to "General", each known to the lookups. |
| Dates.MonthsUntil | js/utils.js:92-97 | The result is 0 exactly when the target month is not after the current one; otherwise it is the difference in months since year 0. |
| Dates.MonthsUntilAddMonths | js/utils.js:92-97 | A target k months ahead, on any day of the month, gives k. |
| Dates.MonthsUntilMonotone | js/utils.js:92-97 | A later target month never gives fewer months. |
| Dates.RelativeDateOf | js/utils.js:51-60 | "Today" iff less than a day has passed; "Yesterday" iff one to two days; the formatted date iff seven days or more; otherwise "<days> days ago" with days the floor of the elapsed days, negative for future dates. |
| Csv.QuoteCell | js/utils.js:218 | A cell is wrapped in double quotes, and a null or undefined cell becomes the empty quoted field. |
| Csv.CellRoundTrip | js/utils.js:218 | Removing the outer quotes and collapsing doubled quotes recovers the cell's text. |
| Csv.EscapeQuotes | js/utils.js:218 | Escaping never shortens a text and leaves a text without double quotes unchanged; its inverse is the quoted-body reader (Csv.CellRoundTrip). |
| Csv.RecordRoundTrip | js/utils.js:218 | Reading the comma-joined quoted cells of a row back gives the texts of all its cells, in order. |
| Csv.EncodeRecord | js/utils.js:218 | A record line reads back as its cells' texts, has n − 1 commas outside quoted fields for n ≥ 1 cells (none for no cells), no line feed outside them, and ends outside quotes. |
| Csv.ContentLines | js/utils.js:216-219 | With header names free of quotes and line feeds, the content has exactly one line feed per data row outside quoted fields. |
| Csv.CsvContent | js/utils.js:216-219 | With header names free of quotes and line feeds, splitting the content at line feeds outside quotes gives the header line followed by each row's record line. |
| Csv.ContentRoundTrip | js/utils.js:216-219 | With such headers, the content has one line per row plus the header line, the first line is the comma-joined headers, and every later line reads back as its row's cell texts. |

## Left out

- The income, expense and savings create, read, update and delete calls in `js/services/budget.js:8-136`
  are not modelled. They are network calls to the hosted backend with toast notifications and have
  no logic of their own.
- The backend client (`js/lib/supabase.js`), the session holder (`js/services/auth.js`), the router,
  the application shell, the page modules and the development server are not part of this model.
  They are I/O, DOM templating and event wiring.
- These parts of `js/utils.js` are not modelled:
  - the toast, modal and loading helpers, and `escapeHtml`, which use the DOM;
  - `debounce`, which uses timers;
  - `formatCurrency`, `formatPercent`, `formatDate` and `formatTime`, which use locale formatting;
  - the start-of-month and end-of-year helpers, which mutate dates in the local time zone;
  - `getFormData`, which uses `FormData` and JavaScript's numeric coercion;
  - the Blob and download-link part of `downloadCSV`.
- Entries.AmountOf: a non-empty amount string is taken as the number it denotes. Parsing, and the
  NaN that `parseFloat` gives for non-numeric text, are not modelled.
- Amounts use exact arithmetic. The rounding of double-precision sums and ratios is not modelled.
- Grouping.GroupTotals: every key is an ordinary own property. In the source the dictionary is a
  plain object, so two kinds of key behave differently, and the model captures neither:
  - inherited names such as "constructor" or "__proto__" start from an inherited value;
  - integer-like keys are listed first by `Object.entries`.
- Grouping.SavingsByType: the result is a map, so the key order of the source's object is not kept;
  no caller in the model depends on that order.
- Grouping.SortByTotalDesc: the sort is specified as stable with a descending numeric comparison,
  as the language guarantees. The engine's own sorting algorithm is not modelled.
- Messages.RetirementCountdown: the date is taken as a millisecond timestamp or as absent. Date
  parsing, and the NaN result for an unparseable date, are not modelled. The current time is a
  parameter instead of a clock read.
- Dates.MonthsUntil: the target and current dates are given as year, month and day. Extracting them
  from a timestamp in the local time zone is not modelled.
- Dates.RelativeDateOf: for seven days or more, the result is a marker that carries the date handed
  to `formatDate`, not the locale text.
- Csv.CsvContent: cells are taken as text. `String()` applied to numbers and booleans is not
  modelled.
- Strings are sequences of Unicode scalar values. Emoji are compared as code points, not as UTF-16
  code units.
