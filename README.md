# Personal finance ledger — verified model of its core

The program keeps a ledger of dated, categorised income and expense transactions in a
pandas DataFrame. It loads the ledger from `transactions.csv` at start-up and writes the
whole ledger back after each batch of additions. It answers four views:

- the breakdown of one month of the year by category;
- one category's per-month sums, counts and averages;
- the cumulative net balance across months;
- the all-time overview by category.

This project models that core in Dafny:

- **Taxonomy**: the nine category names, the income/expense split, and the `strip().capitalize()` matching of typed category names.
- **Dates**: the `DD-MM-YYYY` date text read by `strptime` and written by `strftime`.
- **Transactions**: the four field checks of `add_transaction` and the errors they raise.
- **Store**: the ledger as a class, its file form, loading, appending and saving.
- **Selection**, **Months**, **Overviews**, **CategoryView**, **NetBalance**: the row filters, the `groupby` operations, and the four views.

Amounts are mathematical reals. The views return their series instead of printing them.

The docstring of `view_cumulative_net_balance` (main.py:473-474) promises the net balance,
income minus expense, for each month, and then its running total. The code adds two
month-indexed series without a fill value, so any month that has only income rows or only
expense rows gets NaN. `cumsum` skips NaN, so that month shows no balance.
`NetBalance.CumulativeNetBalance` models the code as written. `NetBalance.CumulativeNetBalanceFilled`
fills the missing side with zero, which gives every month the net the docstring describes.
See "## Findings".

## Model

| member | source | states |
|---|---|---|
| Taxonomy.BuildExpenseCategories | main.py:29-32 | the loop builds exactly the seven non-income categories, in the order of `VALID_CATEGORIES` |
| Taxonomy.ExpenseCategoriesValue | main.py:27-32 | the expense list equals Food, Entertainment, Bills, Leisure, Transport, Shopping, Gifts |
| Taxonomy.IncomeListed | main.py:28 | a category is income-type exactly when it is in `INCOME_CATEGORIES` |
| Taxonomy.WithoutIncomeMembers | main.py:30-32 | a category is kept by the filter exactly when it is listed and not income-type |
| Taxonomy.Partition | main.py:27-32 | every category is valid, and it is expense-type exactly when it is not income-type |
| Taxonomy.NameNormalized | main.py:27 | every category name is its own `strip().capitalize()` form |
| Taxonomy.NamesDistinct | main.py:27 | two categories with the same name are the same category |
| Taxonomy.Find | main.py:135 | a found category is listed and has the looked-up name; not found means no listed category has that name |
| Taxonomy.ParseCategory | main.py:134-136 | a matched category's name is the typed text's `strip().capitalize()` form; nothing is matched only when no category has that name |
| Taxonomy.ParseCategoryExact | main.py:134-136 | typed text is accepted as category c if and only if its normalised form is c's name |
| Taxonomy.ParseCategoryIgnoresCase | main.py:134-136 | surrounding whitespace and ASCII letter case do not affect which category is matched |
| Taxonomy.ExampleMixedCase | main.py:134-136 | " fOOD " is accepted as Food |
| Text.TrimStart | main.py:134 | the result is the suffix left after removing all leading whitespace, and it does not start with whitespace |
| Text.TrimEnd | main.py:134 | the result is the prefix left after removing all trailing whitespace, and it does not end with whitespace |
| Text.Normalize | main.py:157-158 | `strip().capitalize()` is empty exactly when the text is all whitespace |
| Text.NormalizeIdempotent | main.py:134 | normalising twice gives the same result as normalising once |
| Text.MatchIgnoresCase | main.py:134 | text whose stripped form equals a capitalised name up to ASCII case normalises to that name |
| Dates.NoThirtyFirstOfFebruary | main.py:124 | "31-02-2024" is not read as a date |
| Dates.DaysInMonth | main.py:124 | every month has 28 to 31 days, and 29 only in February of a leap year |
| Dates.Parse | main.py:124 | a parsed date is a day that exists in years 1 to 9999 |
| Dates.ParseFormat | main.py:658 | reading back a written date gives that date, and fails exactly when the date does not exist |
| Dates.FormatParse | main.py:124 | a 10-character date text that parses and does not start with a space is written back exactly as it was typed |
| Dates.Format | main.py:658 | the written date is 10 characters with `-` at positions 2 and 5 |
| Dates.MonthNamesDistinct | main.py:25 | two month numbers have the same full name only if they are the same month |
| Dates.MonthNumber | main.py:284-285 | the typed month is accepted exactly when its normal form is one of the twelve names, and the number returned has that name |
| Transactions.CheckAmount | main.py:146-149 | the amount is refused exactly when its sign does not match the category class; income-type amounts must be above 0, all others below 0 |
| Transactions.CheckDescription | main.py:157-159 | the description is refused as empty exactly when it is all whitespace; otherwise the normalised text is stored |
| Transactions.Validate | main.py:121-170 | an entry is accepted exactly when its date parses, its category matches, its amount has the category's sign and its description is not blank; a bad date is reported as such whatever the other fields, an unknown category (with a good date) as an unknown category, and a blank description (with every other field good) as an empty description; an accepted entry carries the parsed date, the matched category, the typed amount and the normalised description |
| Transactions.ValidateSound | main.py:121-170 | an accepted entry yields a well-formed transaction with the typed amount, the parsed date and the matched category |
| Transactions.ValidateComplete | main.py:121-170 | every well-formed transaction, typed back in its stored form, is accepted unchanged |
| Transactions.ZeroAlwaysRefused | main.py:146-149 | a zero amount is never accepted, whatever the category |
| Transactions.WrongSignRefused | main.py:146-149 | with a valid date and category, an amount of the wrong sign is refused with the category and its required sign |
| Selection.Where | main.py:297 | a filter never yields more rows than it is given |
| Selection.WhereMembers | main.py:297 | a row is in a filtered ledger exactly when it is in the ledger and satisfies the condition |
| Selection.Sum | main.py:567-570 | a sum of positive amounts is never negative, and a sum of negative amounts never positive |
| Selection.IncomeExpenseSplit | main.py:567-570 | the income-class sum plus the expense-class sum is the sum of all amounts |
| Selection.EmptySelection | main.py:297-303 | a filter that matches no row yields an empty result whose sum is 0 |
| Months.MonthTotals | main.py:398 | grouping by month has an entry exactly for the months 1 to 12 that have a row |
| Months.MonthlyCounts | main.py:401 | the month counts have the same months as the month sums, and each count is at least 1 |
| Months.Ordered | main.py:398 | the series lists months in strictly ascending order, each with its map value |
| Months.OrderedCovers | main.py:398 | every month of the map appears in the ordered series |
| Months.MonthsCoverRows | main.py:398-401 | for real dates, the month counts add up to the number of rows and the month sums add up to the total amount |
| Overviews.CategoryTotals | main.py:564 | `groupby("Category")` has an entry exactly for the categories that have a row, with no zero-filling, and each entry is the sum of that category's amounts |
| Overviews.SumByCategory | main.py:564 | the per-category sums over the nine categories add up to the ledger's sum |
| Overviews.AllTimeOverview | main.py:564-570 | a category is listed exactly when it has a row, with the sum of its amounts; the income total is the sum over income-type rows and the expense total the sum over the other rows; the two totals, and the category entries, each add up to the sum of all amounts |
| Overviews.MonthlyBreakdown | main.py:297-303 | each category entry is the sum of that category's amounts in the month; the income total is the sum over the month's income-type rows and the expense total over its other rows; the two totals, and the category entries, each add up to the sum of that month's amounts |
| Overviews.OverviewBalances | main.py:564-570 | in the all-time overview, income total plus expense total and the sum of the category entries both equal the sum of all amounts |
| Overviews.MonthlyBreakdownBalances | main.py:297-303 | a category appears in a month's breakdown exactly when it has a row in that month, and the totals add up to the month's sum |
| Overviews.MonthlyBreakdownEmpty | main.py:297-303 | a month with no rows gives an empty breakdown with zero totals (on a ledger whose Date column holds dates; see "## Left out") |
| Overviews.TotalsSigned | main.py:567-570 | on well-formed rows the income total is never negative and the expense total never positive |
| CategoryView.CategorySums | main.py:398 | each entry is a month from 1 to 12 in which the category has rows, with the sum of those rows; the months are in ascending order |
| CategoryView.CategoryCounts | main.py:401 | a month has a count exactly when it is from 1 to 12 and the category has a row in it; the count is that number of rows, at least 1 |
| CategoryView.Average | main.py:407 | the average multiplied by the count gives back the month's total |
| CategoryView.CountsCoverSeries | main.py:398-405 | every month in the category's sum series has a count, equal to its number of rows and at least 1 |
| CategoryView.ReportLines | main.py:404-407 | the loop collects, for each month of the series and in series order, its count and the line with sum, count and average |
| CategoryView.CategoryReport | main.py:398-407 | each line's count is the number of the category's rows in that month (at least 1), so the average is always defined |
| CategoryView.CategorySeriesMonths | main.py:398 | a month is listed for a category exactly when the category has a row in that month |
| CategoryView.CategorySeriesCoversRows | main.py:398-401 | the category's series counts add up to its number of rows, and its sums to its total amount |
| NetBalance.UnionMonths | main.py:499 | the index of a sum of two series contains months 1 to 12 that are in either series |
| NetBalance.UnionAscending | main.py:499 | that index is in strictly ascending order |
| NetBalance.UnionCovers | main.py:499 | every month in either series is in the index |
| NetBalance.MonthlyNet | main.py:494-499 | every entry is for a month from 1 to 12 that is in the income series or the expense series; its net is defined exactly when both series have that month, or zero-filling is on |
| NetBalance.Net | main.py:499 | a month's net is defined exactly when both series have it (or zero-filling is on), and is then income plus expenses |
| NetBalance.CumSum | main.py:500 | the cumulative series has one entry per net entry |
| NetBalance.CumSumShape | main.py:500 | each cumulative entry keeps the month of its net entry and has a balance exactly when that net is defined |
| NetBalance.CumSumIsRunningSum | main.py:500 | the k-th cumulative entry has the k-th month; it is missing where the net is missing, and otherwise is the sum of all defined nets up to k |
| NetBalance.CumulativeNetBalance | main.py:494-500 | one entry per month of the net series, in the same order; a month has a balance exactly when its net is defined |
| NetBalance.CumulativeNetBalanceFilled | main.py:494-500 | with zero-filling, every month of the net series has an entry with a balance, in the same order |
| NetBalance.BalanceIsRunningNet | main.py:494-500 | each entry of the cumulative balance is the running sum of the defined monthly nets |
| NetBalance.SeriesMonths | main.py:494-497 | a month is in the income (expense) series exactly when it has an income (expense) row; the two values add to the month's sum |
| NetBalance.NetEntryMeaning | main.py:494-499 | every net entry is for a month with rows; it is defined exactly when that month has both income and expense rows (or zero-filling is on) and then equals the month's sum |
| NetBalance.NetMonthsCovered | main.py:494-499 | every month with a row has an entry in the net series |
| NetBalance.NetMonthsAscending | main.py:499-502 | the net series is in strictly ascending month order |
| NetBalance.MonthSplit | main.py:494-497 | a month's rows and amounts split into its income rows and its expense rows |
| NetBalance.NetTotal | main.py:494-500 | when every month has both classes (or zero-filling is on), the last net is defined and the defined nets add up to the ledger's sum |
| NetBalance.BalancedLedgerEndsAtTotal | main.py:494-500 | when every month has both classes, the final cumulative balance is the sum of all amounts |
| NetBalance.OneSidedMonthHasNoBalance | main.py:499-500 | a month with rows of only one class has a cumulative entry with no balance |
| NetBalance.FilledLedgerEndsAtTotal | main.py:499-500 | with zero-filling, the final cumulative balance is always the sum of all amounts |
| NetBalance.ExampleFebruaryMissing | main.py:499-500 | in the four-row example, February's cumulative balance is missing |
| NetBalance.ExampleFilledTotal | main.py:499-500 | in the four-row example with zero-filling, the final balance is 825 |
| Store.WriteRow | main.py:658 | a written row has a 10-character date and keeps the amount and the description |
| Store.Serialize | main.py:657-659 | one row per transaction, in ledger order, with the category's name and a 10-character date |
| Store.ReadRow | main.py:44-45 | a row reads exactly when its date text parses and its category is one of the nine names; the result has the parsed date, that category, the stored amount and description; a failure names the row, and an unreadable date is reported as a bad date |
| Store.Deserialize | main.py:44-45 | loading succeeds exactly when every row reads; the i-th loaded transaction is what row i reads as; a failure is the failure of one row of the file |
| Store.LoadedDatesValid | main.py:44-45 | a loaded ledger has only real dates |
| Store.ImpossibleDayRefused | main.py:45 | a file with "31-02-2024" in any row does not load, and that row is reported as a bad date |
| Store.Load | main.py:43-49 | no file gives an empty ledger, and a loaded ledger has only real dates |
| Store.WriteReadRow | main.py:658 | a written row reads back as the same transaction |
| Store.SavedRowsRead | main.py:657-659 | each written row reads back, at its position, as the transaction it was written from |
| Store.LoadsAs | main.py:44-45 | a file whose rows read, position by position, as the transactions of a ledger loads as that ledger |
| Store.SaveLoadRoundTrip | main.py:657-659 | loading a saved ledger gives back exactly that ledger |
| Store.LoadSaved | main.py:43-49 | the start-up load of a saved file gives back the ledger that was saved |
| Store.Accepted | main.py:121-170 | each accepted transaction is what validation made of the entry at the same position |
| Store.AcceptedWellFormed | main.py:121-170 | every transaction a batch adds is well formed and has the typed amount |
| Store.Ledger.Open | main.py:43-49 | opening fails exactly when loading fails; otherwise it gives a fresh ledger holding the loaded rows |
| Store.Ledger.Append | main.py:172 | the new transaction goes at the end and nothing else changes |
| Store.Ledger.AppendAll | main.py:114-172 | the counter ends at the number of transactions, and they are appended in order |
| Store.Ledger.Save | main.py:657-659 | the rows written are the ledger's, and they load back as the same ledger |
| Store.Ledger.AddTransactions | main.py:114-191 | the ledger grows by exactly the accepted batch in typed order, the reported count is the batch size, and the saved file loads back as the new ledger |

## Left out

- Prompts, per-field retry loops, printing, menus, `sys.exit` and the charts are left out. Each view returns the series it would print.
- The "add another transaction (Yes/No)" prompt is left out. Its only effect is the batch length, which is a parameter of `Store.Ledger.AddTransactions`.
- File I/O is left out. `Path.exists` becomes an `Option` argument of `Store.Load`, and the file becomes a sequence of rows. CSV quoting is not modelled. Nor is the type guessing of `pd.read_csv`: a stored description "None", or "-nan" (what a typed "-NaN" or "-NAN" becomes after `capitalize()`), is one of the pandas NA strings and reads back as NaN, and a Description column that is all numbers reads back as numbers.
- Floating point is not modelled: amounts are reals, and `.2f` rounding of printed values is left out.
- Transactions.CheckAmount: a NaN or infinite value from `float()` is not modelled. A NaN amount passes both sign checks in the source.
- Text.Normalize: only ASCII letters change case, and titlecase or special Unicode case mappings are not modelled.
- Dates.Parse: only ASCII digits are accepted, while `strptime` also takes other Unicode decimal digits. Loading uses the same parser, approximating `pd.to_datetime(format="%d-%m-%Y")`.
- Dates.Format: the year is always padded to four digits. The platform `strftime` may not pad years below 1000.
- Store.ReadRow: a stored row whose category is not one of the nine names makes loading fail. The source keeps any text there.
- Overviews.MonthlyBreakdown: with no file, `pd.DataFrame(columns=HEADERS)` gives a Date column of object type, so `.dt` at main.py:297 raises AttributeError and the program exits. The model returns an empty breakdown there.
- CategoryView.CategorySums: on that object-typed Date column `.dt` at main.py:398 raises AttributeError. The model returns an empty series there.
- CategoryView.CategoryCounts: on that object-typed Date column `.dt` at main.py:401 raises AttributeError. The model returns an empty map there.
- NetBalance.MonthlyNet: on that object-typed Date column `.dt` at main.py:494 raises AttributeError. The model returns an empty series there.
- Store.ReadRow: pandas datetimes only cover midnight of 22-09-1677 to 11-04-2262 (the bounds are 1677-09-21 00:12:43 and 2262-04-11 23:47:16). A stored date outside that range makes `pd.to_datetime` at main.py:45 raise OutOfBoundsDatetime, and the program stops. The model reads all years from 1 to 9999.
- Store.ReadRow: an empty Date cell, or one holding a pandas NA string such as "NaN", "NA" or "None", is read by `pd.read_csv` at main.py:44 as NaN, and `pd.to_datetime` at main.py:45 turns it into NaT without raising. The source keeps that row: it drops out of every month view, since its month is NaN and `groupby` drops NaN keys, but it still counts in the all-time overview. The model refuses the file with BadDate at that row.
- Store.Ledger.AddTransactions: a typed date outside the pandas range, such as 01-01-1500, passes `strptime` but leaves the Date column as objects, so `.dt.strftime` at main.py:658 raises when the batch is saved. The model saves it.
- Dates.Parse: the pandas date range is not part of the parser, so loading and typing both accept years 1 to 9999.
- `calendar.month_name` is modelled in the English locale only.
- The print order of `groupby` results is not modelled. Overviews are maps, and month series are in ascending month order as pandas sorts them.
- Years are not part of the month filter or the month grouping, matching the source, which groups by month of year.

## Findings

| source | as written | input that shows it | evidently intended | confidence | as-written member | corrected member |
|---|---|---|---|---|---|---|
| main.py:499 | `total_income_per_month + total_expenses_per_month` is aligned without a fill value, so a month with only income or only expense rows gets NaN, and `cumsum` leaves that month without a balance | the ledger of Salary 1000 (01-01-2024), Groceries -50 and Snacks -25 (January), and Electric bill -100 (05-02-2024): February has only an expense row | `add(..., fill_value=0)`: February's cumulative balance is 825.00, and the last balance is always the ledger's sum | not executed | NetBalance.ExampleFebruaryMissing | NetBalance.FilledLedgerEndsAtTotal |
