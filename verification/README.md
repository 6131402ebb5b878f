# Savings-rate dashboard: report model and metrics in Dafny

This project models the core of a small personal-finance dashboard. The dashboard reads
hledger balance reports and derives a monthly savings-rate series, its average,
daily expense and income averages, three wealth projections and a breakdown of
this month's expenses. Two independent pieces are modelled.

- **The report model** (`src/types.rs`, module `Report` in `report.dfy`). These are the
  decoded shapes of hledger's JSON balance reports. `Side` comes with its
  one-letter string codec. A `PeriodReport` holds date spans and a totals row of
  per-period commodity lists. A `BalanceAccount` is a list of rows of `Balance`
  elements, each either an `Account` line or a bare `Total`. The model also
  covers the accessors `num_dates`, `total_at_index`, `get_totals` and
  `get_expense_report`.
- **The savings-rate pipeline** (`src/main.rs`), in three modules:
  - `Cells` (`cells.dfy`) covers the cleaning step of `string_to_f32` and a
    decimal parser.
  - `Savings` (`savings.dfy`) covers the per-month loop over the two totals
    records, the averages, the FIRE/AAW/PAW projections and the
    `current_rate_colored` classifier.
  - `Breakdown` (`breakdown.dfy`) covers the construction of the pie-chart data.

`Wrappers` (`wrappers.dfy`) holds `Option` and `Result`. `Numbers` (`numbers.dfy`)
holds sums, means and absolute values over `real`.

Amounts are `real`, where the source uses `f32`. Rust panics become preconditions:
`unwrap` on a missing value, an out-of-range index, and `usize` underflow of
`len - 2`. Errors the source propagates with `?` or `bail!` become `Failure`
values. Sometimes the source divides by zero in `f32` without noticing and
carries on with an infinity or NaN. At those points the model returns an
explicit non-finite outcome instead of inventing a number:

- `NotFinite(UnboundedRate(k))` for a month with no income but non-zero expenses.
- `NotFinite(NoMonths)` for a totals record without month columns.
- `ZeroTotal` or `None` for a zero breakdown total.

For a month without income the source's NaN guard only catches `0/0`, which
gives rate 0, as in the model. `(0 - e)/0` is ±∞ and the source keeps it; the
model stops there instead, and "## Left out" lists what it then drops.

## Model

| member | source | states |
|---|---|---|
| Report.SideName | src/types.rs:52-60 | a side serializes to a one-letter code, "L" exactly for Left and otherwise "R" |
| Report.ParseSide | src/types.rs:81-92 | exactly "L" decodes to Left and "R" to Right; every other string is rejected, and the error names it |
| Report.SideRoundTrip | src/types.rs:56-92 | serializing a side and decoding the text gives the same side back |
| Report.SideNameOfParsed | src/types.rs:56-92 | decoding an accepted string and serializing the result gives the string back |
| Report.NumDates | src/types.rs:144-146 | the number of periods; in a report whose spans and total slots line up, it is also the number of total slots |
| Report.TotalAtIndexDefinedInPeriods | src/types.rs:144-165 | in such a report, total_at_index is defined for a period below num_dates exactly when its slot holds no more commodities than there are periods |
| Report.TotalAtIndexPanicsOnExtraCommodity | src/types.rs:156-163 | a one-period report whose slot holds two commodities, where the lookup of its only period panics |
| Report.TotalAtIndex | src/types.rs:148-167 | as written: an empty slot gives exactly one zero USD value for dates[index]; a filled slot gives one value per commodity in slot order with its amount and commodity, the j-th tagged with dates[j]; the precondition is where indexing would panic |
| Report.TotalForPeriod | src/types.rs:148-165 | the intended lookup: at least one value, every value tagged with dates[index], an empty slot giving one zero USD value |
| Report.TotalAtIndexMatchesAmounts | src/types.rs:148-167 | the as-written and intended lookups agree on length, amounts and commodities, and coincide entirely for period 0 with at most one commodity |
| Report.TotalAtIndexTagsFirstPeriod | src/types.rs:156-165 | for every filled slot, the first value carries the span of period 0 and so differs from the intended value whenever the spans differ |
| Report.TotalAtIndexMislabelsSecondMonth | src/types.rs:159-163 | a two-month report whose second-month total comes back labelled with the first month |
| Report.TotalsIn | src/types.rs:197-205 | the totals kept from a row are Total elements of the row, never more than the row has |
| Report.AccountsIn | src/types.rs:219-226 | the account lines kept from a row are Account elements of the row, never more than the row has |
| Report.PartitionSizes | src/types.rs:6-9 | every element of a row is kept by exactly one of the two filters |
| Report.FiltersAppend | src/types.rs:205 | both filters distribute over concatenation, so each element is kept or dropped on its own |
| Report.TotalsInAllTotals | src/types.rs:197-205 | a row of totals only is kept whole and in order, and has no account lines |
| Report.AccountsInAllAccounts | src/types.rs:219-226 | a row of account lines only is kept whole and in order, and has no totals |
| Report.GetTotals | src/types.rs:191-207 | one value per Total of the last row, in order, each with that total's amount and commodity and an empty span |
| Report.GetTotalsIgnoresAccounts | src/types.rs:197-205 | an Account element anywhere in the last row is dropped silently: the totals are those of the row without it |
| Report.GetExpenseReport | src/types.rs:209-228 | one share per Account of the first row, in order, labelled with the line's second field, whose amount times the first total is the line's first amount; the precondition is where it panics (no total, an account without commodities) |
| Report.ExpenseSharesSumToOne | src/types.rs:222 | when the first total is the sum of the accounts' first amounts, the shares add up to 1 |
| Report.ExpenseReportExample | src/types.rs:209-228 | accounts worth 30 and 70 under a total of 100 give shares 0.3 and 0.7 |
| Cells.RemoveAll | src/main.rs:157 | deleting occurrences of a pattern never lengthens the text |
| Cells.RemoveAllDeletesOnly | src/main.rs:157 | deleting a pattern only removes characters; it never adds one |
| Cells.RemoveSingleLeavesNone | src/main.rs:157 | removing a one-character pattern leaves no copy of that character |
| Cells.RemoveAllAbsent | src/main.rs:157 | text that does not contain the pattern is returned unchanged |
| Cells.RemoveTrailingSuffix | src/main.rs:157 | a space-free amount followed by " USD" loses exactly the suffix |
| Cells.RemoveSingleAppend | src/main.rs:157 | removing one character distributes over concatenation |
| Cells.Clean | src/main.rs:156-158 | the cleaned text contains no ',' and is never longer than the cell |
| Cells.CleanLeavesPlainUnchanged | src/main.rs:157 | a cell with neither " USD" nor ',' is left unchanged by cleaning |
| Cells.CleanIdempotentWithoutSuffix | src/main.rs:157 | cleaning twice equals cleaning once when the first pass leaves no " USD" |
| Cells.CleanGrouped | src/main.rs:157 | an amount with one group separator and the suffix cleans to its digit groups run together |
| Cells.CleanExample | src/main.rs:157 | "1,234.56 USD" cleans to "1234.56" |
| Cells.ParseExample | src/main.rs:157 | "1234.56" parses as 1234.56 |
| Cells.ParseDecimal | src/main.rs:157 | only non-empty text parses, and a negative value needs a leading minus sign |
| Cells.ParseUnsigned | src/main.rs:157 | an unsigned decimal never reads as a negative number |
| Cells.DigitsValueOfNatDigits | src/main.rs:157 | writing a natural number in decimal and reading the digits back gives the number |
| Cells.CellValue | src/main.rs:156-158 | a cell converts only if it is not empty, and a negative value needs a '-' somewhere in the cell |
| Cells.CleanDeletesOnly | src/main.rs:157 | cleaning only deletes characters: the cleaned text's characters, counted with multiplicity, all come from the cell |
| Cells.ParseUnsignedDigits | src/main.rs:157 | a non-empty digit string without a point reads as the whole number it denotes |
| Cells.ParseDigits | src/main.rs:157 | a non-empty digit string parses as the number it denotes |
| Cells.CellValueOfWholeAmount | src/main.rs:156-158 | a whole amount, with or without " USD", converts back to the same number |
| Cells.GroupedExample | src/main.rs:156-158 | "1,234.56 USD" converts to 1234.56 |
| Cells.ZeroExample | src/main.rs:156-158 | "0 USD" converts to 0 |
| Savings.SavingsRate | src/main.rs:62-64 | the rate has no finite value exactly when income is 0 and expenses are not; 0 income and 0 expenses give rate 0 |
| Savings.RateMeaning | src/main.rs:62 | with non-zero income, the rate times the income is the income left after expenses |
| Savings.RateSign | src/main.rs:62-64 | with positive income the rate is positive exactly when expenses are below income, zero exactly when they are equal, and at most 1 when expenses are not negative |
| Savings.ReadFrom | src/main.rs:53-60 | defined whenever the loop meets no missing income cell, including income records shorter than the expense record; the columns from c to the last month give one month each, in column order, exactly when every cell reads as a number; otherwise the error names the first unreadable cell, expense before income, and that column's missing cell is never a missing income cell |
| Savings.MissingIncomeReached | src/main.rs:58-60 | the loop reaches a missing income cell exactly when some column's expense cell converts, the income record ends before it, and every earlier column read as a month: only then does the unwrap panic |
| Savings.AlignedRecordsDefined | src/main.rs:44-60 | an income record at least as long as the expense record without its total column never makes the loop panic |
| Savings.ParseMonths | src/main.rs:44-60 | requires only what keeps the loop from panicking (len ≥ 2, and no missing income cell reached); reads columns 1 to len-2 only, skipping the account-name and total columns: one month per column in order, or the first cell that is not a number |
| Savings.ShortIncomeRecordExamples | src/main.rs:58-60 | expense [total, n/a, 0] against income [total] stops at "n/a"; expense [total, 1, 2, 3, 6] against income [total, x] stops at "x"; expense [total, 1, 2] against income [total] reaches the missing income cell |
| Savings.NumMonths | src/main.rs:44 | the last month column, column num_months, comes before the total column |
| Savings.ReadFromColumns | src/main.rs:53-60 | the month reader looks at no column outside the range it is given |
| Savings.ParseMonthsSkipsNameAndTotal | src/main.rs:42-55 | the account-name cells and the expense total cell are never read: changing them leaves the months unchanged |
| Savings.ColumnReadsCells | src/main.rs:58-60 | a column reads as a month exactly when its expense cell converts, the income record has that column and its income cell converts; the month holds the two converted values |
| Savings.FirstUnbounded | src/main.rs:62-64 | the first month without a finite rate; every earlier month has one |
| Savings.ComputeSeries | src/main.rs:37-78 | LoopReports: one point per month with x = 0, 1, … in order and y = rate × 100; the average rate is the mean of the monthly rates; each daily average is the mean of the monthly figures over 30; it succeeds exactly when there is a month and every month has a finite rate, and otherwise names NoMonths or the first month without one |
| Savings.RunningSum | src/main.rs:68-71 | the running total the loop keeps ends as the sum of every figure added to it |
| Savings.Accumulate | src/main.rs:53-78 | given finite rates, one point (k, rate × 100) per month in order, and the mean rate, mean daily expense and mean daily income over all months |
| Savings.DailyMean | src/main.rs:68-76 | the mean of the per-month daily figures, times 30, is the mean of the monthly figures |
| Savings.SavingsReport | src/main.rs:22-78 | requires only that the loop on the last records does not panic; no expense records fails first, then no income records; a parse failure is passed on unchanged; after a clean parse there is one month per month column and the result is what LoopReports says the loop reports for them: success exactly when there is a month column and every month has a finite rate, otherwise the first month without one; a success has one point (k, rate × 100) per month and the mean rate, mean daily expense and mean daily income |
| Savings.SeriesExample | src/main.rs:62-113 | expenses 100 and 200 against income 200 and 200 give rates 0.5 and 0, plotted points (0, 50) and (1, 0), and a mean of 0.25, shown as 25 in yellow |
| Savings.Projections | src/main.rs:79-81 | FIRE is 25 years of annual expenses; AAW and PAW are the distances of the liabilities from half and from twice the expected net worth (23 × annual income / 10), so both are never negative |
| Savings.PawExceedsAaw | src/main.rs:80-81 | the PAW benchmark is four times the AAW benchmark, so with liabilities below the AAW benchmark PAW exceeds AAW by three AAW benchmarks |
| Savings.Classify | src/main.rs:145-154 | the three bands are exclusive and cover every value: ≤ 0 is red, (0, 50] is yellow, > 50 is green |
| Savings.ClassifyMonotone | src/main.rs:147-153 | a higher value never gets a worse band |
| Savings.AverageRateBand | src/main.rs:113 | the average rate, shown as a percentage, is green exactly above 0.5 and red exactly at or below 0 |
| Breakdown.PieOf | src/main.rs:91-104 | succeeds exactly when the total is a number that is non-zero or has no other record to share; then one slice per record except the last, in order, named by the first cell, whose value times the total is the record's amount; fill and colour of slice i are palette entry i mod 5; a total that is not a number is the parse error |
| Breakdown.TotalOf | src/main.rs:91 | the total is a cell of the last record |
| Breakdown.TotalOfRecords | src/main.rs:91 | the total is the last cell of the last record, read as string_to_f32 reads it |
| Breakdown.PieData | src/main.rs:91-104 | stated on the fetched records: an unreadable total cell is the parse error; a zero total with at least one other record gives ZeroTotal; in every other case it succeeds, with one slice per record except the last, in order, named by its first cell, whose second cell converts and is the slice value times the total |
| Breakdown.AmountsOfRecords | src/main.rs:100 | the amount of record i is the number string_to_f32 reads from its second cell |
| Breakdown.SlicesOfRecords | src/main.rs:96-104 | each slice, stated on its record's cells: named by the first cell and a share of the total equal to the second cell's number |
| Breakdown.PaletteRoundRobin | src/main.rs:101-102 | slices five apart get the same glyph and colour |
| Breakdown.SlicesSumToOne | src/main.rs:100 | when the total is the sum of the other records' amounts, the slice values add up to 1 |
| Breakdown.SlicesNonNegative | src/main.rs:100 | with a positive total and no negative amounts, no slice is negative |
| Numbers.SharesSumToOne | src/main.rs:100 | shares of a non-zero total that is the sum of the amounts add up to 1 |
| Numbers.SumScaled | src/main.rs:68-78 | if each element times c equals its counterpart, the sum times c equals the counterpart's sum |

## Left out

- The hledger invocations (`fetch_balance`, `fetch_expenses_this_month`, `fetch_liabilities`) and the CSV reader are external process I/O. Their records are parameters of `Savings.SavingsReport` and `Breakdown.PieData`. The liabilities figure is a parameter of `Savings.Projections`.
- Chart rendering (`textplots`, `piechart`), the ANSI `Colour::paint` calls and the `println!` output are presentation. Only the data handed to them is modelled: points, bands and slices.
- f32 semantics (rounding, overflow, NaN and infinity propagation) are not modelled. Arithmetic is exact over `real`.
- Cells.ParseDecimal: models only the decimal subset of `str::parse::<f32>`: an optional sign, digits, and an optional point with more digits. Exponents, "inf", "nan" and f32 rounding are not modelled.
- Savings.ComputeSeries: where a month has expenses but no income, the source makes only that month's point and the average rate infinite or NaN. Every other point, both daily averages and the FIRE, AAW and PAW figures stay finite there. The model instead stops with `NotFinite(UnboundedRate(k))` and discards all of them. With no month columns at all, every average is 0/0; the model stops with `NotFinite(NoMonths)`.
- Savings.SavingsReport: inherits the `NotFinite` outcome of ComputeSeries. A parse failure is reported before any non-finite month, as in the source.
- Breakdown.PieOf: a zero total with at least one slice gives `ZeroTotal`, where the source builds slices of infinity or NaN.
- Breakdown.PieData: inherits the `ZeroTotal` outcome of Breakdown.PieOf.
- Savings.ReadFrom: the model's `Unparsable` error and the pie's `UnreadableTotal` error record which cell failed. The source's `?` passes on a `ParseFloatError`, which does not hold the cell text, so the source reports every such failure the same way.
- Report.GetExpenseReport: a zero first total with at least one account gives `None`, where the source returns shares of infinity or NaN.
- serde's untagged-enum resolution and JSON decoding are left out. `Balance` is taken as an already-tagged datatype.
- Fields that are never read are dropped: `decimal_mantissa`, `decimal_places`, the `Style` display fields other than the side, `PriceListing`, the rows' `averages` and `totals`.
- `BalanceAccount::new` only wraps its argument. It is the datatype constructor `BalanceAccount`.
- `get_totals` never fails on an account line in the last row. `filter_map` drops the `bail!` error, so the element is skipped. The model follows the code.

## Findings

| source | as written | input that shows it | evidently intended | confidence | as-written member | corrected member |
|---|---|---|---|---|---|---|
| src/types.rs:156-165 | the closure's `index` from `enumerate` shadows the period `index`, so the j-th value of a filled slot is tagged `dates[j]`, and a slot with more commodities than dates panics | a two-month report with one USD amount in each slot: `total_at_index(1)` returns a value tagged with the first month's span | every value of slot `index` tagged with `dates[index]` | not executed; high | Report.TotalAtIndex, Report.TotalAtIndexMislabelsSecondMonth | Report.TotalForPeriod |

No other part of the model reads period totals. `Report.TotalAtIndexDefinedInPeriods` shows that the indices below num_dates are not all safe for the lookup as written.
