/** The savings-rate pipeline of src/main.rs: the monthly rates read from
    the totals records of the expense and income reports, their averages,
    the long-horizon projections and the colour band of the average rate.
    Amounts are `real` where the source has `f32`; where the source would
    produce an infinity or NaN without noticing, the model says so with
    `NotFinite` instead of making up a number. */
module Savings {
  import opened Wrappers
  import opened Numbers
  import opened Cells

  /** One month's figures: what was spent and what came in. */
  datatype Month = Month(expenses: real, income: real)

  /** Why a figure has no finite value in the source's arithmetic. */
  datatype Degeneracy =
    | NoMonths                   // zero month columns: every average is 0/0
    | UnboundedRate(month: nat)  // no income but non-zero expenses: the rate is infinite

  /** Why the savings-rate computation stops. */
  datatype SavingsError =
    | NoExpensesRecorded
    | NoIncomeRecorded
    | Unparsable(cell: string)
    | NotFinite(cause: Degeneracy)

  /** A month's savings rate, or `Unbounded` when dividing by a zero income
      does not give the NaN the source replaces by zero. */
  datatype MonthRate = Rate(value: real) | Unbounded

  /** The fraction of the month's income that was not spent. A month with
      neither income nor expenses counts as zero; a month with expenses
      but no income has no finite rate. */
  function SavingsRate(m: Month): (r: MonthRate)
    ensures r.Unbounded? <==> m.income == 0.0 && m.expenses != 0.0
    ensures m.income == 0.0 && m.expenses == 0.0 ==> r == Rate(0.0)
  {
    if m.income != 0.0 then Rate((m.income - m.expenses) / m.income)
    else if m.expenses == 0.0 then Rate(0.0)
    else Unbounded
  }

  /** With an income, the rate is the part of the income left after the
      expenses, as a fraction of the income. */
  lemma RateMeaning(m: Month)
    requires m.income != 0.0
    ensures SavingsRate(m).Rate?
    ensures SavingsRate(m).value * m.income == m.income - m.expenses
  {
  }

  /** With a positive income the rate is positive exactly when less was
      spent than earned, zero exactly when the two balance, and at most one
      when the expenses are not negative. */
  lemma RateSign(m: Month)
    requires m.income > 0.0
    ensures SavingsRate(m).Rate?
    ensures SavingsRate(m).value > 0.0 <==> m.expenses < m.income
    ensures SavingsRate(m).value == 0.0 <==> m.expenses == m.income
    ensures m.expenses >= 0.0 ==> SavingsRate(m).value <= 1.0
  {
    var r := SavingsRate(m).value;
    RateMeaning(m);
    SignOfProduct(r, m.income);
    SignOfProduct(1.0 - r, m.income);
    assert (1.0 - r) * m.income == m.expenses;
  }

  /** The record columns that hold months: all but the account-name column
      and the total column. */
  function NumMonths(row: Record): (n: nat)
    requires |row| >= 2
    ensures 1 + n < |row|
  {
    |row| - 2
  }

  /** Every column the month loop reaches has an income cell: the loop
      stops at the first unreadable cell, and `nth(index).unwrap()` is only
      evaluated once the expense cell of the column has converted. Columns
      `c` to `last` are the ones still to visit. */
  predicate IncomePresentFrom(expenses: seq<Reading>, incomes: seq<Reading>, last: nat, c: nat)
    requires last < |expenses|
    decreases last + 1 - c
  {
    c > last
    || expenses[c].value.None?
    || (c < |incomes| && (incomes[c].value.None? || IncomePresentFrom(expenses, incomes, last, c + 1)))
  }

  /** The month loop of the source runs without panicking: the expense
      record has its name and total columns (otherwise `len - 2`
      underflows), and the income record has a cell at every column the
      loop reaches. */
  predicate MonthLoopDefined(expenseRow: Record, incomeRow: Record)
  {
    |expenseRow| >= 2 && IncomePresentFrom(Read(expenseRow), Read(incomeRow), NumMonths(expenseRow), 1)
  }

  /** Column `c` holds a number in both records. */
  predicate ColumnReads(expenses: seq<Reading>, incomes: seq<Reading>, c: nat)
    requires c < |expenses|
  {
    expenses[c].value.Some? && c < |incomes| && incomes[c].value.Some?
  }

  /** The month column `c` holds, when both cells are numbers. */
  function MonthIn(expenses: seq<Reading>, incomes: seq<Reading>, c: nat): (m: Month)
    requires c < |expenses| && ColumnReads(expenses, incomes, c)
  {
    Month(expenses[c].value.value, incomes[c].value.value)
  }

  /** The cell reported for an unreadable column: the expense cell is read
      first, then the income cell. */
  function BadCell(expenses: seq<Reading>, incomes: seq<Reading>, c: nat): (cell: string)
    requires c < |expenses| && (expenses[c].value.None? || c < |incomes|)
  {
    if expenses[c].value.None? then expenses[c].text else incomes[c].text
  }

  /** The loop reaches a missing income cell exactly when some column's
      expense cell converts, the income record ends before that column,
      and every earlier column read as a month. */
  lemma {:induction false} MissingIncomeReached(expenses: seq<Reading>, incomes: seq<Reading>, last: nat, c: nat)
    requires last < |expenses|
    ensures !IncomePresentFrom(expenses, incomes, last, c) <==>
              exists k :: c <= k <= last && |incomes| <= k && expenses[k].value.Some?
                && forall j :: c <= j < k ==> ColumnReads(expenses, incomes, j)
    decreases last + 1 - c
  {
    if c <= last {
      MissingIncomeReached(expenses, incomes, last, c + 1);
      if !IncomePresentFrom(expenses, incomes, last, c) && c < |incomes| {
        var k :| c + 1 <= k <= last && |incomes| <= k && expenses[k].value.Some?
                 && forall j :: c + 1 <= j < k ==> ColumnReads(expenses, incomes, j);
        assert forall j :: c <= j < k ==> ColumnReads(expenses, incomes, j);
      }
      if exists k :: c <= k <= last && |incomes| <= k && expenses[k].value.Some?
                       && forall j :: c <= j < k ==> ColumnReads(expenses, incomes, j) {
        var k :| c <= k <= last && |incomes| <= k && expenses[k].value.Some?
                 && forall j :: c <= j < k ==> ColumnReads(expenses, incomes, j);
        if k > c {
          assert ColumnReads(expenses, incomes, c);
          assert forall j :: c + 1 <= j < k ==> ColumnReads(expenses, incomes, j);
        }
      }
    }
  }

  /** An income record as long as the expense record without its total
      column always has the cells the loop asks for. */
  lemma {:induction false} IncomePresentWhenLongEnough(expenses: seq<Reading>, incomes: seq<Reading>, last: nat, c: nat)
    requires last < |expenses| && last < |incomes|
    ensures IncomePresentFrom(expenses, incomes, last, c)
    decreases last + 1 - c
  {
    if c <= last {
      IncomePresentWhenLongEnough(expenses, incomes, last, c + 1);
    }
  }

  /** Records of matching width never make the month loop panic. */
  lemma AlignedRecordsDefined(expenseRow: Record, incomeRow: Record)
    requires |expenseRow| >= 2 && |incomeRow| + 1 >= |expenseRow|
    ensures MonthLoopDefined(expenseRow, incomeRow)
  {
    IncomePresentWhenLongEnough(Read(expenseRow), Read(incomeRow), NumMonths(expenseRow), 1);
  }

  /** The months of columns `c` to `last`, or the first cell among them
      that holds no number. */
  function ReadFrom(expenses: seq<Reading>, incomes: seq<Reading>, last: nat, c: nat): (r: Result<seq<Month>, SavingsError>)
    requires last < |expenses| && 1 <= c <= last + 1
    requires IncomePresentFrom(expenses, incomes, last, c)
    ensures r.Success? <==> forall i :: c <= i <= last ==> ColumnReads(expenses, incomes, i)
    ensures r.Success? ==>
              && |r.value| == last + 1 - c
              && forall i :: c <= i <= last ==>
                   ColumnReads(expenses, incomes, i) && r.value[i - c] == MonthIn(expenses, incomes, i)
    ensures r.Failure? ==>
              exists i :: c <= i <= last
                && !ColumnReads(expenses, incomes, i)
                && (forall j :: c <= j < i ==> ColumnReads(expenses, incomes, j))
                && (expenses[i].value.None? || i < |incomes|)
                && r.error == Unparsable(BadCell(expenses, incomes, i))
    decreases last + 1 - c
  {
    if c == last + 1 then
      Success([])
    else if !ColumnReads(expenses, incomes, c) then
      Failure(Unparsable(BadCell(expenses, incomes, c)))
    else
      match ReadFrom(expenses, incomes, last, c + 1)
      case Failure(e) => Failure(e)
      case Success(rest) => Success([MonthIn(expenses, incomes, c)] + rest)
  }

  /** Every month column of the two totals records, read in column order,
      or the first cell that is not a number (the expense cell before the
      income cell of the same column). Month `k` is column `k + 1`. */
  function ParseMonths(expenseRow: Record, incomeRow: Record): (r: Result<seq<Month>, SavingsError>)
    requires MonthLoopDefined(expenseRow, incomeRow)
    ensures var expenses, incomes := Read(expenseRow), Read(incomeRow);
            var last := NumMonths(expenseRow);
            && (r.Success? <==> forall i :: 1 <= i <= last ==> ColumnReads(expenses, incomes, i))
            && (r.Success? ==>
                  && |r.value| == last
                  && forall i :: 1 <= i <= last ==>
                       ColumnReads(expenses, incomes, i) && r.value[i - 1] == MonthIn(expenses, incomes, i))
            && (r.Failure? ==>
                  exists i :: 1 <= i <= last
                    && !ColumnReads(expenses, incomes, i)
                    && (forall j :: 1 <= j < i ==> ColumnReads(expenses, incomes, j))
                    && (expenses[i].value.None? || i < |incomes|)
                    && r.error == Unparsable(BadCell(expenses, incomes, i)))
  {
    ReadFrom(Read(expenseRow), Read(incomeRow), NumMonths(expenseRow), 1)
  }

  /** Records whose widths differ still parse, up to the first unreadable
      cell, as long as the loop stops before the income record runs out. */
  lemma ShortIncomeRecordExamples()
    ensures MonthLoopDefined(["total", "n/a", "0"], ["total"])
    ensures ParseMonths(["total", "n/a", "0"], ["total"]) == Failure(Unparsable("n/a"))
    ensures MonthLoopDefined(["total", "1", "2", "3", "6"], ["total", "x"])
    ensures ParseMonths(["total", "1", "2", "3", "6"], ["total", "x"]) == Failure(Unparsable("x"))
    ensures !MonthLoopDefined(["total", "1", "2"], ["total"])
  {
    var e1, i1 := Read(["total", "n/a", "0"]), Read(["total"]);
    assert CellValue("n/a") == None;
    assert e1[1].value.None?;
    var e2, i2 := Read(["total", "1", "2", "3", "6"]), Read(["total", "x"]);
    assert CellValue("x") == None;
    assert CellValue("1") == Some(1.0) by { ParseDigits("1"); }
    assert e2[1].value.Some? && i2[1].value.None?;
    var e3, i3 := Read(["total", "1", "2"]), Read(["total"]);
    assert e3[1].value.Some?;
  }

  /** What the readings of column `c` say about the record cells. */
  lemma ColumnReadsCells(expenseRow: Record, incomeRow: Record, c: nat)
    requires c < |expenseRow|
    ensures ColumnReads(Read(expenseRow), Read(incomeRow), c) <==>
              CellValue(expenseRow[c]).Some? && c < |incomeRow| && CellValue(incomeRow[c]).Some?
    ensures ColumnReads(Read(expenseRow), Read(incomeRow), c) ==>
              MonthIn(Read(expenseRow), Read(incomeRow), c)
                == Month(CellValue(expenseRow[c]).value, CellValue(incomeRow[c]).value)
    ensures !ColumnReads(Read(expenseRow), Read(incomeRow), c) && (CellValue(expenseRow[c]).None? || c < |incomeRow|) ==>
              BadCell(Read(expenseRow), Read(incomeRow), c)
                == if CellValue(expenseRow[c]).None? then expenseRow[c] else incomeRow[c]
  {
  }

  /** `ReadFrom` reads nothing outside columns `c` to `last`. */
  lemma {:induction false} ReadFromColumns(
    expenses: seq<Reading>, incomes: seq<Reading>,
    expenses': seq<Reading>, incomes': seq<Reading>, last: nat, c: nat)
    requires last < |expenses| && last < |expenses'| && |incomes| == |incomes'|
    requires 1 <= c <= last + 1
    requires forall k :: c <= k <= last ==> expenses[k] == expenses'[k]
    requires forall k :: c <= k <= last && k < |incomes| ==> incomes[k] == incomes'[k]
    requires IncomePresentFrom(expenses, incomes, last, c)
    ensures IncomePresentFrom(expenses', incomes', last, c)
    ensures ReadFrom(expenses, incomes, last, c) == ReadFrom(expenses', incomes', last, c)
    decreases last + 1 - c
  {
    if c <= last && ColumnReads(expenses, incomes, c) {
      ReadFromColumns(expenses, incomes, expenses', incomes', last, c + 1);
    }
  }

  /** The account-name column and the total column are never read: the
      months come out the same whatever those cells hold. */
  lemma ParseMonthsSkipsNameAndTotal(expenseRow: Record, incomeRow: Record, name: string, total: string)
    requires MonthLoopDefined(expenseRow, incomeRow)
    ensures var expenseRow' := expenseRow[0 := name][|expenseRow| - 1 := total];
            var incomeRow' := if |incomeRow| == 0 then incomeRow else incomeRow[0 := name];
            && MonthLoopDefined(expenseRow', incomeRow')
            && ParseMonths(expenseRow', incomeRow') == ParseMonths(expenseRow, incomeRow)
  {
    var expenseRow' := expenseRow[0 := name][|expenseRow| - 1 := total];
    var incomeRow' := if |incomeRow| == 0 then incomeRow else incomeRow[0 := name];
    var last := NumMonths(expenseRow);
    forall k | 1 <= k <= last
      ensures Read(expenseRow)[k] == Read(expenseRow')[k]
    {
      assert expenseRow'[k] == expenseRow[k];
    }
    forall k | 1 <= k <= last && k < |incomeRow|
      ensures Read(incomeRow)[k] == Read(incomeRow')[k]
    {
      assert incomeRow'[k] == incomeRow[k];
    }
    ReadFromColumns(Read(expenseRow), Read(incomeRow), Read(expenseRow'), Read(incomeRow'), last, 1);
  }

  /** What the source hands on: the plotted points `(month, rate * 100)`,
      the average rate, and the average daily expense and income. */
  datatype Series = Series(points: seq<(real, real)>, cumulativeRate: real, avgDailyExpense: real, avgDailyIncome: real)

  predicate AllBounded(months: seq<Month>)
  {
    forall k :: 0 <= k < |months| ==> SavingsRate(months[k]).Rate?
  }

  /** The first month without a finite rate, or `|months|` when every
      month has one. */
  function FirstUnbounded(months: seq<Month>): (k: nat)
    ensures k <= |months|
    ensures forall j :: 0 <= j < k ==> SavingsRate(months[j]).Rate?
    ensures k < |months| ==> SavingsRate(months[k]).Unbounded?
  {
    if |months| == 0 then 0
    else if SavingsRate(months[0]).Unbounded? then 0
    else 1 + FirstUnbounded(months[1..])
  }

  function Rates(months: seq<Month>): (rs: seq<real>)
    requires AllBounded(months)
    ensures |rs| == |months|
    ensures forall k :: 0 <= k < |months| ==> rs[k] == SavingsRate(months[k]).value
  {
    seq(|months|, k requires 0 <= k < |months| => SavingsRate(months[k]).value)
  }

  function ExpensesOf(months: seq<Month>): (xs: seq<real>)
    ensures |xs| == |months|
    ensures forall k :: 0 <= k < |months| ==> xs[k] == months[k].expenses
  {
    seq(|months|, k requires 0 <= k < |months| => months[k].expenses)
  }

  function IncomesOf(months: seq<Month>): (xs: seq<real>)
    ensures |xs| == |months|
    ensures forall k :: 0 <= k < |months| ==> xs[k] == months[k].income
  {
    seq(|months|, k requires 0 <= k < |months| => months[k].income)
  }

  /** A running total, as the month loop keeps one. */
  method RunningSum(xs: seq<real>) returns (t: real)
    ensures t == Sum(xs)
  {
    t := 0.0;
    var k := 0;
    while k < |xs|
      invariant 0 <= k <= |xs|
      invariant t == Sum(xs[..k])
    {
      assert xs[..k + 1] == xs[..k] + [xs[k]];
      SumSnoc(xs[..k], xs[k]);
      t := t + xs[k];
      k := k + 1;
    }
    assert xs[..k] == xs;
  }

  /** The accumulation of the month loop, given each month's rate and its
      expense and income figures. */
  method Accumulate(rates: seq<real>, expenses: seq<real>, incomes: seq<real>) returns (s: Series)
    requires |rates| > 0 && |expenses| == |rates| && |incomes| == |rates|
    ensures |s.points| == |rates|
    ensures forall k :: 0 <= k < |rates| ==> s.points[k] == (k as real, rates[k] * 100.0)
    ensures s.cumulativeRate == Mean(rates)
    ensures s.avgDailyExpense == Mean(Divide(expenses, 30.0))
    ensures s.avgDailyIncome == Mean(Divide(incomes, 30.0))
  {
    var points: seq<(real, real)> := [];
    var k := 0;
    while k < |rates|
      invariant 0 <= k <= |rates|
      invariant |points| == k
      invariant forall j :: 0 <= j < k ==> points[j] == (j as real, rates[j] * 100.0)
    {
      points := points + [(k as real, rates[k] * 100.0)];
      k := k + 1;
    }
    var rateSum := RunningSum(rates);
    var expenseSum := RunningSum(Divide(expenses, 30.0));
    var incomeSum := RunningSum(Divide(incomes, 30.0));
    var n := |rates| as real;
    s := Series(points, rateSum / n, expenseSum / n, incomeSum / n);
  }

  /** What the month loop reports for `months`. No months is `NoMonths`;
      otherwise it succeeds exactly when every month has a finite rate, and
      names the first month without one when it does not. A success has one
      point per month, at x = 0, 1, ... in month order, plotting the rate as
      a percentage; the average rate is the mean of the monthly rates; the
      daily averages are the monthly means over a 30-day month. */
  predicate LoopReports(months: seq<Month>, r: Result<Series, SavingsError>)
  {
    && (|months| == 0 ==> r == Failure(NotFinite(NoMonths)))
    && (r.Success? <==> |months| > 0 && AllBounded(months))
    && (r.Failure? && |months| > 0 ==>
          && r.error.NotFinite? && r.error.cause.UnboundedRate?
          && r.error.cause.month < |months|
          && SavingsRate(months[r.error.cause.month]).Unbounded?
          && forall j :: 0 <= j < r.error.cause.month ==> SavingsRate(months[j]).Rate?)
    && (r.Success? ==>
          && |r.value.points| == |months|
          && (forall k :: 0 <= k < |months| ==>
                r.value.points[k] == (k as real, SavingsRate(months[k]).value * 100.0))
          && r.value.cumulativeRate == Mean(Rates(months))
          && r.value.avgDailyExpense == Mean(Divide(ExpensesOf(months), 30.0))
          && r.value.avgDailyIncome == Mean(Divide(IncomesOf(months), 30.0)))
  }

  /** The month loop, from the parsed months to the series it hands on. */
  method ComputeSeries(months: seq<Month>) returns (r: Result<Series, SavingsError>)
    ensures LoopReports(months, r)
  {
    if |months| == 0 {
      return Failure(NotFinite(NoMonths));
    }
    var unbounded := FirstUnbounded(months);
    if unbounded < |months| {
      return Failure(NotFinite(UnboundedRate(unbounded)));
    }
    var series := Accumulate(Rates(months), ExpensesOf(months), IncomesOf(months));
    r := Success(series);
  }

  /** Averaging the daily figures of 30-day months is averaging the
      monthly figures and spreading the result over 30 days. */
  lemma DailyMean(xs: seq<real>)
    requires |xs| > 0
    ensures Mean(Divide(xs, 30.0)) * 30.0 == Mean(xs)
  {
    var n := |xs| as real;
    SumDivide(xs, 30.0);
    assert Sum(Divide(xs, 30.0)) * 30.0 == Sum(xs);
    calc {
      Mean(Divide(xs, 30.0)) * 30.0;
      (Sum(Divide(xs, 30.0)) / n) * 30.0;
      (Sum(Divide(xs, 30.0)) * 30.0) / n;
      Sum(xs) / n;
    }
  }

  /** The whole computation from the two reports' records: the totals
      record is the last one of each report; no records at all is an
      error for either report, reported for the expenses first. */
  method SavingsReport(expenseRecords: seq<Record>, incomeRecords: seq<Record>) returns (r: Result<Series, SavingsError>)
    requires |expenseRecords| > 0 && |incomeRecords| > 0 ==>
               MonthLoopDefined(expenseRecords[|expenseRecords| - 1], incomeRecords[|incomeRecords| - 1])
    ensures |expenseRecords| == 0 ==> r == Failure(NoExpensesRecorded)
    ensures |expenseRecords| > 0 && |incomeRecords| == 0 ==> r == Failure(NoIncomeRecorded)
    ensures |expenseRecords| > 0 && |incomeRecords| > 0 ==>
              var expenseRow := expenseRecords[|expenseRecords| - 1];
              var parsed := ParseMonths(expenseRow, incomeRecords[|incomeRecords| - 1]);
              && (parsed.Failure? ==> r == Failure(parsed.error))
              && (parsed.Success? ==> |parsed.value| == NumMonths(expenseRow) && LoopReports(parsed.value, r))
  {
    if |expenseRecords| == 0 {
      return Failure(NoExpensesRecorded);
    }
    if |incomeRecords| == 0 {
      return Failure(NoIncomeRecorded);
    }
    var expenseRow := expenseRecords[|expenseRecords| - 1];
    var incomeRow := incomeRecords[|incomeRecords| - 1];
    var parsed := ParseMonths(expenseRow, incomeRow);
    if parsed.Failure? {
      return Failure(parsed.error);
    }
    r := ComputeSeries(parsed.value);
  }

  /** The worked example: expenses 100 and 200 against incomes of 200 each
      save half in the first month and nothing in the second, a quarter on
      average. The plotted steps are (0, 50) and (1, 0), and the average is
      shown as 25, in yellow. */
  lemma SeriesExample()
    ensures var months := [Month(100.0, 200.0), Month(200.0, 200.0)];
            && AllBounded(months)
            && Rates(months) == [0.5, 0.0]
            && (forall k :: 0 <= k < 2 ==>
                  (k as real, Rates(months)[k] * 100.0) == [(0.0, 50.0), (1.0, 0.0)][k])
            && Mean(Rates(months)) == 0.25
            && Mean(Rates(months)) * 100.0 == 25.0
            && Classify(Mean(Rates(months)) * 100.0) == Yellow
  {
    var months := [Month(100.0, 200.0), Month(200.0, 200.0)];
    assert Rates(months) == [0.5, 0.0];
    assert [0.5, 0.0][..1] == [0.5];
    assert Sum([0.5]) == 0.5 by { assert [0.5][..0] == []; }
  }

  /** The three long-horizon figures. */
  datatype Projection = Projection(fire: real, aaw: real, paw: real)

  /** The age the wealth benchmarks assume. */
  const BenchmarkAge: real := 23.0

  function Annual(daily: real): (yearly: real)
  {
    daily * 365.0
  }

  /** Expected net worth for an annual income: age times income over ten. */
  function ExpectedNetWorth(annualIncome: real): (worth: real)
  {
    BenchmarkAge * annualIncome / 10.0
  }

  /** The FIRE target is 25 years of expenses; the AAW and PAW figures are
      the distances of the liabilities from half and from twice the
      expected net worth. Both distances are never negative. */
  function Projections(avgDailyExpense: real, avgDailyIncome: real, liabilities: real): (p: Projection)
    ensures p.fire == 25.0 * Annual(avgDailyExpense)
    ensures p.aaw == Abs(ExpectedNetWorth(Annual(avgDailyIncome)) / 2.0 - liabilities)
    ensures p.paw == Abs(ExpectedNetWorth(Annual(avgDailyIncome)) * 2.0 - liabilities)
    ensures p.aaw >= 0.0 && p.paw >= 0.0
  {
    Projection(
      avgDailyExpense * 365.0 * 25.0,
      Abs(avgDailyIncome * 365.0 * 23.0 / 10.0 / 2.0 - liabilities),
      Abs(avgDailyIncome * 365.0 * 23.0 / 10.0 * 2.0 - liabilities))
  }

  /** The PAW benchmark is four times the AAW benchmark, so with a
      non-negative income and liabilities below the AAW benchmark the PAW
      distance exceeds the AAW distance by three AAW benchmarks. */
  lemma PawExceedsAaw(avgDailyExpense: real, avgDailyIncome: real, liabilities: real)
    requires avgDailyIncome >= 0.0
    requires liabilities <= ExpectedNetWorth(Annual(avgDailyIncome)) / 2.0
    ensures var p := Projections(avgDailyExpense, avgDailyIncome, liabilities);
            p.paw - p.aaw == 3.0 * (ExpectedNetWorth(Annual(avgDailyIncome)) / 2.0)
  {
  }

  /** The colour the average rate is shown in. */
  datatype Band = Red | Yellow | Green

  /** `current_rate_colored`: not positive is red, up to fifty is yellow,
      above fifty is green. */
  function Classify(value: real): (b: Band)
    ensures b == Red <==> value <= 0.0
    ensures b == Yellow <==> 0.0 < value <= 50.0
    ensures b == Green <==> value > 50.0
  {
    if value <= 0.0 then Red
    else if value > 0.0 && value <= 50.0 then Yellow
    else Green
  }

  function BandRank(b: Band): (rank: nat)
  {
    match b
    case Red => 0
    case Yellow => 1
    case Green => 2
  }

  /** A higher rate never gets a worse colour. */
  lemma ClassifyMonotone(v: real, w: real)
    requires v <= w
    ensures BandRank(Classify(v)) <= BandRank(Classify(w))
  {
  }

  /** The band of the average rate, shown as a percentage. */
  function AverageRateBand(s: Series): (b: Band)
    ensures b == Green <==> s.cumulativeRate > 0.5
    ensures b == Red <==> s.cumulativeRate <= 0.0
  {
    Classify(s.cumulativeRate * 100.0)
  }
}
