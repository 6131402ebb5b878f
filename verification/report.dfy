/** The decoded shapes of hledger's JSON balance reports (src/types.rs) and
    the accessors that flatten them into plain values. Amounts are `real`
    where the source has `f32`. */
module Report {
  import opened Wrappers
  import opened Numbers

  /** Which side of the number the commodity symbol is printed on. */
  datatype Side = Left | Right

  datatype SideError = UnknownSide(value: string)

  /** The serialized form of a side. */
  function SideName(side: Side): (name: string)
    ensures |name| == 1
    ensures name == "L" || name == "R"
    ensures name == "L" <==> side == Left
  {
    match side
    case Left => "L"
    case Right => "R"
  }

  /** The deserializer: exactly "L" and "R" are accepted; anything else is
      rejected, naming the offending string. */
  function ParseSide(value: string): (r: Result<Side, SideError>)
    ensures r == Success(Left) <==> value == "L"
    ensures r == Success(Right) <==> value == "R"
    ensures r.Failure? <==> value != "L" && value != "R"
    ensures r.Failure? ==> r.error == UnknownSide(value)
  {
    if value == "L" then Success(Left)
    else if value == "R" then Success(Right)
    else Failure(UnknownSide(value))
  }

  /** Serializing then deserializing gives the side back. */
  lemma SideRoundTrip(side: Side)
    ensures ParseSide(SideName(side)) == Success(side)
  {
  }

  /** Deserializing then serializing gives the accepted string back. */
  lemma SideNameOfParsed(value: string)
    requires ParseSide(value).Success?
    ensures SideName(ParseSide(value).value) == value
  {
  }

  /** A quantity; only the floating value is read downstream. */
  datatype Quantity = Quantity(floatingPoint: real)

  /** Display style; only the symbol side is kept. */
  datatype Style = Style(commoditySide: Side)

  /** One amount of one commodity. */
  datatype Commodity = Commodity(symbol: string, quantity: Quantity, style: Style)

  /** One reporting period, as an opaque pair of dates. */
  datatype DateSpan = DateSpan(startDate: string, endDate: string)

  /** The span attached to values that belong to no period. */
  const NoSpan := DateSpan("", "")

  /** One account's row of a multi-period report: per-period amounts. */
  datatype PeriodReportRow = PeriodReportRow(name: string, amounts: seq<seq<Commodity>>)

  /** The report-wide totals row: per-period amounts, where an empty slot
      means a zero balance for that period. */
  datatype PeriodReportTotal = PeriodReportTotal(names: seq<string>, amounts: seq<seq<Commodity>>)

  datatype PeriodReport = PeriodReport(dates: seq<DateSpan>, rows: seq<PeriodReportRow>, totals: PeriodReportTotal)

  /** A flattened amount: what the accessors hand out. */
  datatype AccountValue = AccountValue(amount: real, commodity: string, dateRange: DateSpan)

  /** One account's share of a period total. */
  datatype ExpenseReport = ExpenseReport(amount: real, accountLabel: string)

  /** An account line of a single-period report: a name, the name shown
      for it, its nesting depth and its amounts. */
  datatype BalanceListing = BalanceListing(name: string, displayName: string, depth: nat, amounts: seq<Commodity>)

  /** An element of a single-period report: an account line or a bare
      total amount. */
  datatype Balance = Account(listing: BalanceListing) | Total(total: Commodity)

  /** A single-period report: the account lines, then the totals. */
  datatype BalanceAccount = BalanceAccount(rows: seq<seq<Balance>>)

  /** The report's period spans and total slots line up one to one. */
  predicate WellFormed(report: PeriodReport)
  {
    |report.dates| == |report.totals.amounts|
  }

  /** The number of periods the report covers; in a well-formed report it
      is also the number of total slots. */
  function NumDates(report: PeriodReport): (n: nat)
    ensures WellFormed(report) ==> n == |report.totals.amounts|
  {
    |report.dates|
  }

  /** The flattened value of one commodity amount, tagged with `span`. */
  function ValueOf(c: Commodity, span: DateSpan): (v: AccountValue)
  {
    AccountValue(c.quantity.floatingPoint, c.symbol, span)
  }

  /** When `total_at_index` does not panic: the slot exists, and every
      date it reads exists. An empty slot reads `dates[index]`; a filled
      slot reads `dates[j]` for every position `j` in the slot. */
  predicate TotalAtIndexDefined(report: PeriodReport, index: nat)
  {
    && index < |report.totals.amounts|
    && (if |report.totals.amounts[index]| == 0 then index < |report.dates|
        else |report.totals.amounts[index]| <= |report.dates|)
  }

  /** `total_at_index` as written. An empty slot stands for one zero USD
      value in the period `index`. A filled slot yields one value per
      commodity in slot order, but the loop's position variable shadows
      `index`, so the j-th value carries the span of period j. */
  function TotalAtIndex(report: PeriodReport, index: nat): (vs: seq<AccountValue>)
    requires TotalAtIndexDefined(report, index)
    ensures |vs| >= 1
    ensures |report.totals.amounts[index]| == 0 ==>
              vs == [AccountValue(0.0, "USD", report.dates[index])]
    ensures |report.totals.amounts[index]| > 0 ==>
              && |vs| == |report.totals.amounts[index]|
              && forall j :: 0 <= j < |vs| ==>
                   && vs[j].amount == report.totals.amounts[index][j].quantity.floatingPoint
                   && vs[j].commodity == report.totals.amounts[index][j].symbol
                   && vs[j].dateRange == report.dates[j]
  {
    var slot := report.totals.amounts[index];
    if |slot| == 0 then
      [AccountValue(0.0, "USD", report.dates[index])]
    else
      seq(|slot|, j requires 0 <= j < |slot| => ValueOf(slot[j], report.dates[j]))
  }

  /** The period lookup as evidently intended: every value of the slot is
      tagged with the span of the period asked for. */
  function TotalForPeriod(report: PeriodReport, index: nat): (vs: seq<AccountValue>)
    requires index < |report.totals.amounts| && index < |report.dates|
    ensures |vs| >= 1
    ensures forall v :: v in vs ==> v.dateRange == report.dates[index]
    ensures |report.totals.amounts[index]| == 0 ==> vs == [AccountValue(0.0, "USD", report.dates[index])]
    ensures |report.totals.amounts[index]| > 0 ==>
              && |vs| == |report.totals.amounts[index]|
              && forall j :: 0 <= j < |vs| ==>
                   vs[j] == ValueOf(report.totals.amounts[index][j], report.dates[index])
  {
    var slot := report.totals.amounts[index];
    if |slot| == 0 then
      [AccountValue(0.0, "USD", report.dates[index])]
    else
      seq(|slot|, j requires 0 <= j < |slot| => ValueOf(slot[j], report.dates[index]))
  }

  /** Being well formed does not make `total_at_index` safe for every
      period below `num_dates`: the lookup of a filled slot reads one span
      per commodity, so it panics exactly when the slot holds more
      commodities than the report has periods. */
  lemma TotalAtIndexDefinedInPeriods(report: PeriodReport, index: nat)
    requires WellFormed(report)
    requires index < NumDates(report)
    ensures TotalAtIndexDefined(report, index) <==> |report.totals.amounts[index]| <= NumDates(report)
  {
  }

  /** A well-formed one-period report whose only slot holds two
      commodities: the lookup of its one period is not defined. */
  lemma TotalAtIndexPanicsOnExtraCommodity()
    ensures var usd := Commodity("USD", Quantity(1.0), Style(Left));
            var eur := Commodity("EUR", Quantity(2.0), Style(Right));
            var report := PeriodReport(
              [DateSpan("2021-12-01", "2022-01-01")],
              [],
              PeriodReportTotal([], [[usd, eur]]));
            && WellFormed(report)
            && 0 < NumDates(report)
            && !TotalAtIndexDefined(report, 0)
  {
  }

  /** The two lookups agree on amounts and commodities and differ only in
      the spans; the spans agree on the first period and on empty slots. */
  lemma TotalAtIndexMatchesAmounts(report: PeriodReport, index: nat)
    requires TotalAtIndexDefined(report, index) && index < |report.dates|
    ensures |TotalAtIndex(report, index)| == |TotalForPeriod(report, index)|
    ensures forall j :: 0 <= j < |TotalAtIndex(report, index)| ==>
              && TotalAtIndex(report, index)[j].amount == TotalForPeriod(report, index)[j].amount
              && TotalAtIndex(report, index)[j].commodity == TotalForPeriod(report, index)[j].commodity
    ensures index == 0 && |report.totals.amounts[index]| <= 1 ==>
              TotalAtIndex(report, index) == TotalForPeriod(report, index)
  {
  }

  /** The discrepancy for every input: a filled slot's first value carries
      the span of period 0, so it is wrong whenever that span differs from
      the span of the period asked for. */
  lemma TotalAtIndexTagsFirstPeriod(report: PeriodReport, index: nat)
    requires TotalAtIndexDefined(report, index)
    requires |report.totals.amounts[index]| > 0 && index < |report.dates|
    requires report.dates[0] != report.dates[index]
    ensures TotalAtIndex(report, index)[0].dateRange == report.dates[0]
    ensures TotalAtIndex(report, index)[0] != TotalForPeriod(report, index)[0]
  {
  }

  /** A concrete two-month report: asking for the second month's total
      returns a value labelled with the first month. */
  lemma TotalAtIndexMislabelsSecondMonth()
    ensures var c := Commodity("USD", Quantity(396.5), Style(Left));
            var report := PeriodReport(
              [DateSpan("2021-11-01", "2021-12-01"), DateSpan("2021-12-01", "2022-01-01")],
              [],
              PeriodReportTotal([], [[c], [c]]));
            && TotalAtIndex(report, 1) == [AccountValue(396.5, "USD", DateSpan("2021-11-01", "2021-12-01"))]
            && TotalForPeriod(report, 1) == [AccountValue(396.5, "USD", DateSpan("2021-12-01", "2022-01-01"))]
  {
  }

  /** The bare totals among the elements of a row, in order. */
  function TotalsIn(row: seq<Balance>): (cs: seq<Commodity>)
    ensures |cs| <= |row|
    ensures forall c :: c in cs ==> Total(c) in row
  {
    if |row| == 0 then []
    else (if row[0].Total? then [row[0].total] else []) + TotalsIn(row[1..])
  }

  /** The account lines among the elements of a row, in order. */
  function AccountsIn(row: seq<Balance>): (ls: seq<BalanceListing>)
    ensures |ls| <= |row|
    ensures forall l :: l in ls ==> Account(l) in row
  {
    if |row| == 0 then []
    else (if row[0].Account? then [row[0].listing] else []) + AccountsIn(row[1..])
  }

  /** Every element is either an account line or a total, never both. */
  lemma {:induction false} PartitionSizes(row: seq<Balance>)
    ensures |TotalsIn(row)| + |AccountsIn(row)| == |row|
    decreases |row|
  {
    if |row| > 0 {
      PartitionSizes(row[1..]);
    }
  }

  /** Both filters distribute over concatenation: an element's fate does
      not depend on its neighbours. */
  lemma FiltersAppend(a: seq<Balance>, b: seq<Balance>)
    ensures TotalsIn(a + b) == TotalsIn(a) + TotalsIn(b)
    ensures AccountsIn(a + b) == AccountsIn(a) + AccountsIn(b)
  {
    TotalsInAppend(a, b);
    AccountsInAppend(a, b);
  }

  lemma {:induction false} TotalsInAppend(a: seq<Balance>, b: seq<Balance>)
    ensures TotalsIn(a + b) == TotalsIn(a) + TotalsIn(b)
    decreases |a|
  {
    if |a| == 0 {
      assert a + b == b;
    } else {
      assert (a + b)[0] == a[0];
      assert (a + b)[1..] == a[1..] + b;
      TotalsInAppend(a[1..], b);
    }
  }

  lemma {:induction false} AccountsInAppend(a: seq<Balance>, b: seq<Balance>)
    ensures AccountsIn(a + b) == AccountsIn(a) + AccountsIn(b)
    decreases |a|
  {
    if |a| == 0 {
      assert a + b == b;
    } else {
      assert (a + b)[0] == a[0];
      assert (a + b)[1..] == a[1..] + b;
      AccountsInAppend(a[1..], b);
    }
  }

  /** A row made only of totals passes through the totals filter whole. */
  lemma {:induction false} TotalsInAllTotals(row: seq<Balance>)
    requires forall i :: 0 <= i < |row| ==> row[i].Total?
    ensures |TotalsIn(row)| == |row|
    ensures forall i :: 0 <= i < |row| ==> TotalsIn(row)[i] == row[i].total
    ensures AccountsIn(row) == []
    decreases |row|
  {
    if |row| > 0 {
      TotalsInAllTotals(row[1..]);
    }
  }

  /** A row made only of account lines passes through the accounts filter
      whole. */
  lemma {:induction false} AccountsInAllAccounts(row: seq<Balance>)
    requires forall i :: 0 <= i < |row| ==> row[i].Account?
    ensures |AccountsIn(row)| == |row|
    ensures forall i :: 0 <= i < |row| ==> AccountsIn(row)[i] == row[i].listing
    ensures TotalsIn(row) == []
    decreases |row|
  {
    if |row| > 0 {
      AccountsInAllAccounts(row[1..]);
    }
  }

  /** `get_totals`: the bare totals of the last row, in order, each as a
      value with no period. Account lines there are dropped without error,
      because the error raised for them is filtered away. */
  function GetTotals(b: BalanceAccount): (vs: seq<AccountValue>)
    requires |b.rows| > 0
    ensures |vs| == |TotalsIn(b.rows[|b.rows| - 1])|
    ensures forall k :: 0 <= k < |vs| ==> vs[k] == ValueOf(TotalsIn(b.rows[|b.rows| - 1])[k], NoSpan)
    ensures forall v :: v in vs ==> v.dateRange == NoSpan
  {
    var totals := TotalsIn(b.rows[|b.rows| - 1]);
    seq(|totals|, k requires 0 <= k < |totals| => ValueOf(totals[k], NoSpan))
  }

  /** Account lines anywhere in the last row leave the totals unchanged. */
  lemma GetTotalsIgnoresAccounts(rows: seq<seq<Balance>>, before: seq<Balance>, l: BalanceListing, after: seq<Balance>)
    ensures GetTotals(BalanceAccount(rows + [before + [Account(l)] + after]))
         == GetTotals(BalanceAccount(rows + [before + after]))
  {
    var with, without := before + [Account(l)] + after, before + after;
    assert (rows + [with])[|rows|] == with;
    assert (rows + [without])[|rows|] == without;
    TotalsInAppend(before, [Account(l)]);
    TotalsInAppend(before + [Account(l)], after);
    TotalsInAppend(before, after);
    assert TotalsIn([Account(l)]) == [];
    assert TotalsIn(with) == TotalsIn(without);
  }

  /** The amounts of the first account lines of `ls`, each the first
      commodity of its line. */
  predicate HasAmounts(ls: seq<BalanceListing>)
  {
    forall k :: 0 <= k < |ls| ==> |ls[k].amounts| > 0
  }

  function FirstAmounts(ls: seq<BalanceListing>): (xs: seq<real>)
    requires HasAmounts(ls)
    ensures |xs| == |ls|
    ensures forall k :: 0 <= k < |ls| ==> xs[k] == ls[k].amounts[0].quantity.floatingPoint
  {
    seq(|ls|, k requires 0 <= k < |ls| => ls[k].amounts[0].quantity.floatingPoint)
  }

  /** When `get_expense_report` does not panic: the report has a last row
      with at least one bare total, and every account line of the first row
      has a first commodity. */
  predicate ExpenseReportDefined(b: BalanceAccount)
  {
    && |b.rows| > 0
    && |TotalsIn(b.rows[|b.rows| - 1])| > 0
    && HasAmounts(AccountsIn(b.rows[0]))
  }

  /** `get_expense_report`: one share per account line of the first row, in
      order, labelled with the line's label, whose value times the first
      total is the line's first amount. Totals in the first row are
      dropped. The source divides by the first total without a guard;
      when that total is zero and there is something to divide, every
      share is non-finite and the model answers `None`. */
  function GetExpenseReport(b: BalanceAccount): (r: Option<seq<ExpenseReport>>)
    requires ExpenseReportDefined(b)
    ensures var total := GetTotals(b)[0].amount;
            var accounts := AccountsIn(b.rows[0]);
            && (r.None? <==> total == 0.0 && |accounts| > 0)
            && (r.Some? ==>
                  && |r.value| == |accounts|
                  && forall k :: 0 <= k < |accounts| ==>
                       && r.value[k].accountLabel == accounts[k].displayName
                       && r.value[k].amount * total == accounts[k].amounts[0].quantity.floatingPoint)
  {
    var total := GetTotals(b)[0].amount;
    var accounts := AccountsIn(b.rows[0]);
    if |accounts| == 0 then
      Some([])
    else if total == 0.0 then
      None
    else
      Some(seq(|accounts|, k requires 0 <= k < |accounts| =>
        ExpenseReport(accounts[k].amounts[0].quantity.floatingPoint / total, accounts[k].displayName)))
  }

  /** The share amounts of an expense report, in order. */
  function ShareAmounts(shares: seq<ExpenseReport>): (xs: seq<real>)
    ensures |xs| == |shares|
  {
    seq(|shares|, k requires 0 <= k < |shares| => shares[k].amount)
  }

  /** When the first total is exactly the sum of the accounts' first
      amounts, the shares add up to one. */
  lemma ExpenseSharesSumToOne(b: BalanceAccount)
    requires ExpenseReportDefined(b)
    requires |AccountsIn(b.rows[0])| > 0
    requires Sum(FirstAmounts(AccountsIn(b.rows[0]))) == GetTotals(b)[0].amount
    requires GetTotals(b)[0].amount != 0.0
    ensures GetExpenseReport(b).Some?
    ensures Sum(ShareAmounts(GetExpenseReport(b).value)) == 1.0
  {
    var total := GetTotals(b)[0].amount;
    SharesSumToOne(FirstAmounts(AccountsIn(b.rows[0])), ShareAmounts(GetExpenseReport(b).value), total);
  }

  /** The breakdown example: accounts worth 30 and 70 under a total of 100
      give shares 0.3 and 0.7. */
  lemma ExpenseReportExample()
    ensures var b := BalanceAccount([
              [Account(BalanceListing("Expenses:A", "A", 1, [Commodity("USD", Quantity(30.0), Style(Right))])),
               Account(BalanceListing("Expenses:B", "B", 1, [Commodity("USD", Quantity(70.0), Style(Right))]))],
              [Total(Commodity("USD", Quantity(100.0), Style(Right)))]]);
            && ExpenseReportDefined(b)
            && GetExpenseReport(b) == Some([ExpenseReport(0.3, "A"), ExpenseReport(0.7, "B")])
  {
    var la := BalanceListing("Expenses:A", "A", 1, [Commodity("USD", Quantity(30.0), Style(Right))]);
    var lb := BalanceListing("Expenses:B", "B", 1, [Commodity("USD", Quantity(70.0), Style(Right))]);
    var totals := [Total(Commodity("USD", Quantity(100.0), Style(Right)))];
    var b := BalanceAccount([[Account(la), Account(lb)], totals]);
    AccountsInAllAccounts([Account(la), Account(lb)]);
    TotalsInAllTotals(totals);
    assert AccountsIn(b.rows[0]) == [la, lb];
    assert GetTotals(b)[0].amount == 100.0;
    var r := GetExpenseReport(b).value;
    assert |r| == 2;
    assert r[0] == ExpenseReport(30.0 / 100.0, "A");
    assert r[1] == ExpenseReport(70.0 / 100.0, "B");
    assert r == [ExpenseReport(0.3, "A"), ExpenseReport(0.7, "B")];
  }
}
