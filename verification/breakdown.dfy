/** The data of the current month's expense pie chart (src/main.rs): one
    slice per expense record except the trailing total record, each the
    record's share of that total, with glyph and colour dealt round-robin
    from fixed five-entry palettes. */
module Breakdown {
  import opened Wrappers
  import opened Numbers
  import opened Cells

  datatype PieColour = Blue | Red | Green | Yellow | Purple

  /** The fill glyphs, in the order they are dealt. */
  const Fills: seq<char> := ['•', '▪', '▴', '░', '▀']

  /** The slice colours, in the order they are dealt. */
  const Colours: seq<PieColour> := [Blue, Red, Green, Yellow, Purple]

  datatype Slice = Slice(name: string, value: real, fill: char, colour: PieColour)

  datatype PieError =
    | UnreadableTotal(cell: string)  // the total cell is not a number
    | ZeroTotal                     // the total is zero: every share would be infinite or NaN

  /** Every record with its cells read. */
  function ReadAll(records: seq<Record>): (table: seq<seq<Reading>>)
  {
    seq(|records|, i requires 0 <= i < |records| => Read(records[i]))
  }

  /** The last cell of the last record: the month's total. */
  function TotalOf(table: seq<seq<Reading>>): (t: Reading)
    requires |table| > 0 && |table[|table| - 1]| > 0
    ensures t in table[|table| - 1]
  {
    var last := table[|table| - 1];
    last[|last| - 1]
  }

  /** When building the pie does not panic: there is a last record with a
      last cell, and once that total reads as a number, every other record
      has a label cell and a second cell that reads as a number. */
  predicate PieDefined(table: seq<seq<Reading>>)
  {
    && |table| > 0
    && |table[|table| - 1]| > 0
    && (TotalOf(table).value.Some? ==>
          forall i :: 0 <= i < |table| - 1 ==> |table[i]| >= 2 && table[i][1].value.Some?)
  }

  /** The amount of every record but the last, in order. */
  function Amounts(table: seq<seq<Reading>>): (xs: seq<real>)
    requires PieDefined(table) && TotalOf(table).value.Some?
  {
    seq(|table| - 1, i requires 0 <= i < |table| - 1 => table[i][1].value.value)
  }

  /** The pie: a slice per record but the last, in record order, named by
      the record's first cell, whose value times the total is the record's
      amount; glyph and colour of slice `i` are entry `i mod 5` of the
      palettes. A total that is not a number is the source's parse error;
      a zero total with at least one slice is where the source's shares
      stop being finite. */
  function PieOf(table: seq<seq<Reading>>): (r: Result<seq<Slice>, PieError>)
    requires PieDefined(table)
    ensures TotalOf(table).value.None? <==> r == Failure(UnreadableTotal(TotalOf(table).text))
    ensures r == Failure(ZeroTotal) <==> TotalOf(table).value == Some(0.0) && |table| > 1
    ensures r.Success? <==> TotalOf(table).value.Some? && (|table| == 1 || TotalOf(table).value.value != 0.0)
    ensures r.Success? ==>
              var total := TotalOf(table).value.value;
              && |r.value| == |table| - 1
              && forall i :: 0 <= i < |r.value| ==>
                   && r.value[i].name == table[i][0].text
                   && r.value[i].value * total == Amounts(table)[i]
                   && r.value[i].fill == Fills[i % 5]
                   && r.value[i].colour == Colours[i % 5]
  {
    match TotalOf(table).value
    case None => Failure(UnreadableTotal(TotalOf(table).text))
    case Some(total) =>
      if |table| == 1 then
        Success([])
      else if total == 0.0 then
        Failure(ZeroTotal)
      else
        var amounts := Amounts(table);
        Success(seq(|table| - 1, i requires 0 <= i < |table| - 1 =>
          Slice(table[i][0].text, amounts[i] / total, Fills[i % 5], Colours[i % 5])))
  }

  /** The total the pie is drawn against: the last cell of the last
      record, read as `string_to_f32` reads it. */
  lemma TotalOfRecords(records: seq<Record>)
    requires |records| > 0 && |records[|records| - 1]| > 0
    ensures var last := records[|records| - 1];
            TotalOf(ReadAll(records)) == Reading(last[|last| - 1], CellValue(last[|last| - 1]))
  {
  }

  /** The pie of the expense records as fetched, stated on the records'
      cells: the total is the last cell of the last record, and slice `i`
      is named by the first cell of record `i` and is its second cell's
      amount as a share of the total. */
  function PieData(records: seq<Record>): (r: Result<seq<Slice>, PieError>)
    requires PieDefined(ReadAll(records))
    ensures |records| > 0 && |records[|records| - 1]| > 0
    ensures var last := records[|records| - 1];
            var total := CellValue(last[|last| - 1]);
            && (r == Failure(UnreadableTotal(last[|last| - 1])) <==> total.None?)
            && (r == Failure(ZeroTotal) <==> total == Some(0.0) && |records| > 1)
            && (r.Success? <==> total.Some? && (|records| == 1 || total.value != 0.0))
            && (r.Success? ==>
                  && total.Some?
                  && |r.value| == |records| - 1
                  && forall i :: 0 <= i < |r.value| ==>
                       && |records[i]| >= 2
                       && r.value[i].name == records[i][0]
                       && CellValue(records[i][1]).Some?
                       && IsShare(r.value[i].value, total.value, CellValue(records[i][1]).value))
  {
    TotalOfRecords(records);
    SlicesOfRecords(records);
    PieOf(ReadAll(records))
  }

  /** The amount of record `i` is the number in its second cell. */
  lemma AmountsOfRecords(records: seq<Record>, i: nat)
    requires PieDefined(ReadAll(records)) && TotalOf(ReadAll(records)).value.Some?
    requires i < |records| - 1
    ensures |records[i]| >= 2
    ensures CellValue(records[i][1]) == Some(Amounts(ReadAll(records))[i])
  {
    var table := ReadAll(records);
    assert table[i] == Read(records[i]);
    assert table[i][1] == Reading(records[i][1], CellValue(records[i][1]));
  }

  /** `value` is the share `amount` has of `total`. */
  predicate IsShare(value: real, total: real, amount: real)
  {
    value * total == amount
  }

  /** Slice `i` is the share of record `i`'s amount in the total. */
  lemma SliceOfAmount(table: seq<seq<Reading>>, i: nat, total: real)
    requires PieDefined(table) && PieOf(table).Success?
    requires i < |PieOf(table).value|
    requires total == TotalOf(table).value.value
    ensures IsShare(PieOf(table).value[i].value, total, Amounts(table)[i])
  {
  }

  /** Each slice of the fetched records, stated on the cells it comes
      from. */
  lemma SlicesOfRecords(records: seq<Record>)
    requires PieDefined(ReadAll(records))
    ensures |records| > 0 && |records[|records| - 1]| > 0
    ensures var last := records[|records| - 1];
            var total := CellValue(last[|last| - 1]);
            var r := PieOf(ReadAll(records));
            r.Success? ==>
              && total.Some?
              && forall i :: 0 <= i < |r.value| ==>
                   && |records[i]| >= 2
                   && r.value[i].name == records[i][0]
                   && CellValue(records[i][1]).Some?
                   && IsShare(r.value[i].value, total.value, CellValue(records[i][1]).value)
  {
    TotalOfRecords(records);
    if PieOf(ReadAll(records)).Success? {
      forall i | 0 <= i < |PieOf(ReadAll(records)).value|
        ensures |records[i]| >= 2
        ensures PieOf(ReadAll(records)).value[i].name == records[i][0]
        ensures CellValue(records[i][1]).Some?
        ensures IsShare(PieOf(ReadAll(records)).value[i].value,
                        CellValue(records[|records| - 1][|records[|records| - 1]| - 1]).value,
                        CellValue(records[i][1]).value)
      {
        AmountsOfRecords(records, i);
        SliceOfAmount(ReadAll(records), i, CellValue(records[|records| - 1][|records[|records| - 1]| - 1]).value);
        assert ReadAll(records)[i][0] == Reading(records[i][0], CellValue(records[i][0]));
      }
    }
  }

  /** Glyphs and colours repeat every five slices. */
  lemma PaletteRoundRobin(table: seq<seq<Reading>>, i: nat)
    requires PieDefined(table) && PieOf(table).Success?
    requires i + 5 < |PieOf(table).value|
    ensures PieOf(table).value[i].fill == PieOf(table).value[i + 5].fill
    ensures PieOf(table).value[i].colour == PieOf(table).value[i + 5].colour
  {
    assert (i + 5) % 5 == i % 5;
  }

  /** The values of the slices, in slice order. */
  function SliceValues(slices: seq<Slice>): (xs: seq<real>)
    ensures |xs| == |slices|
    ensures forall i :: 0 <= i < |slices| ==> xs[i] == slices[i].value
  {
    seq(|slices|, i requires 0 <= i < |slices| => slices[i].value)
  }

  /** When the total is exactly the sum of the other records' amounts, the
      slices fill the whole pie. */
  lemma SlicesSumToOne(table: seq<seq<Reading>>)
    requires PieDefined(table) && PieOf(table).Success?
    requires |table| > 1
    requires Sum(Amounts(table)) == TotalOf(table).value.value
    ensures Sum(SliceValues(PieOf(table).value)) == 1.0
  {
    var total := TotalOf(table).value.value;
    assert |Amounts(table)| == |table| - 1 == |SliceValues(PieOf(table).value)|;
    forall i | 0 <= i < |Amounts(table)|
      ensures SliceValues(PieOf(table).value)[i] * total == Amounts(table)[i]
    {
      SliceOfAmount(table, i, total);
      assert IsShare(SliceValues(PieOf(table).value)[i], total, Amounts(table)[i]);
    }
    SharesSumToOne(Amounts(table), SliceValues(PieOf(table).value), total);
  }

  /** With a positive total and no negative amounts, every slice is a
      non-negative share of the total. */
  lemma SlicesNonNegative(table: seq<seq<Reading>>)
    requires PieDefined(table) && PieOf(table).Success?
    requires TotalOf(table).value.value > 0.0
    requires forall i :: 0 <= i < |table| - 1 ==> Amounts(table)[i] >= 0.0
    ensures forall i :: 0 <= i < |PieOf(table).value| ==> PieOf(table).value[i].value >= 0.0
  {
    var total := TotalOf(table).value.value;
    forall i | 0 <= i < |PieOf(table).value|
      ensures PieOf(table).value[i].value >= 0.0
    {
      assert PieOf(table).value[i].value == Amounts(table)[i] / total;
    }
  }
}
