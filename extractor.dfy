/**
 * Cleaning of the two workbooks once they are in memory: the shipment sheet
 * (`_clean_main_data`), the sales sheet (`_clean_sales_data`), and the file
 * names and record counts written beside the extracted tables.
 */
module Extractor {
  import opened Wrappers
  import opened Records
  import opened Seqs
  import opened Numbers
  import Text
  import Sheets

  // ============================================================ shipments

  /** A row that repeats the sheet's header, or has no status at all. */
  predicate IsHeaderRow(r: Shipment)
  {
    r.status.None? || r.status == Some(Other("Status")) || r.status == Some(Other("Delivery Status"))
  }

  predicate NotHeaderRow(r: Shipment)
  {
    !IsHeaderRow(r)
  }

  /** The rows the final status filter keeps. */
  predicate Known(r: Shipment)
  {
    KnownStatus(r.status)
  }

  /** The columns cleaning copies through untouched: everything but the dates, quantity, delay and id. */
  function Kept(r: Shipment): Shipment
  {
    r.(actualShip := Blank, requestedShip := Blank, date1 := Blank, date2 := Blank,
       quantity := Blank, delayDays := None, transactionId := None)
  }

  function KeptColumns(rows: seq<Shipment>): (ks: seq<Shipment>)
    ensures |ks| == |rows|
    ensures forall i :: 0 <= i < |rows| ==> ks[i] == Kept(rows[i])
  {
    seq(|rows|, i requires 0 <= i < |rows| => Kept(rows[i]))
  }

  /** Whether pandas leaves this column as datetime after the conversion attempts. */
  predicate Convertible(rd: Readers, cells: seq<Cell>)
  {
    IsDatetimeColumn(cells) || !rd.standardRaises(cells) || !rd.serialRaises(cells)
  }

  /**
   * One pass of the date loop: a datetime column is skipped; otherwise the
   * standard parse is used, the 1899-12-30 serial reading only if that
   * raises, and the column is left as it was if both raise.
   */
  function ConvertDateColumn(rd: Readers, rows: seq<Shipment>, c: DateCol): (rows': seq<Shipment>)
    ensures |rows'| == |rows|
    ensures forall i :: 0 <= i < |rows| ==> rows'[i] == WithDate(rows[i], c, DateOf(rows'[i], c))
    ensures IsDatetimeColumn(Column(rows', c)) <==> Convertible(rd, Column(rows, c))
    ensures IsDatetimeColumn(Column(rows, c)) ==> rows' == rows
    ensures !IsDatetimeColumn(Column(rows, c)) && !rd.standardRaises(Column(rows, c)) ==>
              forall i :: 0 <= i < |rows| ==> DayOf(DateOf(rows'[i], c)) == StandardDate(rd, DateOf(rows[i], c))
    ensures !IsDatetimeColumn(Column(rows, c)) && rd.standardRaises(Column(rows, c)) && !rd.serialRaises(Column(rows, c)) ==>
              forall i :: 0 <= i < |rows| ==> DayOf(DateOf(rows'[i], c)) == SerialDate(DateOf(rows[i], c))
    ensures !Convertible(rd, Column(rows, c)) ==> rows' == rows
  {
    var cells := Column(rows, c);
    if IsDatetimeColumn(cells) then
      WithOwnDate(rows, c);
      rows
    else
      var std := StandardColumn(rd, cells);
      if std.Some? then
        assert Column(WithColumn(rows, c, std.value), c) == std.value;
        WithColumn(rows, c, std.value)
      else
        var ser := SerialColumn(rd, cells);
        if ser.Some? then
          assert Column(WithColumn(rows, c, ser.value), c) == ser.value;
          WithColumn(rows, c, ser.value)
        else
          WithOwnDate(rows, c);
          rows
  }

  lemma WithOwnDate(rows: seq<Shipment>, c: DateCol)
    ensures forall i :: 0 <= i < |rows| ==> rows[i] == WithDate(rows[i], c, DateOf(rows[i], c))
  {
    forall i | 0 <= i < |rows| ensures rows[i] == WithDate(rows[i], c, DateOf(rows[i], c)) {
      match c { case ActualShip => case RequestedShip => case Date1 => case Date2 => }
    }
  }

  lemma KeptWithDate(before: seq<Shipment>, after: seq<Shipment>, c: DateCol)
    requires |after| == |before|
    requires forall i :: 0 <= i < |before| ==> after[i] == WithDate(before[i], c, DateOf(after[i], c))
    ensures KeptColumns(after) == KeptColumns(before)
  {
    forall i | 0 <= i < |after| ensures Kept(after[i]) == Kept(before[i]) {
      match c { case ActualShip => case RequestedShip => case Date1 => case Date2 => }
    }
  }

  /** The date loop run over the columns `cols`, in order. */
  function ConvertDates(rd: Readers, rows: seq<Shipment>, cols: seq<DateCol>): (rows': seq<Shipment>)
    ensures |rows'| == |rows|
    ensures KeptColumns(rows') == KeptColumns(rows)
  {
    if |cols| == 0 then rows
    else
      var before := ConvertDates(rd, rows, cols[..|cols| - 1]);
      var after := ConvertDateColumn(rd, before, cols[|cols| - 1]);
      KeptWithDate(before, after, cols[|cols| - 1]);
      after
  }

  /** `pd.to_numeric(df['Quantity'], errors='coerce')` */
  function CoerceQuantities(rd: Readers, rows: seq<Shipment>): (rows': seq<Shipment>)
    ensures |rows'| == |rows|
    ensures forall i :: 0 <= i < |rows| ==> rows'[i] == rows[i].(quantity := NumericCell(rd, rows[i].quantity))
  {
    seq(|rows|, i requires 0 <= i < |rows| => rows[i].(quantity := NumericCell(rd, rows[i].quantity)))
  }

  /** `df['Transaction_ID'] = range(1, len(df) + 1)` */
  function NumberRows(rows: seq<Shipment>): (rows': seq<Shipment>)
    ensures |rows'| == |rows|
    ensures forall i :: 0 <= i < |rows| ==> rows'[i] == rows[i].(transactionId := Some(i + 1))
  {
    seq(|rows|, i requires 0 <= i < |rows| => rows[i].(transactionId := Some(i + 1)))
  }

  const DateColumns: seq<DateCol> := [ActualShip, RequestedShip]

  /** The columns parsed after the ship dates, with no fallback. */
  const OtherDateColumns: seq<DateCol> := [Date1, Date2]

  /** `df[col] = pd.to_datetime(df[col], errors='coerce')` for each of `cols`, in order. */
  function ParseDates(rd: Readers, rows: seq<Shipment>, cols: seq<DateCol>): (rows': seq<Shipment>)
    ensures |rows'| == |rows|
    ensures KeptColumns(rows') == KeptColumns(rows)
  {
    if |cols| == 0 then rows
    else
      var before := ParseDates(rd, rows, cols[..|cols| - 1]);
      var after := ParseColumn(rd, before, cols[|cols| - 1]);
      KeptWithDate(before, after, cols[|cols| - 1]);
      after
  }

  /** The cleaned shipment table, as a function of the raw rows. */
  function CleanMain(rd: Readers, raw: seq<Shipment>): (rows: seq<Shipment>)
    ensures |rows| <= |raw|
    ensures forall i :: 0 <= i < |rows| ==> KnownStatus(rows[i].status)
    ensures forall i :: 0 <= i < |rows| ==> rows[i].quantity.Blank? || rows[i].quantity.Number?
  {
    var dated := ParseDates(rd, ConvertDates(rd, Filter(raw, NotHeaderRow), DateColumns), OtherDateColumns);
    Filter(NumberRows(CoerceQuantities(rd, DeriveDelays(dated))), Known)
  }

  /**
   * `_clean_main_data`: drop header-leak rows, convert the two ship-date
   * columns in a loop, parse `Date1` and `Date2` in a second loop, derive
   * `Delay_Days`, coerce `Quantity`, number the rows and keep the four
   * known statuses.
   */
  method CleanMainData(rd: Readers, raw: seq<Shipment>) returns (df: seq<Shipment>)
    ensures df == CleanMain(rd, raw)
  {
    df := Filter(raw, NotHeaderRow);
    ghost var headerless := df;
    for j := 0 to |DateColumns|
      invariant df == ConvertDates(rd, headerless, DateColumns[..j])
    {
      assert DateColumns[..j + 1][..j] == DateColumns[..j];
      var c := DateColumns[j];
      assert ConvertDates(rd, headerless, DateColumns[..j + 1]) == ConvertDateColumn(rd, df, c);
      var cells := Column(df, c);
      if IsDatetimeColumn(cells) {
        continue;
      }
      var std := StandardColumn(rd, cells);
      if std.Some? {
        df := WithColumn(df, c, std.value);
      } else {
        var ser := SerialColumn(rd, cells);
        if ser.Some? {
          df := WithColumn(df, c, ser.value);
        }
      }
    }
    assert DateColumns[..|DateColumns|] == DateColumns;
    ghost var converted := df;
    for j := 0 to |OtherDateColumns|
      invariant df == ParseDates(rd, converted, OtherDateColumns[..j])
    {
      assert OtherDateColumns[..j + 1][..j] == OtherDateColumns[..j];
      var c := OtherDateColumns[j];
      assert ParseDates(rd, converted, OtherDateColumns[..j + 1]) == ParseColumn(rd, df, c);
      var parsed := StandardColumn(rd, Column(df, c));
      if parsed.Some? {
        df := WithColumn(df, c, parsed.value);
      }
    }
    assert OtherDateColumns[..|OtherDateColumns|] == OtherDateColumns;
    df := DeriveDelays(df);
    df := CoerceQuantities(rd, df);
    df := NumberRows(df);
    df := Filter(df, Known);
  }

  // ------------------------------------------------------------ what survives

  /** The derived columns after the date loop, before the status filter. */
  function Derived(rd: Readers, raw: seq<Shipment>): seq<Shipment>
  {
    NumberRows(CoerceQuantities(rd, DeriveDelays(
      ParseDates(rd, ConvertDates(rd, Filter(raw, NotHeaderRow), DateColumns), OtherDateColumns))))
  }

  /**
   * The cleaned table holds exactly the raw rows with one of the four known
   * statuses, in their order, each with its other columns unchanged.
   */
  lemma CleanMainSurvivors(rd: Readers, raw: seq<Shipment>)
    ensures |CleanMain(rd, raw)| == |Filter(raw, Known)|
    ensures forall i :: 0 <= i < |CleanMain(rd, raw)| ==> Kept(CleanMain(rd, raw)[i]) == Kept(Filter(raw, Known)[i])
  {
    var headerless := Filter(raw, NotHeaderRow);
    var d := Derived(rd, raw);
    DerivedKept(rd, raw);
    forall i | 0 <= i < |d| ensures Known(d[i]) == Known(headerless[i]) {
      assert Kept(d[i]).status == Kept(headerless[i]).status;
    }
    assert CleanMain(rd, raw) == Filter(d, Known);
    FilterAlike(d, headerless, Kept, Known);
    FilterAbsorbs(raw, NotHeaderRow, Known);
  }

  /** Deriving the delay, quantity and id columns leaves every other column as it was. */
  lemma DerivedKept(rd: Readers, raw: seq<Shipment>)
    ensures |Derived(rd, raw)| == |Filter(raw, NotHeaderRow)|
    ensures forall i :: 0 <= i < |Derived(rd, raw)| ==> Kept(Derived(rd, raw)[i]) == Kept(Filter(raw, NotHeaderRow)[i])
  {
    var headerless := Filter(raw, NotHeaderRow);
    var dated := ParseDates(rd, ConvertDates(rd, headerless, DateColumns), OtherDateColumns);
    var d := Derived(rd, raw);
    assert KeptColumns(d) == KeptColumns(dated);
    forall i | 0 <= i < |d| ensures Kept(d[i]) == Kept(headerless[i]) {
      assert KeptColumns(d)[i] == KeptColumns(headerless)[i];
    }
  }

  // ------------------------------------------------------------ transaction ids

  function IdOf(r: Shipment): int
  {
    r.transactionId.GetOr(0)
  }

  /** Every row has an id and the ids rise strictly down the table. */
  predicate IdsIncreasing(rows: seq<Shipment>)
  {
    (forall i :: 0 <= i < |rows| ==> rows[i].transactionId.Some?) &&
    forall i, j :: 0 <= i < j < |rows| ==> IdOf(rows[i]) < IdOf(rows[j])
  }

  /**
   * Ids are given before the status filter: the surviving ids rise strictly,
   * so they are distinct, and lie in 1..n for n the rows that passed the
   * header filter, which may leave gaps.
   */
  lemma CleanMainIds(rd: Readers, raw: seq<Shipment>)
    ensures IdsIncreasing(CleanMain(rd, raw))
    ensures forall i :: 0 <= i < |CleanMain(rd, raw)| ==>
              1 <= IdOf(CleanMain(rd, raw)[i]) <= |Filter(raw, NotHeaderRow)|
  {
    var numbered := Derived(rd, raw);
    FilterKeepsIncreasing(numbered, IdOf, Known);
    var out := CleanMain(rd, raw);
    assert out == Filter(numbered, Known);
    forall i | 0 <= i < |out|
      ensures out[i].transactionId.Some? && 1 <= IdOf(out[i]) <= |Filter(raw, NotHeaderRow)|
    {
      FilterFrom(numbered, Known, i);
    }
  }

  // ------------------------------------------------------------ delays

  /** Both date columns end up datetime, so the subtraction does not raise. */
  predicate DatesConvertible(rd: Readers, rows: seq<Shipment>)
  {
    Convertible(rd, Column(rows, ActualShip)) && Convertible(rd, Column(rows, RequestedShip))
  }

  lemma ColumnUntouched(before: seq<Shipment>, after: seq<Shipment>, c: DateCol, other: DateCol)
    requires |after| == |before| && c != other
    requires forall i :: 0 <= i < |before| ==> after[i] == WithDate(before[i], c, DateOf(after[i], c))
    ensures Column(after, other) == Column(before, other)
  {
    forall i | 0 <= i < |before| ensures DateOf(after[i], other) == DateOf(before[i], other) {
      match c { case ActualShip => case RequestedShip => case Date1 => case Date2 => }
    }
  }

  /** After the date loop both columns are datetime exactly when both conversions succeeded. */
  lemma DatedTyped(rd: Readers, rows: seq<Shipment>)
    ensures var dated := ConvertDates(rd, rows, DateColumns);
            IsDatetimeColumn(Column(dated, ActualShip)) && IsDatetimeColumn(Column(dated, RequestedShip))
            <==> DatesConvertible(rd, rows)
  {
    var first := ConvertDateColumn(rd, rows, ActualShip);
    assert DateColumns[..1] == [ActualShip];
    assert DateColumns[..1][..0] == [];
    assert ConvertDates(rd, rows, DateColumns[..1]) == first;
    assert DateColumns[..2] == DateColumns;
    var dated := ConvertDateColumn(rd, first, RequestedShip);
    assert ConvertDates(rd, rows, DateColumns) == dated;
    ColumnUntouched(rows, first, ActualShip, RequestedShip);
    ColumnUntouched(first, dated, RequestedShip, ActualShip);
  }

  /** Parsing `Date1` and `Date2` leaves the ship-date columns as they were. */
  lemma ParseKeepsShipDates(rd: Readers, rows: seq<Shipment>)
    ensures Column(ParseDates(rd, rows, OtherDateColumns), ActualShip) == Column(rows, ActualShip)
    ensures Column(ParseDates(rd, rows, OtherDateColumns), RequestedShip) == Column(rows, RequestedShip)
  {
    assert OtherDateColumns[..1] == [Date1];
    assert OtherDateColumns[..1][..0] == [];
    assert OtherDateColumns[..2] == OtherDateColumns;
    var first := ParseColumn(rd, rows, Date1);
    assert ParseDates(rd, rows, OtherDateColumns[..1]) == first;
    var second := ParseColumn(rd, first, Date2);
    assert ParseDates(rd, rows, OtherDateColumns) == second;
    ColumnUntouched(rows, first, Date1, ActualShip);
    ColumnUntouched(rows, first, Date1, RequestedShip);
    ColumnUntouched(first, second, Date2, ActualShip);
    ColumnUntouched(first, second, Date2, RequestedShip);
  }

  /** The ship-date loop leaves `Date1` and `Date2` as they were. */
  lemma ConvertKeepsOtherDates(rd: Readers, rows: seq<Shipment>, c: DateCol)
    requires c == Date1 || c == Date2
    ensures Column(ConvertDates(rd, rows, DateColumns), c) == Column(rows, c)
  {
    var first := ConvertDateColumn(rd, rows, ActualShip);
    assert DateColumns[..1] == [ActualShip];
    assert DateColumns[..1][..0] == [];
    assert ConvertDates(rd, rows, DateColumns[..1]) == first;
    assert DateColumns[..2] == DateColumns;
    var dated := ConvertDateColumn(rd, first, RequestedShip);
    assert ConvertDates(rd, rows, DateColumns) == dated;
    ColumnUntouched(rows, first, ActualShip, c);
    ColumnUntouched(first, dated, RequestedShip, c);
  }

  /** After both loops, a `Date1` or `Date2` cell is the standard parse of the cell as read. */
  lemma ParsedOtherDate(rd: Readers, rows: seq<Shipment>, c: DateCol)
    requires c == Date1 || c == Date2
    requires !rd.standardRaises(Column(rows, c))
    ensures var dated := ParseDates(rd, ConvertDates(rd, rows, DateColumns), OtherDateColumns);
            |dated| == |rows| &&
            forall i :: 0 <= i < |rows| ==> DayOf(DateOf(dated[i], c)) == StandardDate(rd, DateOf(rows[i], c))
  {
    var converted := ConvertDates(rd, rows, DateColumns);
    ConvertKeepsOtherDates(rd, rows, c);
    assert OtherDateColumns[..1] == [Date1];
    assert OtherDateColumns[..1][..0] == [];
    assert OtherDateColumns[..2] == OtherDateColumns;
    var first := ParseColumn(rd, converted, Date1);
    assert ParseDates(rd, converted, OtherDateColumns[..1]) == first;
    var second := ParseColumn(rd, first, Date2);
    assert ParseDates(rd, converted, OtherDateColumns) == second;
    var parsed := StandardColumn(rd, Column(rows, c)).value;
    if c == Date1 {
      ColumnUntouched(first, second, Date2, Date1);
    } else {
      ColumnUntouched(converted, first, Date1, Date2);
    }
    assert Column(second, c) == parsed;
    forall i | 0 <= i < |rows| ensures DayOf(DateOf(second[i], c)) == StandardDate(rd, DateOf(rows[i], c)) {
      assert DateOf(second[i], c) == Column(second, c)[i];
      assert DateOf(rows[i], c) == Column(rows, c)[i];
    }
  }

  /**
   * `Date1` and `Date2` are parsed on every surviving row: where the
   * column's parse does not raise, each cell is the standard parse of the
   * raw row's cell.
   */
  lemma CleanMainOtherDates(rd: Readers, raw: seq<Shipment>, c: DateCol)
    requires c == Date1 || c == Date2
    ensures !rd.standardRaises(Column(Filter(raw, NotHeaderRow), c)) ==>
              |CleanMain(rd, raw)| == |Filter(raw, Known)| &&
              forall i :: 0 <= i < |CleanMain(rd, raw)| ==>
                DayOf(DateOf(CleanMain(rd, raw)[i], c)) == StandardDate(rd, DateOf(Filter(raw, Known)[i], c))
  {
    var headerless := Filter(raw, NotHeaderRow);
    if !rd.standardRaises(Column(headerless, c)) {
      var d := Derived(rd, raw);
      DerivedOtherDate(rd, raw, c);
      KnownParsed(rd, d, headerless, c);
      CleanMainFiltered(rd, raw);
      FilterAbsorbs(raw, NotHeaderRow, Known);
    }
  }

  /** The cleaned table is the derived one with unknown statuses dropped. */
  lemma CleanMainFiltered(rd: Readers, raw: seq<Shipment>)
    ensures CleanMain(rd, raw) == Filter(Derived(rd, raw), Known)
  {
  }

  /** The status filter keeps a row-by-row parse relation between two tables of equal length. */
  lemma KnownParsed(rd: Readers, d: seq<Shipment>, rows: seq<Shipment>, c: DateCol)
    requires |d| == |rows|
    requires forall i :: 0 <= i < |d| ==>
               DayOf(DateOf(d[i], c)) == StandardDate(rd, DateOf(rows[i], c)) && Known(d[i]) == Known(rows[i])
    ensures |Filter(d, Known)| == |Filter(rows, Known)|
    ensures forall i :: 0 <= i < |Filter(d, Known)| ==>
              DayOf(DateOf(Filter(d, Known)[i], c)) == StandardDate(rd, DateOf(Filter(rows, Known)[i], c))
  {
    var rel := (x: Shipment, y: Shipment) => DayOf(DateOf(x, c)) == StandardDate(rd, DateOf(y, c));
    forall i | 0 <= i < |d| ensures rel(d[i], rows[i]) && Known(d[i]) == Known(rows[i]) {
    }
    FilterRelated(d, rows, rel, Known);
    forall i | 0 <= i < |Filter(d, Known)|
      ensures DayOf(DateOf(Filter(d, Known)[i], c)) == StandardDate(rd, DateOf(Filter(rows, Known)[i], c))
    {
      assert rel(Filter(d, Known)[i], Filter(rows, Known)[i]);
    }
  }

  /** Before the status filter, each row's `Date1` or `Date2` is the standard parse of its raw cell. */
  lemma DerivedOtherDate(rd: Readers, raw: seq<Shipment>, c: DateCol)
    requires c == Date1 || c == Date2
    requires !rd.standardRaises(Column(Filter(raw, NotHeaderRow), c))
    ensures |Derived(rd, raw)| == |Filter(raw, NotHeaderRow)|
    ensures forall i :: 0 <= i < |Derived(rd, raw)| ==>
              DayOf(DateOf(Derived(rd, raw)[i], c)) == StandardDate(rd, DateOf(Filter(raw, NotHeaderRow)[i], c)) &&
              Known(Derived(rd, raw)[i]) == Known(Filter(raw, NotHeaderRow)[i])
  {
    var headerless := Filter(raw, NotHeaderRow);
    var dated := ParseDates(rd, ConvertDates(rd, headerless, DateColumns), OtherDateColumns);
    ParsedOtherDate(rd, headerless, c);
    var delayed := DeriveDelays(dated);
    var coerced := CoerceQuantities(rd, delayed);
    var d := Derived(rd, raw);
    assert d == NumberRows(coerced);
    DerivedKept(rd, raw);
    forall i | 0 <= i < |d|
      ensures DayOf(DateOf(d[i], c)) == StandardDate(rd, DateOf(headerless[i], c)) && Known(d[i]) == Known(headerless[i])
    {
      assert d[i] == coerced[i].(transactionId := Some(i + 1));
      assert coerced[i] == delayed[i].(quantity := NumericCell(rd, delayed[i].quantity));
      assert DateOf(d[i], c) == DateOf(dated[i], c);
      assert Kept(d[i]).status == Kept(headerless[i]).status;
    }
  }

  lemma DerivedDelays(rd: Readers, raw: seq<Shipment>)
    ensures DatesConvertible(rd, Filter(raw, NotHeaderRow)) ==>
              forall j :: 0 <= j < |Derived(rd, raw)| ==> Derived(rd, raw)[j].delayDays == DelayOf(Derived(rd, raw)[j])
    ensures !DatesConvertible(rd, Filter(raw, NotHeaderRow)) ==>
              forall j :: 0 <= j < |Derived(rd, raw)| ==> Derived(rd, raw)[j].delayDays == Some(0)
  {
    var converted := ConvertDates(rd, Filter(raw, NotHeaderRow), DateColumns);
    var dated := ParseDates(rd, converted, OtherDateColumns);
    DatedTyped(rd, Filter(raw, NotHeaderRow));
    ParseKeepsShipDates(rd, converted);
    var typed := IsDatetimeColumn(Column(dated, ActualShip)) && IsDatetimeColumn(Column(dated, RequestedShip));
    var delayed := DeriveDelays(dated);
    var coerced := CoerceQuantities(rd, delayed);
    var d := Derived(rd, raw);
    assert d == NumberRows(coerced);
    forall j | 0 <= j < |d| ensures d[j].delayDays == if typed then DelayOf(d[j]) else Some(0) {
      assert d[j] == coerced[j].(transactionId := Some(j + 1));
      assert coerced[j] == delayed[j].(quantity := NumericCell(rd, delayed[j].quantity));
    }
  }

  /**
   * `Delay_Days` is the day difference of the two dates on every surviving
   * row when both date columns end up datetime, and 0 on every row otherwise.
   */
  lemma CleanMainDelays(rd: Readers, raw: seq<Shipment>)
    ensures DatesConvertible(rd, Filter(raw, NotHeaderRow)) ==>
              forall i :: 0 <= i < |CleanMain(rd, raw)| ==> CleanMain(rd, raw)[i].delayDays == DelayOf(CleanMain(rd, raw)[i])
    ensures !DatesConvertible(rd, Filter(raw, NotHeaderRow)) ==>
              forall i :: 0 <= i < |CleanMain(rd, raw)| ==> CleanMain(rd, raw)[i].delayDays == Some(0)
  {
    DerivedDelays(rd, raw);
    var out := CleanMain(rd, raw);
    assert out == Filter(Derived(rd, raw), Known);
    forall i | 0 <= i < |out| ensures exists j :: 0 <= j < |Derived(rd, raw)| && Derived(rd, raw)[j] == out[i] {
      FilterFrom(Derived(rd, raw), Known, i);
    }
  }

  // ============================================================ sales

  /** The label given to an unnamed column at position i (that is, `Column{i+1}`). */
  const ColumnMapping: seq<string> := [
    "Channel1", "Channel2", "Code", "Principal", "Channel", "Category", "Master_Brand", "Brand",
    "L_I", "Planning_Level", "Target", "Sales", "Shipped", "Late", "Not_Due", "Yesterday_Sales", "IOUs"]

  /** The sales columns coerced to numbers, in the order the loop visits them. */
  const NumericColumns: seq<string> := ["Target", "Sales", "Shipped", "Late", "Not_Due", "Yesterday_Sales", "IOUs"]

  const PctColumn: string := "Sales_vs_Target_Pct"

  /** The achievement column is not one of the coerced ones. */
  lemma PctNotNumeric()
    ensures PctColumn !in NumericColumns
  {
    forall n | n in NumericColumns ensures |n| < |PctColumn| {
    }
  }

  /** A label pandas or readxl made up for a column without a header. */
  predicate IsUnnamed(h: string)
  {
    Text.StartsWith(h, "Unnamed") || Text.StartsWith(h, "...")
  }

  /** The labels once the rename loop has visited positions 0..n-1 of `orig`, position i taking `mapping[i]`. */
  function RenamedHeaders(orig: seq<string>, mapping: seq<string>, n: nat): (hs: seq<string>)
    requires n <= |orig|
    ensures |hs| == |orig|
  {
    if n == 0 then orig
    else
      var hs := RenamedHeaders(orig, mapping, n - 1);
      var col := orig[n - 1];
      if IsUnnamed(col) && n - 1 < |mapping| then Replace(hs, col, mapping[n - 1]) else hs
  }

  /** A label that starts with neither `U` nor `.` is not a made-up one. */
  lemma NamedByFirstChar(h: string)
    requires |h| > 0 && h[0] != 'U' && h[0] != '.'
    ensures !IsUnnamed(h)
  {
    if |h| >= 7 {
      assert h[..7][0] == h[0];
    }
    if |h| >= 3 {
      assert h[..3][0] == h[0];
    }
  }

  /** The mapped labels are real names. */
  lemma MappingIsNamed(k: nat)
    requires k < |ColumnMapping|
    ensures !IsUnnamed(ColumnMapping[k])
  {
    assert ColumnMapping[k] in ColumnMapping;
    assert ColumnMapping[k][0] in "CPMBLTSNYI";
    NamedByFirstChar(ColumnMapping[k]);
  }

  predicate AllNamed(mapping: seq<string>)
  {
    forall k :: 0 <= k < |mapping| ==> !IsUnnamed(mapping[k])
  }

  /** The label position i holds once positions 0..n-1 have been visited. */
  function LabelAfter(orig: seq<string>, mapping: seq<string>, n: nat, i: nat): string
    requires i < |orig|
  {
    if i < n && IsUnnamed(orig[i]) && i < |mapping| then mapping[i] else orig[i]
  }

  /** The labels after visiting positions 0..n-1, position by position. */
  predicate RenamedUpTo(orig: seq<string>, mapping: seq<string>, n: nat, hs: seq<string>)
  {
    |hs| == |orig| && forall i :: 0 <= i < |orig| ==> hs[i] == LabelAfter(orig, mapping, n, i)
  }

  /** One position of the loop's labels, by induction on the positions visited. */
  lemma {:induction false} RenamedAt(orig: seq<string>, mapping: seq<string>, n: nat, i: nat)
    requires n <= |orig| && i < |orig| && AllNamed(mapping)
    requires forall i, j :: 0 <= i < j < |orig| ==> orig[i] != orig[j]
    ensures RenamedHeaders(orig, mapping, n)[i] == LabelAfter(orig, mapping, n, i)
  {
    if n > 0 {
      RenamedAt(orig, mapping, n - 1, i);
      var hs := RenamedHeaders(orig, mapping, n - 1);
      var col := orig[n - 1];
      if IsUnnamed(col) && n - 1 < |mapping| && i != n - 1 {
        if i < n - 1 && IsUnnamed(orig[i]) && i < |mapping| {
          assert !IsUnnamed(mapping[i]);
        } else if i < n - 1 {
          assert orig[i] != orig[n - 1];
        } else {
          assert orig[n - 1] != orig[i];
        }
      }
    }
  }

  lemma RenameWith(orig: seq<string>, mapping: seq<string>, n: nat)
    requires n <= |orig| && AllNamed(mapping)
    requires forall i, j :: 0 <= i < j < |orig| ==> orig[i] != orig[j]
    ensures RenamedUpTo(orig, mapping, n, RenamedHeaders(orig, mapping, n))
  {
    forall i | 0 <= i < |orig| ensures RenamedHeaders(orig, mapping, n)[i] == LabelAfter(orig, mapping, n, i) {
      RenamedAt(orig, mapping, n, i);
    }
  }

  /**
   * With distinct labels, as pandas reads them, an unnamed column at position
   * i < 17 takes the i-th mapped label and every other column keeps its own.
   */
  lemma RenameByPosition(orig: seq<string>, n: nat)
    requires n <= |orig|
    requires forall i, j :: 0 <= i < j < |orig| ==> orig[i] != orig[j]
    ensures RenamedUpTo(orig, ColumnMapping, n, RenamedHeaders(orig, ColumnMapping, n))
  {
    forall k | 0 <= k < |ColumnMapping| ensures !IsUnnamed(ColumnMapping[k]) {
      MappingIsNamed(k);
    }
    RenameWith(orig, ColumnMapping, n);
  }

  /** `df[name] = pd.to_numeric(df[name], errors='coerce')` when the column exists. */
  function CoerceColumn(rd: Readers, sh: Sheets.Sheet, name: string): (sh': Sheets.Sheet)
    requires sh.WellFormed()
    ensures sh'.WellFormed() && sh'.headers == sh.headers && |sh'.rows| == |sh.rows|
    ensures forall i :: 0 <= i < |sh.rows| ==>
              Sheets.Get(sh'.headers, sh'.rows[i], name) == NumericCell(rd, Sheets.Get(sh.headers, sh.rows[i], name))
    ensures forall i, other :: 0 <= i < |sh.rows| && other != name ==>
              Sheets.Get(sh'.headers, sh'.rows[i], other) == Sheets.Get(sh.headers, sh.rows[i], other)
  {
    var k := Sheets.IndexOf(sh.headers, name);
    if k.None? then sh
    else
      Sheets.Sheet(sh.headers, seq(|sh.rows|, i requires 0 <= i < |sh.rows| && sh.WellFormed() =>
        sh.rows[i][k.value := NumericCell(rd, sh.rows[i][k.value])]))
  }

  /** The coercion loop run over `names`, in order. */
  function CoerceColumns(rd: Readers, sh: Sheets.Sheet, names: seq<string>): (sh': Sheets.Sheet)
    requires sh.WellFormed()
    ensures sh'.WellFormed() && sh'.headers == sh.headers && |sh'.rows| == |sh.rows|
    ensures forall i, name :: 0 <= i < |sh.rows| && name in names ==>
              Sheets.Get(sh'.headers, sh'.rows[i], name).Blank? || Sheets.Get(sh'.headers, sh'.rows[i], name).Number?
    ensures forall i, other :: 0 <= i < |sh.rows| && other !in names ==>
              Sheets.Get(sh'.headers, sh'.rows[i], other) == Sheets.Get(sh.headers, sh.rows[i], other)
  {
    if |names| == 0 then sh
    else
      var before := CoerceColumns(rd, sh, names[..|names| - 1]);
      var after := CoerceColumn(rd, before, names[|names| - 1]);
      assert forall name :: name in names ==> name in names[..|names| - 1] || name == names[|names| - 1] by {
        assert names == names[..|names| - 1] + [names[|names| - 1]];
      }
      after
  }

  /** A row with at least one non-missing cell, which `dropna(how='all')` keeps. */
  predicate HasValue(row: seq<Cell>)
  {
    exists i :: 0 <= i < |row| && !row[i].Blank?
  }

  function DropEmptyRows(sh: Sheets.Sheet): (sh': Sheets.Sheet)
    requires sh.WellFormed()
    ensures sh'.WellFormed() && sh'.headers == sh.headers
  {
    Sheets.Sheet(sh.headers, Filter(sh.rows, HasValue))
  }

  /** `(Sales / Target.replace(0, 1) * 100).round(1)` for one row; missing if either is. */
  function PctCell(sales: Cell, target: Cell): Cell
  {
    if sales.Number? && target.Number? then Number(Round1(GuardedPercent(sales.value, target.value))) else Blank
  }

  /** Adds (or overwrites) `Sales_vs_Target_Pct` when both `Sales` and `Target` exist. */
  function AddSalesVsTarget(sh: Sheets.Sheet): (sh': Sheets.Sheet)
    requires sh.WellFormed()
    ensures sh'.WellFormed() && |sh'.rows| == |sh.rows|
  {
    if sh.Has("Sales") && sh.Has("Target") then
      var hs := sh.headers;
      Sheets.Sheet(Sheets.PutHeader(hs, PctColumn), seq(|sh.rows|, i requires 0 <= i < |sh.rows| && sh.WellFormed() =>
        Sheets.Put(hs, sh.rows[i], PctColumn, PctCell(Sheets.Get(hs, sh.rows[i], "Sales"), Sheets.Get(hs, sh.rows[i], "Target")))))
    else sh
  }

  /** The frame after renaming and coercion, before empty rows are dropped. */
  function Coerced(rd: Readers, sh: Sheets.Sheet): (sh': Sheets.Sheet)
    requires sh.WellFormed()
    ensures sh'.WellFormed() && |sh'.rows| == |sh.rows|
  {
    CoerceColumns(rd, Sheets.Sheet(RenamedHeaders(sh.headers, ColumnMapping, |sh.headers|), sh.rows), NumericColumns)
  }

  /** The cleaned sales frame, as a function of the raw one. */
  function CleanSales(rd: Readers, sh: Sheets.Sheet): (sh': Sheets.Sheet)
    requires sh.WellFormed()
    ensures sh'.WellFormed() && |sh'.rows| <= |sh.rows|
  {
    AddSalesVsTarget(DropEmptyRows(Coerced(rd, sh)))
  }

  /** A row whose every cell is missing. */
  predicate AllBlank(row: seq<Cell>)
  {
    forall i :: 0 <= i < |row| ==> row[i].Blank?
  }

  /**
   * `dropna(how='all')` keeps exactly the rows that are not wholly missing,
   * in their order: the kept rows are a subsequence of the input, each has
   * a value, and they number all the rows less the empty ones.
   */
  lemma DropEmptyKeeps(sh: Sheets.Sheet)
    requires sh.WellFormed()
    ensures var kept := DropEmptyRows(sh).rows;
            IsSubsequence(kept, sh.rows) &&
            (forall i :: 0 <= i < |kept| ==> !AllBlank(kept[i])) &&
            (forall i :: 0 <= i < |sh.rows| && !AllBlank(sh.rows[i]) ==> sh.rows[i] in kept) &&
            |kept| == |sh.rows| - |Filter(sh.rows, AllBlank)|
  {
    FilterIsSubsequence(sh.rows, HasValue);
    FilterPartition(sh.rows, HasValue, AllBlank);
  }

  /**
   * With `Sales` and `Target` present, each row gets the achievement cell of
   * its own sales and target; every other cell reads back as it was.
   */
  lemma SalesVsTargetWritten(sh: Sheets.Sheet)
    requires sh.WellFormed()
    ensures var out := AddSalesVsTarget(sh);
            (forall i, name :: 0 <= i < |sh.rows| && name != PctColumn ==>
               Sheets.Get(out.headers, out.rows[i], name) == Sheets.Get(sh.headers, sh.rows[i], name)) &&
            (sh.Has("Sales") && sh.Has("Target") ==> forall i :: 0 <= i < |sh.rows| ==>
               Sheets.Get(out.headers, out.rows[i], PctColumn) ==
                 PctCell(Sheets.Get(sh.headers, sh.rows[i], "Sales"), Sheets.Get(sh.headers, sh.rows[i], "Target")))
  {
    var out := AddSalesVsTarget(sh);
    if sh.Has("Sales") && sh.Has("Target") {
      forall i, name | 0 <= i < |sh.rows| && name != PctColumn
        ensures Sheets.Get(out.headers, out.rows[i], name) == Sheets.Get(sh.headers, sh.rows[i], name)
      {
        var row := sh.rows[i];
        Sheets.PutOther(sh.headers, row, PctColumn,
          PctCell(Sheets.Get(sh.headers, row, "Sales"), Sheets.Get(sh.headers, row, "Target")), name);
      }
    }
  }

  /**
   * The cleaned sales rows are the coerced rows `dropna(how='all')` keeps,
   * in their order, each with its achievement cell written and every other
   * cell as coerced.
   */
  lemma CleanSalesRows(rd: Readers, sh: Sheets.Sheet)
    requires sh.WellFormed()
    ensures var c := Coerced(rd, sh);
            var kept := DropEmptyRows(c).rows;
            var out := CleanSales(rd, sh);
            IsSubsequence(kept, c.rows) &&
            (forall i :: 0 <= i < |kept| ==> !AllBlank(kept[i])) &&
            (forall i :: 0 <= i < |c.rows| && !AllBlank(c.rows[i]) ==> c.rows[i] in kept) &&
            |kept| == |c.rows| - |Filter(c.rows, AllBlank)| &&
            |out.rows| == |kept| &&
            (forall i, name :: 0 <= i < |kept| && name != PctColumn ==>
               Sheets.Get(out.headers, out.rows[i], name) == Sheets.Get(c.headers, kept[i], name)) &&
            (c.Has("Sales") && c.Has("Target") ==> forall i :: 0 <= i < |kept| ==>
               Sheets.Get(out.headers, out.rows[i], PctColumn) ==
                 PctCell(Sheets.Get(c.headers, kept[i], "Sales"), Sheets.Get(c.headers, kept[i], "Target")))
  {
    var c := Coerced(rd, sh);
    var dropped := DropEmptyRows(c);
    DropEmptyKeeps(c);
    SalesVsTargetWritten(dropped);
    assert CleanSales(rd, sh) == AddSalesVsTarget(dropped);
  }

  /**
   * `_clean_sales_data`: relabel unnamed columns by position in a loop,
   * coerce the numeric columns in a loop, drop empty rows and add the
   * achievement percentage.
   */
  method CleanSalesData(rd: Readers, sh: Sheets.Sheet) returns (out: Sheets.Sheet)
    requires sh.WellFormed()
    ensures out == CleanSales(rd, sh)
  {
    var headers := RenameEach(sh.headers, ColumnMapping);
    var df := CoerceEach(rd, Sheets.Sheet(headers, sh.rows), NumericColumns);
    df := DropEmptyRows(df);
    df := AddSalesVsTarget(df);
    out := df;
  }

  /** The renaming loop of `_clean_sales_data`: position i's unnamed label becomes `mapping[i]`. */
  method RenameEach(orig: seq<string>, mapping: seq<string>) returns (headers: seq<string>)
    ensures headers == RenamedHeaders(orig, mapping, |orig|)
  {
    headers := orig;
    for i := 0 to |orig|
      invariant headers == RenamedHeaders(orig, mapping, i)
    {
      var col := orig[i];
      if IsUnnamed(col) && i < |mapping| {
        headers := Replace(headers, col, mapping[i]);
      }
    }
  }

  /** The coercion loop of `_clean_sales_data`, over the columns `names` in order. */
  method CoerceEach(rd: Readers, sh: Sheets.Sheet, names: seq<string>) returns (df: Sheets.Sheet)
    requires sh.WellFormed()
    ensures df == CoerceColumns(rd, sh, names)
  {
    df := sh;
    for j := 0 to |names|
      invariant df == CoerceColumns(rd, sh, names[..j])
    {
      assert names[..j + 1][..j] == names[..j];
      df := CoerceColumn(rd, df, names[j]);
    }
    assert names[..|names|] == names;
  }

  /** Every numeric sales column of the cleaned frame holds only numbers and blanks. */
  lemma CleanSalesNumeric(rd: Readers, sh: Sheets.Sheet)
    requires sh.WellFormed()
    ensures var out := CleanSales(rd, sh);
            forall i, name :: 0 <= i < |out.rows| && name in NumericColumns ==>
              Sheets.Get(out.headers, out.rows[i], name).Blank? || Sheets.Get(out.headers, out.rows[i], name).Number?
  {
    var coerced := Coerced(rd, sh);
    var kept := DropEmptyRows(coerced);
    forall i, name | 0 <= i < |kept.rows| && name in NumericColumns
      ensures Sheets.Get(kept.headers, kept.rows[i], name).Blank? || Sheets.Get(kept.headers, kept.rows[i], name).Number?
    {
      FilterFrom(coerced.rows, HasValue, i);
    }
    var out := AddSalesVsTarget(kept);
    if kept.Has("Sales") && kept.Has("Target") {
      PctNotNumeric();
      forall i, name | 0 <= i < |out.rows| && name in NumericColumns
        ensures Sheets.Get(out.headers, out.rows[i], name) == Sheets.Get(kept.headers, kept.rows[i], name)
      {
        Sheets.PutOther(kept.headers, kept.rows[i], PctColumn, PctCell(Sheets.Get(kept.headers, kept.rows[i], "Sales"), Sheets.Get(kept.headers, kept.rows[i], "Target")), name);
      }
    }
  }

  /**
   * Where the cleaned frame has `Sales` and `Target`, its achievement cell is
   * a number exactly when both are, and then lies within 0.05 of
   * Sales / Target × 100 (of Sales × 100 when Target is 0).
   */
  lemma CleanSalesPct(rd: Readers, sh: Sheets.Sheet)
    requires sh.WellFormed()
    ensures var out := CleanSales(rd, sh);
            out.Has("Sales") && out.Has("Target") ==>
            forall i :: 0 <= i < |out.rows| ==>
              var s := Sheets.Get(out.headers, out.rows[i], "Sales");
              var t := Sheets.Get(out.headers, out.rows[i], "Target");
              var p := Sheets.Get(out.headers, out.rows[i], PctColumn);
              (p.Number? <==> s.Number? && t.Number?) &&
              (p.Number? ==> GuardedPercent(s.value, t.value) - 0.05 < p.value <= GuardedPercent(s.value, t.value) + 0.05)
  {
    var kept := DropEmptyRows(Coerced(rd, sh));
    var out := CleanSales(rd, sh);
    if kept.Has("Sales") && kept.Has("Target") {
      forall i | 0 <= i < |out.rows|
        ensures var s := Sheets.Get(out.headers, out.rows[i], "Sales");
                var t := Sheets.Get(out.headers, out.rows[i], "Target");
                var p := Sheets.Get(out.headers, out.rows[i], PctColumn);
                (p.Number? <==> s.Number? && t.Number?) &&
                (p.Number? ==> GuardedPercent(s.value, t.value) - 0.05 < p.value <= GuardedPercent(s.value, t.value) + 0.05)
      {
        var row := kept.rows[i];
        var s := Sheets.Get(kept.headers, row, "Sales");
        var t := Sheets.Get(kept.headers, row, "Target");
        Sheets.PutOther(kept.headers, row, PctColumn, PctCell(s, t), "Sales");
        Sheets.PutOther(kept.headers, row, PctColumn, PctCell(s, t), "Target");
        if s.Number? && t.Number? {
          Round1Close(GuardedPercent(s.value, t.value));
        }
      }
    } else {
      assert !out.Has("Sales") || !out.Has("Target");
    }
  }

  // ============================================================ saved files

  /** `sheet_name.replace(' ', '_').replace('-', '_')` */
  function SafeSheetName(name: string): (r: string)
    ensures |r| == |name|
    ensures forall i :: 0 <= i < |name| ==> r[i] == (if name[i] == ' ' || name[i] == '-' then '_' else name[i])
  {
    Replace(Replace(name, ' ', '_'), '-', '_')
  }

  /** The file a sales sheet is written to. */
  function SalesFileName(sheet: string): (f: string)
    ensures Text.StartsWith(f, "sales_")
    ensures ' ' !in f[6..] && '-' !in f[6..]
  {
    var r := "sales_" + SafeSheetName(sheet) + ".csv";
    assert r[6..] == SafeSheetName(sheet) + ".csv";
    r
  }

  /** Sanitising a sanitised name changes nothing. */
  lemma SafeSheetNameIdempotent(name: string)
    ensures SafeSheetName(SafeSheetName(name)) == SafeSheetName(name)
  {
  }

  /** Names differing only by a space against a hyphen share one file, so the later sheet overwrites the earlier. */
  lemma SafeSheetNameCollides()
    ensures SafeSheetName("TOP 10") == SafeSheetName("TOP-10") == "TOP_10"
  {
  }

  /** The counts saved in `extraction_metadata.json` (its timestamp is not modelled). */
  datatype Metadata = Metadata(
    file1Sheets: seq<string>,
    file2Sheets: seq<string>,
    totalShippingRecords: nat,
    totalSalesRecords: nat)

  const File1Keys: seq<string> := ["main_data", "pivot_data", "calc_data", "ref_data", "filter_settings"]

  /** The frame saved under `name`, looked up like `dict.get`: the first one so named. */
  function SheetNamed(file2: seq<(string, Sheets.Sheet)>, name: string): (r: Option<Sheets.Sheet>)
    ensures r.Some? <==> exists i :: 0 <= i < |file2| && file2[i].0 == name
    ensures r.Some? ==> exists i :: 0 <= i < |file2| && file2[i] == (name, r.value)
  {
    if |file2| == 0 then None
    else if file2[0].0 == name then Some(file2[0].1)
    else
      var r := SheetNamed(file2[1..], name);
      if r.Some? then
        var i :| 0 <= i < |file2[1..]| && file2[1..][i] == (name, r.value);
        assert file2[i + 1] == (name, r.value);
        r
      else r
  }

  function ExtractionMetadata(main: seq<Shipment>, file2: seq<(string, Sheets.Sheet)>): Metadata
  {
    var data := SheetNamed(file2, "Data");
    Metadata(File1Keys, seq(|file2|, i requires 0 <= i < |file2| => file2[i].0), |main|,
             if data.Some? then |data.value.rows| else 0)
  }

  /**
   * The shipping count saved is the number of raw rows with a known status;
   * the sheet names are the sales workbook's, in its order; the sales count
   * is the `Data` sheet's rows, or 0 without one.
   */
  lemma MetadataCounts(rd: Readers, raw: seq<Shipment>, file2: seq<(string, Sheets.Sheet)>)
    ensures var m := ExtractionMetadata(CleanMain(rd, raw), file2);
            m.totalShippingRecords == |Filter(raw, Known)| &&
            m.totalShippingRecords <= |raw| &&
            |m.file2Sheets| == |file2| &&
            (forall i :: 0 <= i < |file2| ==> m.file2Sheets[i] == file2[i].0) &&
            (forall i :: 0 <= i < |file2| && file2[i].0 == "Data" && (forall j :: 0 <= j < i ==> file2[j].0 != "Data") ==>
               m.totalSalesRecords == |file2[i].1.rows|) &&
            ((forall i :: 0 <= i < |file2| ==> file2[i].0 != "Data") ==> m.totalSalesRecords == 0)
  {
    CleanMainSurvivors(rd, raw);
    forall i | 0 <= i < |file2| && file2[i].0 == "Data" && (forall j :: 0 <= j < i ==> file2[j].0 != "Data")
      ensures SheetNamed(file2, "Data") == Some(file2[i].1)
    {
      FirstNamed(file2, "Data", i);
    }
  }

  /** The lookup finds the first sheet of that name. */
  lemma {:induction false} FirstNamed(file2: seq<(string, Sheets.Sheet)>, name: string, i: nat)
    requires i < |file2| && file2[i].0 == name
    requires forall j :: 0 <= j < i ==> file2[j].0 != name
    ensures SheetNamed(file2, name) == Some(file2[i].1)
  {
    if i > 0 {
      FirstNamed(file2[1..], name, i - 1);
    }
  }
}
