/**
 * The tables a `DataProcessor` holds, and what loading does to the shipment
 * table: the date columns are parsed again, the delay recomputed, and exact
 * duplicate rows removed.
 */
module Frames {
  import opened Wrappers
  import opened Records
  import opened Sheets
  import opened Seqs
  import Extractor

  /**
   * `shipping_data`: never loaded (None), a frame with no columns (what a
   * failed read gives), or the shipment table.
   */
  datatype ShippingFrame = Unloaded | NoColumns | Table(rows: seq<Shipment>)
  {
    /** `shipping_data is None or shipping_data.empty` */
    predicate Absent()
    {
      !Table? || |rows| == 0
    }
  }

  /** `sales_data`: never loaded, or the sales sheet (a failed read is a sheet with no columns). */
  datatype SalesFrame = NoSales | SalesTable(sheet: Sheet)
  {
    /** `sales_data is None or sales_data.empty` */
    predicate Absent()
    {
      NoSales? || sheet.Empty()
    }
  }

  /** The date columns the loader parses, in its order. */
  const LoadedDateColumns: seq<DateCol> := [ActualShip, RequestedShip, Date1, Date2]

  /** `pd.to_datetime(errors='coerce')` on each of `cols` in turn, each left as it was where it raises. */
  function ParseEach(rd: Readers, rows: seq<Shipment>, cols: seq<DateCol>): (rows': seq<Shipment>)
    ensures |rows'| == |rows|
    decreases |cols|
  {
    if |cols| == 0 then rows else ParseEach(rd, ParseColumn(rd, rows, cols[0]), cols[1..])
  }

  /** `_process_dates`: the four date columns parsed in turn, then `Delay_Days` recomputed. */
  function ProcessDates(rd: Readers, f: ShippingFrame): ShippingFrame
  {
    if f.Absent() then f
    else Table(DeriveDelays(ParseEach(rd, f.rows, LoadedDateColumns)))
  }

  /** Parsing one column leaves every other column, and the status, as they were. */
  lemma ParseColumnKeeps(rd: Readers, rows: seq<Shipment>, c: DateCol)
    ensures var rows' := ParseColumn(rd, rows, c);
            forall i, other :: 0 <= i < |rows| && other != c ==>
              DateOf(rows'[i], other) == DateOf(rows[i], other) && rows'[i].status == rows[i].status
  {
    var rows' := ParseColumn(rd, rows, c);
    forall i, other | 0 <= i < |rows| && other != c
      ensures DateOf(rows'[i], other) == DateOf(rows[i], other) && rows'[i].status == rows[i].status
    {
      assert rows'[i] == WithDate(rows[i], c, DateOf(rows'[i], c));
      match c { case ActualShip => case RequestedShip => case Date1 => case Date2 => }
    }
  }

  /** The loader's parse loop, one column at a time. */
  lemma ParseEachSteps(rd: Readers, rows: seq<Shipment>)
    ensures ParseEach(rd, rows, LoadedDateColumns) ==
            ParseColumn(rd, ParseColumn(rd, ParseColumn(rd, ParseColumn(rd, rows, ActualShip), RequestedShip), Date1), Date2)
  {
    assert LoadedDateColumns[1..] == [RequestedShip, Date1, Date2];
    assert LoadedDateColumns[1..][1..] == [Date1, Date2];
    assert LoadedDateColumns[1..][1..][1..] == [Date2];
    assert LoadedDateColumns[1..][1..][1..][1..] == [];
  }

  /**
   * When both ship-date columns parse, every row keeps its status and its
   * delay becomes the day difference of the parsed dates; the table keeps
   * its length.
   */
  lemma ProcessDatesDelays(rd: Readers, rows: seq<Shipment>)
    requires StandardColumn(rd, Column(rows, ActualShip)).Some?
    requires StandardColumn(rd, Column(ParseColumn(rd, rows, ActualShip), RequestedShip)).Some?
    ensures var out := ProcessDates(rd, Table(rows)).rows;
            |out| == |rows| &&
            forall i :: 0 <= i < |rows| ==>
              DayOf(out[i].actualShip) == StandardDate(rd, rows[i].actualShip) &&
              DayOf(out[i].requestedShip) == StandardDate(rd, rows[i].requestedShip) &&
              out[i].delayDays == DelayOf(out[i]) &&
              out[i].status == rows[i].status
  {
    if |rows| > 0 {
      var a := ParseColumn(rd, rows, ActualShip);
      var b := ParseColumn(rd, a, RequestedShip);
      var b1 := ParseColumn(rd, b, Date1);
      var b2 := ParseColumn(rd, b1, Date2);
      ParseEachSteps(rd, rows);
      ParseColumnKeeps(rd, b, Date1);
      ParseColumnKeeps(rd, b1, Date2);
      var ca := StandardColumn(rd, Column(rows, ActualShip)).value;
      var cb := StandardColumn(rd, Column(a, RequestedShip)).value;
      forall i | 0 <= i < |rows|
        ensures DayOf(b2[i].actualShip) == StandardDate(rd, rows[i].actualShip)
        ensures DayOf(b2[i].requestedShip) == StandardDate(rd, rows[i].requestedShip)
        ensures b2[i].actualShip.Blank? || b2[i].actualShip.Timestamp?
        ensures b2[i].requestedShip.Blank? || b2[i].requestedShip.Timestamp?
        ensures b2[i].status == rows[i].status
      {
        assert Column(a, ActualShip)[i] == ca[i];
        assert Column(b, RequestedShip)[i] == cb[i];
        assert Column(a, RequestedShip)[i] == rows[i].requestedShip;
        assert DateOf(b2[i], ActualShip) == DateOf(b[i], ActualShip);
        assert DateOf(b2[i], RequestedShip) == DateOf(b[i], RequestedShip);
      }
      assert IsDatetimeColumn(Column(b2, ActualShip));
      assert IsDatetimeColumn(Column(b2, RequestedShip));
    }
  }

  /** Where the loader's parse of `Date1` or `Date2` does not raise, each cell becomes its standard parse. */
  lemma ProcessOtherDates(rd: Readers, rows: seq<Shipment>, c: DateCol)
    requires c == Date1 || c == Date2
    requires |rows| > 0 && !rd.standardRaises(Column(rows, c))
    ensures var out := ProcessDates(rd, Table(rows)).rows;
            |out| == |rows| &&
            forall i :: 0 <= i < |rows| ==> DayOf(DateOf(out[i], c)) == StandardDate(rd, DateOf(rows[i], c))
  {
    var a := ParseColumn(rd, rows, ActualShip);
    var b := ParseColumn(rd, a, RequestedShip);
    var b1 := ParseColumn(rd, b, Date1);
    var b2 := ParseColumn(rd, b1, Date2);
    ParseEachSteps(rd, rows);
    ParseColumnKeeps(rd, rows, ActualShip);
    ParseColumnKeeps(rd, a, RequestedShip);
    var out := ProcessDates(rd, Table(rows)).rows;
    forall i | 0 <= i < |rows| ensures DateOf(b[i], c) == DateOf(rows[i], c) {
    }
    assert Column(b, c) == Column(rows, c);
    if c == Date2 {
      ParseColumnKeeps(rd, b, Date1);
      assert Column(b1, c) == Column(b, c);
    } else {
      ParseColumnKeeps(rd, b1, Date2);
    }
    forall i | 0 <= i < |rows| ensures DayOf(DateOf(out[i], c)) == StandardDate(rd, DateOf(rows[i], c)) {
      assert DateOf(out[i], c) == DateOf(b2[i], c);
      assert DateOf(rows[i], c) == Column(rows, c)[i];
      if c == Date1 {
        assert DateOf(b2[i], c) == DateOf(b1[i], c) == Column(b1, c)[i];
      } else {
        assert DateOf(b2[i], c) == Column(b2, c)[i];
      }
    }
  }

  /** `_validate_data`: exact duplicate rows removed, the first of each kept. */
  function Validate(f: ShippingFrame): ShippingFrame
  {
    if f.Absent() then f else Table(Dedup(f.rows))
  }

  /**
   * Validation never adds rows and keeps one copy of each distinct row, the
   * first, in the order the first copies had; validating twice removes
   * nothing more.
   */
  lemma ValidateShrinks(f: ShippingFrame)
    ensures f.Table? <==> Validate(f).Table?
    ensures f.Table? ==> |Validate(f).rows| <= |f.rows|
    ensures f.Table? ==> forall r :: r in Validate(f).rows <==> r in f.rows
    ensures f.Table? ==> Distinct(Validate(f).rows)
    ensures f.Table? ==> forall i, j :: 0 <= i < j < |Validate(f).rows| ==>
              FirstIndex(f.rows, Validate(f).rows[i]) < FirstIndex(f.rows, Validate(f).rows[j])
    ensures Validate(Validate(f)) == Validate(f)
  {
    if !f.Absent() {
      DedupIdempotent(f.rows);
      DedupOrder(f.rows);
      assert f.rows[0] in Dedup(f.rows);
    }
  }

  /** Rows carrying the distinct transaction ids the extractor gives are never removed. */
  lemma ValidateKeepsNumberedRows(f: ShippingFrame)
    requires f.Table? && Extractor.IdsIncreasing(f.rows)
    ensures Validate(f) == f
  {
    DedupDistinct(f.rows);
  }
}
