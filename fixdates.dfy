/**
 * The date repair run over the saved shipment table: date columns held as
 * spreadsheet serial numbers or text become dates, `Delay_Days` is
 * recomputed, and `Delivery_Status` is rewritten from the sign of the delay.
 */
module FixDates {
  import opened Wrappers
  import opened Records

  /** The date columns the repair visits, in its order. */
  const RepairColumns: seq<DateCol> := [RequestedShip, ActualShip]

  /**
   * `pd.to_datetime('1899-12-30') + pd.to_timedelta(v, unit='D')` on one cell:
   * the timedelta of v days and the sum must both fit pandas' 64-bit range,
   * or the conversion raises; a blank stays missing.
   */
  predicate RepairableSerial(c: Cell)
  {
    c.Number? ==> c.value.Floor <= MaxTimedeltaDays && InTimestampRange(SerialDay(c.value))
  }

  /**
   * One pass of the repair loop: a numeric column is read as days after
   * 1899-12-30, and raises (None) when one serial is out of range; any
   * other column goes through the standard parse, which may raise too.
   */
  function RepairColumn(rd: Readers, cells: seq<Cell>): (r: Option<seq<Cell>>)
    ensures r.Some? ==> |r.value| == |cells| && IsDatetimeColumn(r.value)
    ensures IsNumericColumn(cells) ==> (r.Some? <==> forall i :: 0 <= i < |cells| ==> RepairableSerial(cells[i]))
    ensures IsNumericColumn(cells) && r.Some? ==>
              forall i :: 0 <= i < |cells| ==> DayOf(r.value[i]) == SerialDate(cells[i])
    ensures !IsNumericColumn(cells) ==> r == StandardColumn(rd, cells)
  {
    if IsNumericColumn(cells) then
      if forall i :: 0 <= i < |cells| ==> RepairableSerial(cells[i]) then
        Some(seq(|cells|, i requires 0 <= i < |cells| => DateCell(SerialDate(cells[i]))))
      else None
    else StandardColumn(rd, cells)
  }

  /** The repair loop over the columns `cols`, in order; None once a conversion raises. */
  function RepairDates(rd: Readers, rows: seq<Shipment>, cols: seq<DateCol>): (r: Option<seq<Shipment>>)
    ensures r.Some? ==> |r.value| == |rows|
  {
    if |cols| == 0 then Some(rows)
    else
      var before := RepairDates(rd, rows, cols[..|cols| - 1]);
      if before.None? then None
      else
        var c := cols[|cols| - 1];
        var converted := RepairColumn(rd, Column(before.value, c));
        if converted.None? then None else Some(WithColumn(before.value, c, converted.value))
  }

  /** Once a conversion has raised, the rest of the loop cannot undo it. */
  lemma {:induction false} RaisedStays(rd: Readers, rows: seq<Shipment>, cols: seq<DateCol>, j: nat)
    requires j <= |cols| && RepairDates(rd, rows, cols[..j]).None?
    ensures RepairDates(rd, rows, cols).None?
  {
    if j < |cols| {
      assert cols[..|cols| - 1][..j] == cols[..j];
      RaisedStays(rd, rows, cols[..|cols| - 1], j);
    } else {
      assert cols[..j] == cols;
    }
  }

  // ------------------------------------------------------------ statuses

  predicate DelayNegative(r: Shipment) { r.delayDays.Some? && r.delayDays.value < 0 }
  predicate DelayZero(r: Shipment) { r.delayDays == Some(0) }
  predicate DelayPositive(r: Shipment) { r.delayDays.Some? && r.delayDays.value > 0 }
  predicate NotShipped(r: Shipment) { DayOf(r.actualShip).None? }

  /** The status each sign of a known delay is written as. */
  function StatusForDelay(d: int): Status
  {
    if d < 0 then Advanced else if d == 0 then OnTime else Late
  }

  /**
   * The status a row ends with after the four masked writes: a missing ship
   * date wins (Not Due), then the sign of the delay; a row with no delay
   * keeps the status it had.
   */
  function RederivedStatus(r: Shipment): (s: Option<Status>)
    ensures NotShipped(r) ==> s == Some(NotDue)
    ensures !NotShipped(r) && r.delayDays.Some? ==> s == Some(StatusForDelay(r.delayDays.value))
    ensures !NotShipped(r) && r.delayDays.None? ==> s == r.status
  {
    if NotShipped(r) then Some(NotDue)
    else if DelayNegative(r) then Some(Advanced)
    else if DelayZero(r) then Some(OnTime)
    else if DelayPositive(r) then Some(Late)
    else r.status
  }

  /** `df.loc[mask, 'Delivery_Status'] = s` on the table held in `a`. */
  method MarkStatus(a: array<Shipment>, mask: Shipment -> bool, s: Status)
    modifies a
    ensures forall i :: 0 <= i < a.Length ==>
              a[i] == if mask(old(a[i])) then old(a[i]).(status := Some(s)) else old(a[i])
  {
    for i := 0 to a.Length
      invariant forall k :: 0 <= k < i ==> a[k] == if mask(old(a[k])) then old(a[k]).(status := Some(s)) else old(a[k])
      invariant forall k :: i <= k < a.Length ==> a[k] == old(a[k])
    {
      if mask(a[i]) {
        a[i] := a[i].(status := Some(s));
      }
    }
  }

  /** The four writes in the order the repair makes them; the later write wins. */
  method RewriteStatuses(a: array<Shipment>)
    modifies a
    ensures forall i :: 0 <= i < a.Length ==> a[i] == old(a[i]).(status := RederivedStatus(old(a[i])))
  {
    MarkStatus(a, DelayNegative, Advanced);
    MarkStatus(a, DelayZero, OnTime);
    MarkStatus(a, DelayPositive, Late);
    MarkStatus(a, NotShipped, NotDue);
  }

  // ------------------------------------------------------------ the repair

  /** What the repair does to a table: new rows, an exception, or the sample-date branch. */
  datatype Outcome =
    | Repaired(rows: seq<Shipment>)
    | Raised
    | SyntheticDates  // every ship date is missing: the made-up-dates branch, not modelled

  /** One row after the delay is recomputed and the status rewritten. */
  function Relabelled(r: Shipment): Shipment
  {
    var d := r.(delayDays := DelayOf(r));
    d.(status := RederivedStatus(d))
  }

  function RelabelAll(rows: seq<Shipment>): (r: seq<Shipment>)
    ensures |r| == |rows|
    ensures forall i :: 0 <= i < |rows| ==> r[i] == Relabelled(rows[i])
  {
    seq(|rows|, i requires 0 <= i < |rows| => Relabelled(rows[i]))
  }

  /** The repair as a function of the table it reads. */
  function Repair(rd: Readers, rows: seq<Shipment>): Outcome
  {
    var dated := RepairDates(rd, rows, RepairColumns);
    if dated.None? then Raised
    else if forall i :: 0 <= i < |dated.value| ==> NotShipped(dated.value[i]) then SyntheticDates
    else Repaired(RelabelAll(dated.value))
  }

  /** The conversion loop of `fix_shipping_dates` over `cols`, stopping at the first column that raises. */
  method ConvertEach(rd: Readers, rows: seq<Shipment>, cols: seq<DateCol>) returns (r: Option<seq<Shipment>>)
    ensures r == RepairDates(rd, rows, cols)
  {
    var df := rows;
    for j := 0 to |cols|
      invariant RepairDates(rd, rows, cols[..j]) == Some(df)
    {
      assert cols[..j + 1][..j] == cols[..j];
      var c := cols[j];
      var converted := RepairColumn(rd, Column(df, c));
      if converted.None? {
        RaisedStays(rd, rows, cols, j + 1);
        return None;
      }
      df := WithColumn(df, c, converted.value);
    }
    assert cols[..|cols|] == cols;
    r := Some(df);
  }

  /**
   * `fix_shipping_dates` once the file is read: convert each date column in
   * a loop, recompute the delay, and rewrite the statuses in place.
   */
  method FixShippingDates(rd: Readers, rows: seq<Shipment>) returns (outcome: Outcome)
    ensures outcome == Repair(rd, rows)
  {
    var dated := ConvertEach(rd, rows, RepairColumns);
    if dated.None? {
      return Raised;
    }
    var df := dated.value;
    if forall i :: 0 <= i < |df| ==> NotShipped(df[i]) {
      return SyntheticDates;
    }
    var relabelled := RelabelRows(df);
    assert relabelled == RelabelAll(df);
    outcome := Repaired(relabelled);
  }

  /** Every row with its delay recomputed from the converted dates. */
  function Delayed(rows: seq<Shipment>): (r: seq<Shipment>)
    ensures |r| == |rows|
    ensures forall i :: 0 <= i < |rows| ==> r[i] == rows[i].(delayDays := DelayOf(rows[i]))
  {
    seq(|rows|, i requires 0 <= i < |rows| => rows[i].(delayDays := DelayOf(rows[i])))
  }

  /** The delay and status rewrite of `fix_shipping_dates`, on a copy held in an array. */
  method RelabelRows(rows: seq<Shipment>) returns (out: seq<Shipment>)
    ensures |out| == |rows|
    ensures forall i :: 0 <= i < |rows| ==> out[i] == Relabelled(rows[i])
  {
    var delayed := Delayed(rows);
    var a := new Shipment[|delayed|](i requires 0 <= i < |delayed| => delayed[i]);
    RewriteStatuses(a);
    out := a[..];
  }

  // ------------------------------------------------------------ properties

  /** Reading back a column just written gives the written cells; other columns are untouched. */
  lemma ColumnOfWith(rows: seq<Shipment>, c: DateCol, cells: seq<Cell>, other: DateCol)
    requires |cells| == |rows|
    ensures Column(WithColumn(rows, c, cells), c) == cells
    ensures other != c ==> Column(WithColumn(rows, c, cells), other) == Column(rows, other)
  {
    var w := WithColumn(rows, c, cells);
    forall i | 0 <= i < |rows| ensures DateOf(w[i], other) == if other == c then cells[i] else DateOf(rows[i], other) {
      match c { case ActualShip => case RequestedShip => case Date1 => case Date2 => }
    }
  }

  /**
   * Each date column is converted on its own: the repair goes through
   * exactly when each column's conversion does, and the repaired column is
   * the conversion of the original one.
   */
  lemma RepairedColumns(rd: Readers, rows: seq<Shipment>)
    ensures var dated := RepairDates(rd, rows, RepairColumns);
            (dated.Some? <==> RepairColumn(rd, Column(rows, RequestedShip)).Some? &&
                              RepairColumn(rd, Column(rows, ActualShip)).Some?) &&
            (dated.Some? ==>
              Some(Column(dated.value, RequestedShip)) == RepairColumn(rd, Column(rows, RequestedShip)) &&
              Some(Column(dated.value, ActualShip)) == RepairColumn(rd, Column(rows, ActualShip)))
  {
    assert RepairColumns[..1] == [RequestedShip];
    assert RepairColumns[..1][..0] == [];
    assert RepairColumns[..2] == RepairColumns;
    var conv := RepairColumn(rd, Column(rows, RequestedShip));
    var dated := RepairDates(rd, rows, RepairColumns);
    assert RepairDates(rd, rows, RepairColumns[..1]) == if conv.None? then None else Some(WithColumn(rows, RequestedShip, conv.value));
    if conv.Some? {
      var first := WithColumn(rows, RequestedShip, conv.value);
      ColumnOfWith(rows, RequestedShip, conv.value, ActualShip);
      var conv2 := RepairColumn(rd, Column(first, ActualShip));
      assert dated == if conv2.None? then None else Some(WithColumn(first, ActualShip, conv2.value));
      if conv2.Some? {
        ColumnOfWith(first, ActualShip, conv2.value, RequestedShip);
      }
    }
  }

  /**
   * A numeric date column is read as serial days: the repair raises when
   * one serial is outside pandas' range, and otherwise each day is
   * 1899-12-30 plus the whole part of the value.
   */
  lemma SerialColumnsRepaired(rd: Readers, rows: seq<Shipment>, c: DateCol)
    requires c in RepairColumns && IsNumericColumn(Column(rows, c))
    ensures var dated := RepairDates(rd, rows, RepairColumns);
            (dated.Some? ==> forall i :: 0 <= i < |rows| ==> RepairableSerial(DateOf(rows[i], c))) &&
            (dated.Some? ==> forall i :: 0 <= i < |rows| ==>
              DayOf(DateOf(dated.value[i], c)) ==
                if DateOf(rows[i], c).Number? then Some(SerialDay(DateOf(rows[i], c).value)) else None)
  {
    RepairedColumns(rd, rows);
    var dated := RepairDates(rd, rows, RepairColumns);
    var cells := Column(rows, c);
    if dated.Some? {
      var conv := RepairColumn(rd, cells);
      assert Column(dated.value, c) == conv.value;
      forall i | 0 <= i < |rows|
        ensures RepairableSerial(DateOf(rows[i], c))
        ensures DayOf(DateOf(dated.value[i], c)) == if DateOf(rows[i], c).Number? then Some(SerialDay(DateOf(rows[i], c).value)) else None
      {
        assert cells[i] == DateOf(rows[i], c);
        assert DateOf(dated.value[i], c) == conv.value[i];
        assert RepairableSerial(cells[i]);
      }
    }
  }

  /** One serial out of range is enough to make the whole repair raise. */
  lemma OutOfRangeSerialRaises(rd: Readers, rows: seq<Shipment>, c: DateCol, i: nat)
    requires c in RepairColumns && IsNumericColumn(Column(rows, c))
    requires i < |rows| && !RepairableSerial(DateOf(rows[i], c))
    ensures RepairDates(rd, rows, RepairColumns).None?
    ensures Repair(rd, rows).Raised?
  {
    RepairedColumns(rd, rows);
    assert Column(rows, c)[i] == DateOf(rows[i], c);
  }

  /** The status a repaired row carries agrees with its ship date and the sign of its delay. */
  predicate StatusMatchesDelay(r: Shipment)
  {
    r.delayDays == DelayOf(r) &&
    (NotShipped(r) ==> r.status == Some(NotDue)) &&
    (!NotShipped(r) && r.delayDays.Some? ==> r.status == Some(StatusForDelay(r.delayDays.value)))
  }

  /**
   * Every repaired row has `Delay_Days` equal to the day difference of its
   * dates and a status that follows it; a shipped row with no requested date
   * keeps its original status.  The table keeps its length.
   */
  lemma RepairConsistent(rd: Readers, rows: seq<Shipment>)
    ensures Repair(rd, rows).Repaired? ==> |Repair(rd, rows).rows| == |rows|
    ensures Repair(rd, rows).Repaired? ==> forall i :: 0 <= i < |Repair(rd, rows).rows| ==> StatusMatchesDelay(Repair(rd, rows).rows[i])
    ensures Repair(rd, rows).Repaired? ==> forall i :: 0 <= i < |Repair(rd, rows).rows| ==>
              var r := Repair(rd, rows).rows[i];
              !NotShipped(r) && DayOf(r.requestedShip).None? ==> r.status == rows[i].status
  {
    var dated := RepairDates(rd, rows, RepairColumns);
    if Repair(rd, rows).Repaired? {
      var out := Repair(rd, rows).rows;
      forall i | 0 <= i < |out| ensures StatusMatchesDelay(out[i]) {
        var d := dated.value[i].(delayDays := DelayOf(dated.value[i]));
        assert out[i] == d.(status := RederivedStatus(d));
      }
      RepairKeepsStatuses(rd, rows, RepairColumns);
    }
  }

  lemma {:induction false} RepairKeepsStatuses(rd: Readers, rows: seq<Shipment>, cols: seq<DateCol>)
    ensures var dated := RepairDates(rd, rows, cols);
            dated.Some? ==> forall i :: 0 <= i < |rows| ==> dated.value[i].status == rows[i].status
  {
    if |cols| > 0 {
      RepairKeepsStatuses(rd, rows, cols[..|cols| - 1]);
      var before := RepairDates(rd, rows, cols[..|cols| - 1]);
      if before.Some? {
        var c := cols[|cols| - 1];
        var converted := RepairColumn(rd, Column(before.value, c));
        if converted.Some? {
          forall i | 0 <= i < |rows| ensures WithColumn(before.value, c, converted.value)[i].status == rows[i].status {
            match c { case ActualShip => case RequestedShip => case Date1 => case Date2 => }
          }
        }
      }
    }
  }

  /** Rewriting a rewritten table changes no status. */
  lemma RelabelIdempotent(r: Shipment)
    ensures Relabelled(Relabelled(r)) == Relabelled(r)
  {
  }
}
