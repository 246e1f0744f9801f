/**
 * The shipment table: cells as pandas holds them, delivery statuses, calendar
 * days, and one record per shipment row with the columns the extractor writes.
 */
module Records {
  import opened Wrappers

  // ---------------------------------------------------------------- cells

  /**
   * A cell as pandas holds it: missing (NaN/NaT), a timestamp (kept to whole
   * days since 1970-01-01), a number, or text.
   */
  datatype Cell = Blank | Timestamp(day: int) | Number(value: real) | Text(text: string)

  /** The calendar day of a datetime cell (`.dt.date`); anything else is missing. */
  function DayOf(c: Cell): Option<int>
  {
    if c.Timestamp? then Some(c.day) else None
  }

  /** A numeric cell's value; anything else is missing (pandas' skipna). */
  function NumberOf(c: Cell): Option<real>
  {
    if c.Number? then Some(c.value) else None
  }

  function DateCell(d: Option<int>): (c: Cell)
    ensures DayOf(c) == d
  {
    if d.Some? then Timestamp(d.value) else Blank
  }

  // ------------------------------------------------------------ calendar

  /** Days from 1970-01-01 to the proleptic Gregorian date y-m-d. */
  function DaysFromCivil(y: int, m: int, d: int): int
    requires 1 <= m <= 12
  {
    var y' := if m <= 2 then y - 1 else y;
    var era := y' / 400;
    var yoe := y' - era * 400;
    var doy := (153 * (if m > 2 then m - 3 else m + 9) + 2) / 5 + d - 1;
    var doe := yoe * 365 + yoe / 4 - yoe / 100 + doy;
    era * 146097 + doe - 719468
  }

  /** Day zero of spreadsheet serial numbers: 1899-12-30. */
  const SerialEpoch: int := DaysFromCivil(1899, 12, 30)

  /** `pd.to_datetime('1899-12-30') + pd.to_timedelta(v, unit='D')`, whole days. */
  function SerialDay(v: real): int
  {
    SerialEpoch + v.Floor
  }

  /**
   * pandas holds a timestamp as signed 64-bit nanoseconds since 1970, which
   * reach from 1677-09-21 00:12:43 to 2262-04-11 23:47:16; at whole-day
   * precision the days in between, from 1677-09-22 to 2262-04-11.
   */
  const FirstTimestampDay: int := DaysFromCivil(1677, 9, 22)
  const LastTimestampDay: int := DaysFromCivil(2262, 4, 11)

  /** A timedelta has the same 64-bit range: at most 106751 whole days. */
  const MaxTimedeltaDays: int := 106751

  predicate InTimestampRange(d: int)
  {
    FirstTimestampDay <= d <= LastTimestampDay
  }

  lemma SerialDayExamples()
    ensures SerialEpoch == -25569
    ensures DaysFromCivil(1970, 1, 1) == 0
    ensures SerialDay(25569.0) == DaysFromCivil(1970, 1, 1)
    ensures SerialDay(45839.0) == DaysFromCivil(2025, 7, 1)
    ensures FirstTimestampDay == -106751 && LastTimestampDay == 106751
  {
  }

  // ------------------------------------------------------------ statuses

  datatype StatusTag = Advanced | Late | OnTime | NotDue | Other(raw: string)

  /**
   * A `Delivery_Status` value.  Text is read through ParseStatus, so `Other`
   * never carries one of the four known names.
   */
  type Status = s: StatusTag | !(s.Other? && s.raw in {"Advanced", "Late", "On Time", "Not Due"}) witness Late

  function StatusName(s: Status): string
  {
    match s
    case Advanced => "Advanced"
    case Late => "Late"
    case OnTime => "On Time"
    case NotDue => "Not Due"
    case Other(raw) => raw
  }

  function ParseStatus(t: string): (s: Status)
    ensures StatusName(s) == t
  {
    if t == "Advanced" then Advanced
    else if t == "Late" then Late
    else if t == "On Time" then OnTime
    else if t == "Not Due" then NotDue
    else Other(t)
  }

  /** Reading a status back from its name gives the same status. */
  lemma ParseStatusName(s: Status)
    ensures ParseStatus(StatusName(s)) == s
  {
  }

  /** The four statuses the cleaned table may hold. */
  predicate KnownStatus(s: Option<Status>)
  {
    s.Some? && !s.value.Other?
  }

  // ------------------------------------------------------------ shipments

  /**
   * One row of the shipment table.  `delayDays` and `transactionId` are
   * missing until the extractor derives them.  `quantity` is whatever the
   * sheet held until it is coerced to a number.
   */
  datatype Shipment = Shipment(
    plant: Option<string>,          // SLS_Plant
    category: Option<string>,       // Category
    masterBrand: Option<string>,    // Master_Brand
    brand: Option<string>,          // Brand
    planningLevel: Option<string>,  // Planning_Level
    quantity: Cell,                 // Quantity
    source: Option<string>,         // Source (the shipping plant)
    actualShip: Cell,               // Actual_Ship_Date
    requestedShip: Cell,            // Requested_Ship_Date
    status: Option<Status>,         // Delivery_Status
    delayDays: Option<int>,         // Delay_Days
    transactionId: Option<int>,     // Transaction_ID
    date1: Cell,                    // Date1
    date2: Cell,                    // Date2
    shippingStatus: Cell,           // DLV_Shipping_Status
    lineItem: Cell,                 // L_I
    month: Cell)                    // Month

  /** The categorical columns the dashboard groups and filters by. */
  datatype Dim = SlsPlant | SourcePlant | CategoryDim | MasterBrandDim | BrandDim | PlanningLevelDim

  function DimValue(r: Shipment, d: Dim): Option<string>
  {
    match d
    case SlsPlant => r.plant
    case SourcePlant => r.source
    case CategoryDim => r.category
    case MasterBrandDim => r.masterBrand
    case BrandDim => r.brand
    case PlanningLevelDim => r.planningLevel
  }

  // ------------------------------------------------------------ date columns

  /** The columns the extractor and the loader parse as dates. */
  datatype DateCol = ActualShip | RequestedShip | Date1 | Date2

  function DateOf(r: Shipment, c: DateCol): Cell
  {
    match c
    case ActualShip => r.actualShip
    case RequestedShip => r.requestedShip
    case Date1 => r.date1
    case Date2 => r.date2
  }

  function WithDate(r: Shipment, c: DateCol, v: Cell): (r': Shipment)
    ensures DateOf(r', c) == v
  {
    match c
    case ActualShip => r.(actualShip := v)
    case RequestedShip => r.(requestedShip := v)
    case Date1 => r.(date1 := v)
    case Date2 => r.(date2 := v)
  }

  function Column(rows: seq<Shipment>, c: DateCol): (cells: seq<Cell>)
    ensures |cells| == |rows|
    ensures forall i :: 0 <= i < |rows| ==> cells[i] == DateOf(rows[i], c)
  {
    seq(|rows|, i requires 0 <= i < |rows| => DateOf(rows[i], c))
  }

  /** `df[c] = cells` */
  function WithColumn(rows: seq<Shipment>, c: DateCol, cells: seq<Cell>): (rows': seq<Shipment>)
    requires |cells| == |rows|
    ensures |rows'| == |rows|
    ensures forall i :: 0 <= i < |rows| ==> rows'[i] == WithDate(rows[i], c, cells[i])
  {
    seq(|rows|, i requires 0 <= i < |rows| => WithDate(rows[i], c, cells[i]))
  }

  /** A column pandas would hold as `datetime64`: only timestamps and NaT. */
  predicate IsDatetimeColumn(cells: seq<Cell>)
  {
    forall i :: 0 <= i < |cells| ==> cells[i].Blank? || cells[i].Timestamp?
  }

  /** A column pandas would hold as numbers: only numbers and NaN. */
  predicate IsNumericColumn(cells: seq<Cell>)
  {
    forall i :: 0 <= i < |cells| ==> cells[i].Blank? || cells[i].Number?
  }

  /**
   * pandas' text and number parsing, which this model does not reimplement:
   * what `pd.to_datetime(errors='coerce')` makes of one text or number cell,
   * what `pd.to_numeric(errors='coerce')` makes of one text cell, and whether
   * the whole-column conversions raise instead of coercing.
   */
  datatype Readers = Readers(
    textDate: string -> Option<int>,
    numberDate: real -> Option<int>,
    textNumber: string -> Option<real>,
    standardRaises: seq<Cell> -> bool,
    serialRaises: seq<Cell> -> bool)

  /** `pd.to_datetime(cell, errors='coerce')` */
  function StandardDate(rd: Readers, c: Cell): Option<int>
  {
    match c
    case Blank => None
    case Timestamp(d) => Some(d)
    case Number(v) => rd.numberDate(v)
    case Text(t) => rd.textDate(t)
  }

  /** `pd.to_datetime(col, errors='coerce')`, or None where it raises. */
  function StandardColumn(rd: Readers, cells: seq<Cell>): (r: Option<seq<Cell>>)
    ensures r.Some? ==> |r.value| == |cells| && IsDatetimeColumn(r.value)
    ensures r.Some? ==> forall i :: 0 <= i < |cells| ==> DayOf(r.value[i]) == StandardDate(rd, cells[i])
  {
    if rd.standardRaises(cells) then None
    else Some(seq(|cells|, i requires 0 <= i < |cells| => DateCell(StandardDate(rd, cells[i]))))
  }

  /**
   * `pd.to_datetime(cell, errors='coerce', origin='1899-12-30', unit='D')`:
   * a serial whose day pandas cannot hold is coerced to NaT like any other
   * unreadable cell.
   */
  function SerialDate(c: Cell): Option<int>
  {
    if c.Number? && InTimestampRange(SerialDay(c.value)) then Some(SerialDay(c.value)) else None
  }

  /** The serial-day conversion of a whole column, or None where it raises. */
  function SerialColumn(rd: Readers, cells: seq<Cell>): (r: Option<seq<Cell>>)
    ensures r.Some? ==> |r.value| == |cells| && IsDatetimeColumn(r.value)
    ensures r.Some? ==> forall i :: 0 <= i < |cells| ==> DayOf(r.value[i]) == SerialDate(cells[i])
  {
    if rd.serialRaises(cells) then None
    else Some(seq(|cells|, i requires 0 <= i < |cells| => DateCell(SerialDate(cells[i]))))
  }

  /** `df[c] = pd.to_datetime(df[c], errors='coerce')`, with the column left as it was where that raises. */
  function ParseColumn(rd: Readers, rows: seq<Shipment>, c: DateCol): (rows': seq<Shipment>)
    ensures |rows'| == |rows|
    ensures StandardColumn(rd, Column(rows, c)).Some? ==> Column(rows', c) == StandardColumn(rd, Column(rows, c)).value
    ensures StandardColumn(rd, Column(rows, c)).None? ==> rows' == rows
    ensures forall i :: 0 <= i < |rows| ==> rows'[i] == WithDate(rows[i], c, DateOf(rows'[i], c))
  {
    var conv := StandardColumn(rd, Column(rows, c));
    if conv.None? then rows
    else
      var rows' := WithColumn(rows, c, conv.value);
      assert forall i :: 0 <= i < |rows| ==> DateOf(rows'[i], c) == conv.value[i];
      rows'
  }

  /**
   * `pd.to_numeric(cell, errors='coerce')`: numbers stay, text is read by the
   * parser or becomes missing, and anything else becomes missing.
   */
  function NumericCell(rd: Readers, c: Cell): (r: Cell)
    ensures r.Blank? || r.Number?
    ensures c.Number? || c.Blank? ==> r == c
  {
    match c
    case Number(_) => c
    case Text(t) => if rd.textNumber(t).Some? then Number(rd.textNumber(t).value) else Blank
    case _ => Blank
  }

  /** `(Actual_Ship_Date - Requested_Ship_Date).dt.days` for one row. */
  function DelayOf(r: Shipment): Option<int>
  {
    var a := DayOf(r.actualShip);
    var q := DayOf(r.requestedShip);
    if a.Some? && q.Some? then Some(a.value - q.value) else None
  }

  /**
   * The `Delay_Days` column: the day difference where both columns are
   * datetime, and 0 for every row where the subtraction raises because one
   * of them is not.
   */
  function DeriveDelays(rows: seq<Shipment>): (rows': seq<Shipment>)
    ensures |rows'| == |rows|
    ensures IsDatetimeColumn(Column(rows, ActualShip)) && IsDatetimeColumn(Column(rows, RequestedShip)) ==>
              forall i :: 0 <= i < |rows| ==> rows'[i] == rows[i].(delayDays := DelayOf(rows[i]))
    ensures !(IsDatetimeColumn(Column(rows, ActualShip)) && IsDatetimeColumn(Column(rows, RequestedShip))) ==>
              forall i :: 0 <= i < |rows| ==> rows'[i] == rows[i].(delayDays := Some(0))
  {
    var typed := IsDatetimeColumn(Column(rows, ActualShip)) && IsDatetimeColumn(Column(rows, RequestedShip));
    seq(|rows|, i requires 0 <= i < |rows| =>
      rows[i].(delayDays := if typed then DelayOf(rows[i]) else Some(0)))
  }

  // ------------------------------------------------------------ status counts

  /** `value_counts()` of `Delivery_Status`, with every unknown status in `other`. */
  datatype Tally = Tally(advanced: nat, late: nat, onTime: nat, notDue: nat, other: nat)
  {
    function Total(): nat { advanced + late + onTime + notDue + other }
  }

  function Bump(t: Tally, s: Option<Status>): Tally
  {
    match s
    case None => t
    case Some(Advanced) => t.(advanced := t.advanced + 1)
    case Some(Late) => t.(late := t.late + 1)
    case Some(OnTime) => t.(onTime := t.onTime + 1)
    case Some(NotDue) => t.(notDue := t.notDue + 1)
    case Some(Other(_)) => t.(other := t.other + 1)
  }

  function TallyOf(rows: seq<Shipment>): Tally
  {
    if |rows| == 0 then Tally(0, 0, 0, 0, 0)
    else Bump(TallyOf(rows[..|rows| - 1]), rows[|rows| - 1].status)
  }

  /** Number of rows whose status is `s`. */
  function CountStatus(rows: seq<Shipment>, s: Status): (n: nat)
    ensures n <= |rows|
  {
    if |rows| == 0 then 0
    else CountStatus(rows[1..], s) + (if rows[0].status == Some(s) then 1 else 0)
  }

  /** Number of rows whose status is not missing. */
  function CountWithStatus(rows: seq<Shipment>): (n: nat)
    ensures n <= |rows|
  {
    if |rows| == 0 then 0
    else CountWithStatus(rows[1..]) + (if rows[0].status.Some? then 1 else 0)
  }

  /** Number of rows whose status is one of the four known ones. */
  function CountKnown(rows: seq<Shipment>): nat
  {
    CountStatus(rows, Advanced) + CountStatus(rows, Late) + CountStatus(rows, OnTime) + CountStatus(rows, NotDue)
  }

  lemma {:induction false} CountStatusAppend(rows: seq<Shipment>, r: Shipment, s: Status)
    ensures CountStatus(rows + [r], s) == CountStatus(rows, s) + (if r.status == Some(s) then 1 else 0)
  {
    if |rows| > 0 {
      assert (rows + [r])[1..] == rows[1..] + [r];
      CountStatusAppend(rows[1..], r, s);
    }
  }

  lemma {:induction false} CountWithStatusAppend(rows: seq<Shipment>, r: Shipment)
    ensures CountWithStatus(rows + [r]) == CountWithStatus(rows) + (if r.status.Some? then 1 else 0)
  {
    if |rows| > 0 {
      assert (rows + [r])[1..] == rows[1..] + [r];
      CountWithStatusAppend(rows[1..], r);
    }
  }

  /** The tally agrees with the independent counts, and its total is the number of rows with a status. */
  lemma {:induction false} TallyCounts(rows: seq<Shipment>)
    ensures TallyOf(rows).advanced == CountStatus(rows, Advanced)
    ensures TallyOf(rows).late == CountStatus(rows, Late)
    ensures TallyOf(rows).onTime == CountStatus(rows, OnTime)
    ensures TallyOf(rows).notDue == CountStatus(rows, NotDue)
    ensures TallyOf(rows).Total() == CountWithStatus(rows)
  {
    if |rows| > 0 {
      var init, last := rows[..|rows| - 1], rows[|rows| - 1];
      assert rows == init + [last];
      TallyCounts(init);
      CountStatusAppend(init, last, Advanced);
      CountStatusAppend(init, last, Late);
      CountStatusAppend(init, last, OnTime);
      CountStatusAppend(init, last, NotDue);
      CountWithStatusAppend(init, last);
      assert TallyOf(rows) == Bump(TallyOf(init), last.status);
      match last.status {
        case None =>
        case Some(st) =>
          match st {
            case Advanced =>
            case Late =>
            case OnTime =>
            case NotDue =>
            case Other(_) =>
          }
      }
    }
  }

  /** Rows with an unknown status are exactly the ones the tally files under `other`. */
  lemma TallyKnown(rows: seq<Shipment>)
    ensures TallyOf(rows).Total() == CountKnown(rows) + TallyOf(rows).other
  {
    TallyCounts(rows);
  }
}
