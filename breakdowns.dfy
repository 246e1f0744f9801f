/**
 * The grouped views of the shipment table: per-category, per-plant and
 * per-brand status breakdowns, the daily series, the pivot table and the
 * top-N products.
 */
module Breakdowns {
  import opened Wrappers
  import opened Records
  import opened Numbers
  import opened Seqs
  import opened Frames
  import opened Sorting
  import Groups
  import Kpis

  /** Every row has a status: then each one is counted in the tally's total. */
  lemma {:induction false} TallyTotalAll(rows: seq<Shipment>)
    requires forall i :: 0 <= i < |rows| ==> rows[i].status.Some?
    ensures TallyOf(rows).Total() == |rows|
    ensures TallyOf(rows).late <= |rows|
  {
    if |rows| > 0 {
      TallyTotalAll(rows[..|rows| - 1]);
    }
  }

  // ------------------------------------------------------------ status breakdowns

  /** One line of a breakdown: the group's status counts, their total and its late rate. */
  datatype GroupStats = GroupStats(key: string, counts: Tally, total: nat, lateRate: real)

  /** The rows the breakdown by `d` counts under key `k`: those with that key and a status. */
  function KeyedRows(rows: seq<Shipment>, d: Dim, k: string): seq<Shipment>
  {
    Filter(rows, (r: Shipment) => DimValue(r, d) == Some(k) && r.status.Some?)
  }

  function GroupRow(rows: seq<Shipment>, d: Dim, k: string): (g: GroupStats)
    ensures g.key == k
  {
    var t := TallyOf(KeyedRows(rows, d, k));
    GroupStats(k, t, t.Total(), Round1(GuardedPercent(t.late as real, t.Total() as real)))
  }

  /** The groups `groupby([d, 'Delivery_Status'])` forms: keys of rows that also have a status. */
  function BreakdownKeys(rows: seq<Shipment>, d: Dim): seq<string>
  {
    Groups.Keys(rows, (r: Shipment) => if r.status.Some? then DimValue(r, d) else None)
  }

  /** Some grouped row is late, so the unstacked table has a `Late` column. */
  predicate AnyLate(rows: seq<Shipment>, d: Dim)
  {
    exists i :: 0 <= i < |rows| && DimValue(rows[i], d).Some? && rows[i].status == Some(Late)
  }

  datatype Order = ByLateRate | ByTotal

  function OrderKey(o: Order): GroupStats -> real
  {
    match o
    case ByLateRate => (g: GroupStats) => g.lateRate
    case ByTotal => (g: GroupStats) => g.total as real
  }

  /** One line per key, in key order. */
  function Lines(rows: seq<Shipment>, d: Dim): (lines: seq<GroupStats>)
    ensures |lines| == |BreakdownKeys(rows, d)|
    ensures forall i :: 0 <= i < |lines| ==> lines[i] == GroupRow(rows, d, BreakdownKeys(rows, d)[i])
  {
    var keys := BreakdownKeys(rows, d);
    seq(|keys|, i requires 0 <= i < |keys| => GroupRow(rows, d, keys[i]))
  }

  /**
   * A breakdown by `d`, sorted descending by `o`.  Without any late row
   * `get('Late', 0)` is the number 0, whose `.div` raises: the caught
   * exception yields the empty table.
   */
  function Breakdown(ship: ShippingFrame, d: Dim, o: Order): seq<GroupStats>
  {
    if ship.Absent() || !AnyLate(ship.rows, d) then []
    else SortDesc(Lines(ship.rows, d), OrderKey(o))
  }

  /** `get_category_analysis` */
  function CategoryAnalysis(ship: ShippingFrame): seq<GroupStats>
  {
    Breakdown(ship, CategoryDim, ByLateRate)
  }

  /** `get_plant_performance` */
  function PlantPerformance(ship: ShippingFrame): seq<GroupStats>
  {
    Breakdown(ship, SourcePlant, ByLateRate)
  }

  /** `get_brand_analysis` */
  function BrandAnalysis(ship: ShippingFrame): seq<GroupStats>
  {
    Breakdown(ship, MasterBrandDim, ByTotal)
  }

  /** The line for a key that occurs: its total is its row count, never 0, and its rate is the rounded late share. */
  lemma GroupRowOf(rows: seq<Shipment>, d: Dim, k: string)
    requires k in BreakdownKeys(rows, d)
    ensures var g := GroupRow(rows, d, k);
            g.key == k && g.total == |KeyedRows(rows, d, k)| && g.total > 0 &&
            g.counts.late == CountStatus(KeyedRows(rows, d, k), Late) &&
            g.lateRate == Rate(g.counts.late, g.total) &&
            0.0 <= g.lateRate <= 100.0 &&
            Percent(g.counts.late, g.total) - 0.05 < g.lateRate <= Percent(g.counts.late, g.total) + 0.05
  {
    var g := KeyedRows(rows, d, k);
    var i :| 0 <= i < |rows| && (if rows[i].status.Some? then DimValue(rows[i], d) else None) == Some(k);
    assert rows[i] in g;
    TallyTotalAll(g);
    TallyCounts(g);
    var t := TallyOf(g);
    GuardedIsPercent(t.late, t.Total());
    RateBounds(t.late, t.Total());
  }

  /** The lines are exactly the keys' lines. */
  lemma LinesOf(rows: seq<Shipment>, d: Dim)
    ensures forall k :: k in BreakdownKeys(rows, d) ==> GroupRow(rows, d, k) in Lines(rows, d)
    ensures forall g :: g in Lines(rows, d) ==> g.key in BreakdownKeys(rows, d) && g == GroupRow(rows, d, g.key)
  {
    KeysHaveLines(rows, d);
    LinesHaveKeys(rows, d);
  }

  lemma KeysHaveLines(rows: seq<Shipment>, d: Dim)
    ensures forall k :: k in BreakdownKeys(rows, d) ==> GroupRow(rows, d, k) in Lines(rows, d)
  {
    var keys := BreakdownKeys(rows, d);
    var lines := Lines(rows, d);
    forall k | k in keys ensures GroupRow(rows, d, k) in lines {
      var j :| 0 <= j < |keys| && keys[j] == k;
      assert lines[j] == GroupRow(rows, d, k);
    }
  }

  lemma LinesHaveKeys(rows: seq<Shipment>, d: Dim)
    ensures forall g :: g in Lines(rows, d) ==> g.key in BreakdownKeys(rows, d) && g == GroupRow(rows, d, g.key)
  {
    var keys := BreakdownKeys(rows, d);
    var lines := Lines(rows, d);
    forall g | g in lines ensures g.key in keys && g == GroupRow(rows, d, g.key) {
      var j :| 0 <= j < |lines| && lines[j] == g;
      assert g == GroupRow(rows, d, keys[j]);
    }
  }

  /** A late grouped row gives its key a line. */
  lemma AnyLateKeys(rows: seq<Shipment>, d: Dim)
    requires AnyLate(rows, d)
    ensures |BreakdownKeys(rows, d)| > 0
  {
    var i :| 0 <= i < |rows| && DimValue(rows[i], d).Some? && rows[i].status == Some(Late);
    assert DimValue(rows[i], d).value in BreakdownKeys(rows, d);
  }

  lemma SortedLines(rows: seq<Shipment>, d: Dim, o: Order)
    requires AnyLate(rows, d)
    ensures |SortDesc(Lines(rows, d), OrderKey(o))| == |BreakdownKeys(rows, d)| > 0
    ensures forall k :: k in BreakdownKeys(rows, d) ==> GroupRow(rows, d, k) in SortDesc(Lines(rows, d), OrderKey(o))
    ensures forall g :: g in SortDesc(Lines(rows, d), OrderKey(o)) ==> g.key in BreakdownKeys(rows, d) && g == GroupRow(rows, d, g.key)
  {
    AnyLateKeys(rows, d);
    LinesOf(rows, d);
    SortDescMembers(Lines(rows, d), OrderKey(o));
  }

  /** A breakdown comes sorted by its order key. */
  lemma BreakdownSorted(ship: ShippingFrame, d: Dim, o: Order)
    ensures SortedDesc(Breakdown(ship, d, o), OrderKey(o))
  {
  }

  /**
   * A breakdown is empty exactly when there are no rows or none of the
   * grouped rows is late; otherwise it has one line per key, sorted
   * descending by its order, each line as `GroupRowOf` describes.
   */
  lemma BreakdownLines(ship: ShippingFrame, d: Dim, o: Order)
    ensures |Breakdown(ship, d, o)| == 0 <==> ship.Absent() || !AnyLate(ship.rows, d)
    ensures SortedDesc(Breakdown(ship, d, o), OrderKey(o))
    ensures !ship.Absent() && AnyLate(ship.rows, d) ==>
              |Breakdown(ship, d, o)| == |BreakdownKeys(ship.rows, d)| &&
              (forall k :: k in BreakdownKeys(ship.rows, d) ==> GroupRow(ship.rows, d, k) in Breakdown(ship, d, o)) &&
              (forall g :: g in Breakdown(ship, d, o) ==> g.key in BreakdownKeys(ship.rows, d) && g == GroupRow(ship.rows, d, g.key))
  {
    if !ship.Absent() && AnyLate(ship.rows, d) {
      SortedLines(ship.rows, d, o);
    }
  }

  // ------------------------------------------------------------ daily series

  /** One day of `get_time_series_data`: status counts, and the late rate when the table has a `Late` column. */
  datatype Day = Day(day: int, counts: Tally, lateRate: Option<real>)

  function Dated(rows: seq<Shipment>): seq<Shipment>
  {
    Filter(rows, (r: Shipment) => !r.actualShip.Blank?)
  }

  function DayRows(rows: seq<Shipment>, day: int): seq<Shipment>
  {
    Filter(rows, (r: Shipment) => DayOf(r.actualShip) == Some(day) && r.status.Some?)
  }

  function DayKeys(rows: seq<Shipment>): seq<int>
  {
    Groups.DayKeys(rows, (r: Shipment) => if r.status.Some? then DayOf(r.actualShip) else None)
  }

  /**
   * `get_time_series_data`: the dated rows grouped by calendar day and
   * status.  A ship-date column that is not datetime cannot be grouped by
   * day: the caught exception yields the empty table.
   */
  function TimeSeries(ship: ShippingFrame): seq<Day>
  {
    if ship.Absent() then []
    else
      var valid := Dated(ship.rows);
      if |valid| == 0 || !IsDatetimeColumn(Column(valid, ActualShip)) then []
      else
        var days := DayKeys(valid);
        var hasLate := exists i :: 0 <= i < |valid| && valid[i].status == Some(Late);
        seq(|days|, i requires 0 <= i < |days| =>
          var t := TallyOf(DayRows(valid, days[i]));
          Day(days[i], t, if hasLate then Some(Round1(GuardedPercent(t.late as real, t.Total() as real))) else None))
  }

  /** The days of a series, in its order. */
  function DaysOf(ts: seq<Day>): (ds: seq<int>)
    ensures |ds| == |ts| && forall i :: 0 <= i < |ts| ==> ds[i] == ts[i].day
  {
    seq(|ts|, i requires 0 <= i < |ts| => ts[i].day)
  }

  /** Some row with a ship date is late. */
  predicate AnyDatedLate(rows: seq<Shipment>)
  {
    exists j :: 0 <= j < |rows| && rows[j].actualShip.Timestamp? && rows[j].status == Some(Late)
  }

  /**
   * A line of the series for `rows`: its day is the day of a statused row,
   * its counts are the status counts of that day's rows, whose total is
   * never 0, and it has a late rate exactly when `late` holds: the day's
   * late share, rounded, within [0, 100].
   */
  predicate DayEntry(rows: seq<Shipment>, e: Day, late: bool)
  {
    (exists j :: 0 <= j < |rows| && DayOf(rows[j].actualShip) == Some(e.day) && rows[j].status.Some?) &&
    e.counts == TallyOf(DayRows(rows, e.day)) &&
    e.counts.Total() == |DayRows(rows, e.day)| && e.counts.Total() > 0 &&
    (e.lateRate.Some? <==> late) &&
    (e.lateRate.Some? ==> e.lateRate.value == Round1(GuardedPercent(e.counts.late as real, e.counts.Total() as real))) &&
    (e.lateRate.Some? ==> 0.0 <= e.lateRate.value <= 100.0)
  }

  /** The ship-date column of the dated rows is datetime, so the series can group by day. */
  predicate DayGroupable(ship: ShippingFrame)
  {
    !ship.Absent() && IsDatetimeColumn(Column(Dated(ship.rows), ActualShip))
  }

  /**
   * The series lists each day with a dated, statused row once, in
   * increasing order, and every such day when the ship dates are datetime;
   * each day's counts are its rows' status counts, never 0 in total; a late
   * rate is given on every day exactly when some dated row is late, and it
   * is the day's rounded late share.
   */
  lemma TimeSeriesDays(ship: ShippingFrame)
    ensures Groups.Increasing(DaysOf(TimeSeries(ship)))
    ensures forall e :: e in TimeSeries(ship) ==> DayEntry(ship.rows, e, AnyDatedLate(ship.rows))
    ensures DayGroupable(ship) ==> forall j :: 0 <= j < |ship.rows| && ship.rows[j].actualShip.Timestamp? && ship.rows[j].status.Some? ==>
              ship.rows[j].actualShip.day in DaysOf(TimeSeries(ship))
  {
    var ts := TimeSeries(ship);
    if DayGroupable(ship) {
      TimeSeriesCovers(ship);
    }
    if |ts| > 0 {
      var rows := ship.rows;
      var valid := Dated(rows);
      var days := DayKeys(valid);
      assert |ts| == |days|;
      assert DaysOf(ts) == days;
      LateDated(rows);
      forall e | e in ts ensures DayEntry(rows, e, AnyDatedLate(rows)) {
        var i :| 0 <= i < |ts| && ts[i] == e;
        DayLine(rows, days[i]);
      }
    }
  }

  /** Every dated, statused row's day is a day of the series once the dates can be grouped. */
  lemma TimeSeriesCovers(ship: ShippingFrame)
    requires DayGroupable(ship)
    ensures forall j :: 0 <= j < |ship.rows| && ship.rows[j].actualShip.Timestamp? && ship.rows[j].status.Some? ==>
              ship.rows[j].actualShip.day in DaysOf(TimeSeries(ship))
  {
    var rows := ship.rows;
    var valid := Dated(rows);
    var key := (r: Shipment) => if r.status.Some? then DayOf(r.actualShip) else None;
    forall j | 0 <= j < |rows| && rows[j].actualShip.Timestamp? && rows[j].status.Some?
      ensures rows[j].actualShip.day in DaysOf(TimeSeries(ship))
    {
      assert rows[j] in valid;
      var k :| 0 <= k < |valid| && valid[k] == rows[j];
      assert key(valid[k]) == Some(rows[j].actualShip.day);
      assert rows[j].actualShip.day in DayKeys(valid);
      assert DaysOf(TimeSeries(ship)) == DayKeys(valid);
    }
  }

  /** A day drawn from the dated rows: its rows in the dated table are its rows in the whole table. */
  lemma DayLine(rows: seq<Shipment>, day: int)
    requires day in DayKeys(Dated(rows))
    ensures exists j :: 0 <= j < |rows| && DayOf(rows[j].actualShip) == Some(day) && rows[j].status.Some?
    ensures DayRows(Dated(rows), day) == DayRows(rows, day)
    ensures var t := TallyOf(DayRows(rows, day));
            t.Total() == |DayRows(rows, day)| && t.Total() > 0 &&
            0.0 <= Round1(GuardedPercent(t.late as real, t.Total() as real)) <= 100.0
  {
    var valid := Dated(rows);
    var i :| 0 <= i < |valid| && (if valid[i].status.Some? then DayOf(valid[i].actualShip) else None) == Some(day);
    assert valid[i] in rows;
    var g := DayRows(rows, day);
    FilterAbsorbs(rows, (r: Shipment) => !r.actualShip.Blank?, (r: Shipment) => DayOf(r.actualShip) == Some(day) && r.status.Some?);
    assert valid[i] in g;
    TallyTotalAll(g);
    var t := TallyOf(g);
    GuardedIsPercent(t.late, t.Total());
    RateBounds(t.late, t.Total());
  }

  /** Some dated row is late exactly when some row with a ship date is late. */
  lemma LateDated(rows: seq<Shipment>)
    requires IsDatetimeColumn(Column(Dated(rows), ActualShip))
    ensures (exists i :: 0 <= i < |Dated(rows)| && Dated(rows)[i].status == Some(Late)) <==> AnyDatedLate(rows)
  {
    var valid := Dated(rows);
    if exists i :: 0 <= i < |valid| && valid[i].status == Some(Late) {
      var i :| 0 <= i < |valid| && valid[i].status == Some(Late);
      assert Column(valid, ActualShip)[i] == valid[i].actualShip;
      FilterFrom(rows, (r: Shipment) => !r.actualShip.Blank?, i);
    }
    if exists j :: 0 <= j < |rows| && rows[j].actualShip.Timestamp? && rows[j].status == Some(Late) {
      var j :| 0 <= j < |rows| && rows[j].actualShip.Timestamp? && rows[j].status == Some(Late);
      assert rows[j] in valid;
    }
  }

  // ------------------------------------------------------------ pivot table

  /** The value column of a pivot: `Quantity` or `Delay_Days`. */
  datatype Measure = QuantityValue | DelayValue

  function MeasureOf(r: Shipment, m: Measure): real
  {
    match m
    case QuantityValue => NumberOf(r.quantity).GetOr(0.0)
    case DelayValue => if r.delayDays.Some? then r.delayDays.value as real else 0.0
  }

  /** The row's index labels and column label; None when any of them is missing (`dropna`). */
  function PivotKey(r: Shipment, index: seq<Dim>, column: Dim): (k: Option<(seq<string>, string)>)
    ensures k.Some? ==> |k.value.0| == |index|
  {
    if DimValue(r, column).None? || exists j :: 0 <= j < |index| && DimValue(r, index[j]).None? then None
    else Some((seq(|index|, j requires 0 <= j < |index| => DimValue(r, index[j]).value), DimValue(r, column).value))
  }

  /** One filled cell of the pivot table. */
  datatype PivotCell = PivotCell(key: (seq<string>, string), value: real)

  function PivotKeys(cells: seq<PivotCell>): seq<(seq<string>, string)>
  {
    seq(|cells|, i requires 0 <= i < |cells| => cells[i].key)
  }

  /** Adds `v` to the cell under `k`, or opens a new cell. */
  function AddTo(cells: seq<PivotCell>, k: (seq<string>, string), v: real): (cells': seq<PivotCell>)
    requires Distinct(PivotKeys(cells))
    ensures Distinct(PivotKeys(cells'))
    ensures forall x :: x in PivotKeys(cells') <==> x in PivotKeys(cells) || x == k
  {
    if |cells| == 0 then
      assert PivotKeys([PivotCell(k, v)]) == [k];
      [PivotCell(k, v)]
    else if cells[0].key == k then
      var r := [PivotCell(k, cells[0].value + v)] + cells[1..];
      assert PivotKeys(r) == PivotKeys(cells);
      assert PivotKeys(cells)[0] == k;
      r
    else
      assert PivotKeys(cells[1..]) == PivotKeys(cells)[1..];
      var rest := AddTo(cells[1..], k, v);
      var r := [cells[0]] + rest;
      assert PivotKeys(r) == [cells[0].key] + PivotKeys(rest);
      forall j | 0 <= j < |cells| - 1 ensures PivotKeys(cells[1..])[j] != cells[0].key {
        assert PivotKeys(cells)[j + 1] == PivotKeys(cells[1..])[j];
        assert PivotKeys(cells)[0] == cells[0].key;
        assert PivotKeys(cells)[0] != PivotKeys(cells)[j + 1];
      }
      assert cells[0].key !in PivotKeys(rest);
      assert PivotKeys(cells) == [cells[0].key] + PivotKeys(cells[1..]);
      r
  }

  /** The filled cells of the pivot over `rows`, in order of first appearance. */
  function PivotCells(rows: seq<Shipment>, index: seq<Dim>, column: Dim, m: Measure): (cells: seq<PivotCell>)
    ensures Distinct(PivotKeys(cells))
  {
    if |rows| == 0 then []
    else
      var before := PivotCells(rows[..|rows| - 1], index, column, m);
      var last := rows[|rows| - 1];
      var k := PivotKey(last, index, column);
      if k.None? then before else AddTo(before, k.value, MeasureOf(last, m))
  }

  /**
   * `create_pivot_table(index, column, value, 'sum')`; the empty table
   * without rows.  Summing a `Quantity` column that holds text or
   * timestamps raises, and the caught error gives the empty table too.
   */
  function PivotTable(ship: ShippingFrame, index: seq<Dim>, column: Dim, m: Measure): seq<PivotCell>
  {
    if ship.Absent() || (m == QuantityValue && !IsNumericColumn(Quantities(ship.rows))) then []
    else PivotCells(ship.rows, index, column, m)
  }

  /** The pivot sums the measure of a table whose summed column is numeric. */
  predicate Pivotable(ship: ShippingFrame, m: Measure)
  {
    !ship.Absent() && (m == QuantityValue ==> IsNumericColumn(Quantities(ship.rows)))
  }

  /** A cell of the pivot as the frame shows it: the sum, or `fill_value=0` where no row falls. */
  function Lookup(cells: seq<PivotCell>, k: (seq<string>, string)): real
  {
    if |cells| == 0 then 0.0
    else if cells[0].key == k then cells[0].value
    else Lookup(cells[1..], k)
  }

  /** The sum of the measure over the rows whose labels are `k`. */
  function GroupSum(rows: seq<Shipment>, index: seq<Dim>, column: Dim, m: Measure, k: (seq<string>, string)): real
  {
    if |rows| == 0 then 0.0
    else
      var last := rows[|rows| - 1];
      GroupSum(rows[..|rows| - 1], index, column, m, k) + (if PivotKey(last, index, column) == Some(k) then MeasureOf(last, m) else 0.0)
  }

  /** The sum of the measure over all rows with all their labels. */
  function LabelledSum(rows: seq<Shipment>, index: seq<Dim>, column: Dim, m: Measure): real
  {
    if |rows| == 0 then 0.0
    else
      var last := rows[|rows| - 1];
      LabelledSum(rows[..|rows| - 1], index, column, m) + (if PivotKey(last, index, column).Some? then MeasureOf(last, m) else 0.0)
  }

  function CellsTotal(cells: seq<PivotCell>): real
  {
    if |cells| == 0 then 0.0 else cells[0].value + CellsTotal(cells[1..])
  }

  lemma {:induction false} AddToLookup(cells: seq<PivotCell>, k: (seq<string>, string), v: real, q: (seq<string>, string))
    requires Distinct(PivotKeys(cells))
    ensures Lookup(AddTo(cells, k, v), q) == Lookup(cells, q) + (if q == k then v else 0.0)
    ensures CellsTotal(AddTo(cells, k, v)) == CellsTotal(cells) + v
  {
    if |cells| > 0 && cells[0].key != k {
      assert PivotKeys(cells[1..]) == PivotKeys(cells)[1..];
      AddToLookup(cells[1..], k, v, q);
    } else if |cells| > 0 {
      var r := AddTo(cells, k, v);
      assert r[1..] == cells[1..];
      if q == k {
        assert Lookup(r, q) == cells[0].value + v;
      }
    }
  }

  lemma {:induction false} PivotCellsLookup(rows: seq<Shipment>, index: seq<Dim>, column: Dim, m: Measure, k: (seq<string>, string))
    ensures Lookup(PivotCells(rows, index, column, m), k) == GroupSum(rows, index, column, m, k)
  {
    if |rows| > 0 {
      var before := PivotCells(rows[..|rows| - 1], index, column, m);
      PivotCellsLookup(rows[..|rows| - 1], index, column, m, k);
      var pk := PivotKey(rows[|rows| - 1], index, column);
      if pk.Some? {
        AddToLookup(before, pk.value, MeasureOf(rows[|rows| - 1], m), k);
      }
    }
  }

  lemma {:induction false} PivotCellsTotal(rows: seq<Shipment>, index: seq<Dim>, column: Dim, m: Measure)
    ensures CellsTotal(PivotCells(rows, index, column, m)) == LabelledSum(rows, index, column, m)
  {
    if |rows| > 0 {
      var before := PivotCells(rows[..|rows| - 1], index, column, m);
      PivotCellsTotal(rows[..|rows| - 1], index, column, m);
      var pk := PivotKey(rows[|rows| - 1], index, column);
      if pk.Some? {
        AddToLookup(before, pk.value, MeasureOf(rows[|rows| - 1], m), pk.value);
      }
    }
  }

  /**
   * Each cell of the pivot is the sum of its group, and an absent cell reads
   * 0, which is that sum too; a missing table or a `Quantity` column that
   * cannot be summed gives the empty table.
   */
  lemma PivotCellIsGroupSum(ship: ShippingFrame, index: seq<Dim>, column: Dim, m: Measure, k: (seq<string>, string))
    ensures !Pivotable(ship, m) ==> PivotTable(ship, index, column, m) == []
    ensures Pivotable(ship, m) ==> Lookup(PivotTable(ship, index, column, m), k) == GroupSum(ship.rows, index, column, m, k)
  {
    if Pivotable(ship, m) {
      PivotCellsLookup(ship.rows, index, column, m, k);
    }
  }

  /**
   * The pivot's cells add up to the measure over every row with all its
   * labels; a missing table or a `Quantity` column that cannot be summed
   * gives the empty table.
   */
  lemma PivotTotal(ship: ShippingFrame, index: seq<Dim>, column: Dim, m: Measure)
    ensures !Pivotable(ship, m) ==> PivotTable(ship, index, column, m) == []
    ensures Pivotable(ship, m) ==> CellsTotal(PivotTable(ship, index, column, m)) == LabelledSum(ship.rows, index, column, m)
  {
    if Pivotable(ship, m) {
      PivotCellsTotal(ship.rows, index, column, m);
    }
  }

  // ------------------------------------------------------------ top products

  /** One `Planning_Level` line of `get_top_products`. */
  datatype Product = Product(level: string, lateCount: nat, totalCount: nat, lateRate: real, totalQuantity: real)

  function LevelRows(rows: seq<Shipment>, level: string): seq<Shipment>
  {
    Filter(rows, (r: Shipment) => r.planningLevel == Some(level))
  }

  function QuantitySum(rows: seq<Shipment>): real
  {
    if |rows| == 0 then 0.0
    else QuantitySum(rows[..|rows| - 1]) + NumberOf(rows[|rows| - 1].quantity).GetOr(0.0)
  }

  function ProductOf(rows: seq<Shipment>, level: string): Product
  {
    var g := LevelRows(rows, level);
    var late := |Filter(g, Kpis.IsLate)|;
    Product(level, late, |g|, Round1(GuardedPercent(late as real, |g| as real)), QuantitySum(g))
  }

  /** One line per planning level, in the sorted order `groupby` lists them. */
  function Products(rows: seq<Shipment>): (ps: seq<Product>)
    ensures |ps| == |Groups.Keys(rows, (r: Shipment) => r.planningLevel)|
  {
    var levels := Groups.Keys(rows, (r: Shipment) => r.planningLevel);
    seq(|levels|, i requires 0 <= i < |levels| => ProductOf(rows, levels[i]))
  }

  function Counts(ps: seq<Product>): seq<real>
  {
    seq(|ps|, i requires 0 <= i < |ps| => ps[i].totalCount as real)
  }

  function Quantities(rows: seq<Shipment>): seq<Cell>
  {
    seq(|rows|, i requires 0 <= i < |rows| => rows[i].quantity)
  }

  function LateCountKey(p: Product): real { p.lateCount as real }

  function QuantityKey(p: Product): real { p.totalQuantity }

  function LateRateKey(p: Product): real { p.lateRate }

  /** Products whose shipment count reaches `minVolume`. */
  function Sizeable(minVolume: real): Product -> bool
  {
    (p: Product) => p.totalCount as real >= minVolume
  }

  /**
   * `get_top_products(n, metric)`: the top n by late count, by quantity, or
   * by late rate among products whose size reaches the 10th percentile;
   * any other metric gives the first n.  A `Quantity` column that is not
   * numeric makes the grouped sum raise, and the empty table is returned.
   */
  function TopProducts(ship: ShippingFrame, n: nat, metric: string): seq<Product>
  {
    if ship.Absent() || !IsNumericColumn(Quantities(ship.rows)) then []
    else
      var ps := Products(ship.rows);
      if metric == "Late" then Largest(ps, n, LateCountKey)
      else if metric == "Quantity" then Largest(ps, n, QuantityKey)
      else if metric == "Late Rate" then
        if |ps| == 0 then []
        else
          var minVolume := Quantile(Counts(ps), 0.1);
          Largest(Filter(ps, Sizeable(minVolume)), n, LateRateKey)
      else Take(ps, n)
  }

  /**
   * `top` is `nlargest(n)` by late rate among the products of `ps` whose
   * size reaches `minVolume`: the first min(n, eligible) of them, drawn from
   * them, largest rate first, and none of them left out ranks higher.
   */
  predicate RankedByLateRate(top: seq<Product>, ps: seq<Product>, n: nat, minVolume: real)
  {
    var eligible := Filter(ps, Sizeable(minVolume));
    |top| == (if n < |eligible| then n else |eligible|) &&
    multiset(top) <= multiset(eligible) &&
    SortedDesc(top, LateRateKey) &&
    (forall p :: p in top ==> p in ps && p.totalCount as real >= minVolume) &&
    forall p, i :: p in multiset(eligible) - multiset(top) && 0 <= i < |top| ==> top[i].lateRate >= p.lateRate
  }

  /**
   * By late rate, only products at or above the 10th-percentile size are
   * ranked: the first min(n, eligible) of them, largest rate first, and
   * none of them left out ranks higher.  Some product always reaches that
   * size: the list is empty only when there are no products or n is 0.
   */
  lemma TopByLateRate(ship: ShippingFrame, n: nat)
    requires !ship.Absent() && IsNumericColumn(Quantities(ship.rows))
    ensures |Products(ship.rows)| == 0 ==> TopProducts(ship, n, "Late Rate") == []
    ensures var top := TopProducts(ship, n, "Late Rate");
            var ps := Products(ship.rows);
            |ps| > 0 ==>
              RankedByLateRate(top, ps, n, Quantile(Counts(ps), 0.1)) &&
              (n > 0 ==> |top| > 0)
  {
    var ps := Products(ship.rows);
    RankedByRate(ship, n);
    if |ps| > 0 {
      var minVolume := Quantile(Counts(ps), 0.1);
      var top := Largest(Filter(ps, Sizeable(minVolume)), n, LateRateKey);
      assert TopProducts(ship, n, "Late Rate") == top;
      SomeSizeable(ps);
      RankSizeable(ps, n, minVolume, top);
    }
  }

  /** The late-rate branch of `get_top_products`. */
  lemma RankedByRate(ship: ShippingFrame, n: nat)
    requires !ship.Absent() && IsNumericColumn(Quantities(ship.rows))
    ensures var ps := Products(ship.rows);
            TopProducts(ship, n, "Late Rate") ==
              if |ps| == 0 then [] else Largest(Filter(ps, Sizeable(Quantile(Counts(ps), 0.1))), n, LateRateKey)
  {
  }

  /** Ranking the sizeable products by late rate, when some product is sizeable. */
  lemma RankSizeable(ps: seq<Product>, n: nat, minVolume: real, top: seq<Product>)
    requires |Filter(ps, Sizeable(minVolume))| > 0
    requires top == Largest(Filter(ps, Sizeable(minVolume)), n, LateRateKey)
    ensures RankedByLateRate(top, ps, n, minVolume)
    ensures n > 0 ==> |top| > 0
  {
    var eligible := Filter(ps, Sizeable(minVolume));
    LargestIsTop(eligible, n, LateRateKey);
    LargestMembers(eligible, n, LateRateKey);
    SizeableMembers(ps, minVolume);
  }

  lemma SizeableMembers(ps: seq<Product>, minVolume: real)
    ensures forall p :: p in Filter(ps, Sizeable(minVolume)) ==> p in ps && p.totalCount as real >= minVolume
  {
    var eligible := Filter(ps, Sizeable(minVolume));
    forall p | p in eligible ensures p in ps && p.totalCount as real >= minVolume {
      var j :| 0 <= j < |eligible| && eligible[j] == p;
      assert Sizeable(minVolume)(p);
    }
  }

  /** The 10th-percentile size is reached by at least one product. */
  lemma SomeSizeable(ps: seq<Product>)
    requires |ps| > 0
    ensures |Filter(ps, Sizeable(Quantile(Counts(ps), 0.1)))| > 0
  {
    var cs := Counts(ps);
    var minVolume := Quantile(cs, 0.1);
    var x :| x in cs && x >= minVolume;
    var i :| 0 <= i < |cs| && cs[i] == x;
    assert Sizeable(minVolume)(ps[i]);
    assert ps[i] in Filter(ps, Sizeable(minVolume));
  }

  /** By late count: at most n products, most late first, drawn from the products, and none left out has more. */
  lemma TopByLateCount(ship: ShippingFrame, n: nat)
    requires !ship.Absent() && IsNumericColumn(Quantities(ship.rows))
    ensures var top := TopProducts(ship, n, "Late");
            var ps := Products(ship.rows);
            |top| == (if n < |ps| then n else |ps|) &&
            SortedDesc(top, LateCountKey) &&
            multiset(top) <= multiset(ps) &&
            forall p, i :: p in multiset(ps) - multiset(top) && 0 <= i < |top| ==> top[i].lateCount >= p.lateCount
  {
    LargestIsTop(Products(ship.rows), n, LateCountKey);
  }

  /** By quantity: at most n products, largest total first, drawn from the products, and none left out has more. */
  lemma TopByQuantity(ship: ShippingFrame, n: nat)
    requires !ship.Absent() && IsNumericColumn(Quantities(ship.rows))
    ensures var top := TopProducts(ship, n, "Quantity");
            var ps := Products(ship.rows);
            |top| == (if n < |ps| then n else |ps|) &&
            SortedDesc(top, QuantityKey) &&
            multiset(top) <= multiset(ps) &&
            forall p, i :: p in multiset(ps) - multiset(top) && 0 <= i < |top| ==> top[i].totalQuantity >= p.totalQuantity
  {
    LargestIsTop(Products(ship.rows), n, QuantityKey);
  }

  /** Any other metric name gives the first n products, in the order `groupby` lists them. */
  lemma TopOtherMetric(ship: ShippingFrame, n: nat, metric: string)
    requires !ship.Absent() && IsNumericColumn(Quantities(ship.rows))
    requires metric != "Late" && metric != "Quantity" && metric != "Late Rate"
    ensures var ps := Products(ship.rows);
            TopProducts(ship, n, metric) == ps[..if n < |ps| then n else |ps|]
  {
  }
}
