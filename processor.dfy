/**
 * `DataProcessor`: the object the dashboard builds once and queries.  It
 * holds the shipment table and the sales sheet; loading fills both, parses
 * the date columns and removes duplicate shipments, and the top-10 query
 * writes a `Growth` column into the sales sheet as it goes.  Every other
 * query is a function of the two tables and lives in its own module.
 */
module Processor {
  import opened Wrappers
  import opened Records
  import opened Sheets
  import opened Seqs
  import opened Sorting
  import opened Frames
  import K = Kpis
  import B = Breakdowns
  import Q = SalesQueries

  /**
   * What `_safe_read_csv` gives for the shipment file: the rows, or a frame
   * with no columns where the file is missing or cannot be read.
   */
  function ShippingRead(read: Option<seq<Shipment>>): ShippingFrame
  {
    if read.None? then NoColumns else Table(read.value)
  }

  /** The same for the sales file: a read failure gives a sheet with no columns. */
  function SalesRead(read: Option<Sheet>): SalesFrame
  {
    if read.None? then SalesTable(Sheet([], [])) else SalesTable(read.value)
  }

  /** A loaded sales sheet is a DataFrame: one cell per column in every row. */
  predicate SalesWellFormed(sales: SalesFrame)
  {
    sales.SalesTable? ==> sales.sheet.WellFormed()
  }

  // ------------------------------------------------------------ the Growth column

  const Pct := "Sales_vs_Target_Pct"
  const SalesColumns: seq<string> := ["Category", "Master_Brand", "Planning_Level", "Sales", "Target", Pct]
  const GrowthColumns: seq<string> := ["Category", "Master_Brand", "Planning_Level", "Growth", "Sales"]

  /** `sales['Sales'] - sales['Yesterday_Sales']` goes through: both columns there and numeric. */
  predicate CanSubtract(sh: Sheet)
  {
    sh.Has("Sales") && sh.Has("Yesterday_Sales") && Q.Numeric(sh, "Sales") && Q.Numeric(sh, "Yesterday_Sales")
  }

  /** `sales['Growth'] = sales['Sales'] - sales['Yesterday_Sales']`. */
  function GrowthSheet(sh: Sheet): (g: Sheet)
    requires sh.WellFormed()
    ensures g.WellFormed() && g.Has("Growth") && |g.rows| == |sh.rows|
    ensures forall x :: sh.Has(x) ==> g.Has(x)
    ensures forall i :: 0 <= i < |sh.rows| ==>
              Get(g.headers, g.rows[i], "Growth") ==
              Q.GrowthCell(Get(sh.headers, sh.rows[i], "Sales"), Get(sh.headers, sh.rows[i], "Yesterday_Sales"))
  {
    var hs := PutHeader(sh.headers, "Growth");
    Sheet(hs, seq(|sh.rows|, i requires 0 <= i < |sh.rows| =>
      Put(sh.headers, sh.rows[i], "Growth", Q.GrowthCell(Get(sh.headers, sh.rows[i], "Sales"), Get(sh.headers, sh.rows[i], "Yesterday_Sales")))))
  }

  /** Writing `Growth` changes no other column, and the new column can be ranked. */
  lemma GrowthKeepsOthers(sh: Sheet, other: string)
    requires sh.WellFormed() && other != "Growth"
    ensures forall i :: 0 <= i < |sh.rows| ==>
              Get(GrowthSheet(sh).headers, GrowthSheet(sh).rows[i], other) == Get(sh.headers, sh.rows[i], other)
    ensures Q.Numeric(GrowthSheet(sh), "Growth")
  {
    var g := GrowthSheet(sh);
    forall i | 0 <= i < |sh.rows|
      ensures Get(g.headers, g.rows[i], other) == Get(sh.headers, sh.rows[i], other)
    {
      PutOther(sh.headers, sh.rows[i], "Growth", Q.GrowthCell(Get(sh.headers, sh.rows[i], "Sales"), Get(sh.headers, sh.rows[i], "Yesterday_Sales")), other);
    }
    forall i | 0 <= i < |g.rows| ensures ColumnCells(g, "Growth")[i].Blank? || ColumnCells(g, "Growth")[i].Number? {
      assert ColumnCells(g, "Growth")[i] == Get(g.headers, g.rows[i], "Growth");
    }
  }

  /** Writing a cell with the value it already holds changes nothing. */
  lemma PutSame(headers: seq<string>, row: seq<Cell>, name: string)
    requires |row| == |headers| && name in headers
    ensures Put(headers, row, name, Get(headers, row, name)) == row
  {
  }

  /** Computing `Growth` a second time leaves the sheet as the first time did. */
  lemma GrowthIdempotent(sh: Sheet)
    requires sh.WellFormed()
    ensures GrowthSheet(GrowthSheet(sh)) == GrowthSheet(sh)
  {
    var g := GrowthSheet(sh);
    var gg := GrowthSheet(g);
    GrowthKeepsOthers(sh, "Sales");
    GrowthKeepsOthers(sh, "Yesterday_Sales");
    assert gg.headers == g.headers;
    forall i | 0 <= i < |g.rows| ensures gg.rows[i] == g.rows[i] {
      var c := Q.GrowthCell(Get(g.headers, g.rows[i], "Sales"), Get(g.headers, g.rows[i], "Yesterday_Sales"));
      assert c == Get(g.headers, g.rows[i], "Growth");
      PutSame(g.headers, g.rows[i], "Growth");
    }
  }

  // ------------------------------------------------------------ the top-10 query

  /** One step of `get_top_10_analysis`: not run, raised, or a list. */
  datatype Step<T> = Skipped | Raised | Listed(list: T)
  {
    function Entry(): Option<T>
    {
      if Listed? then Some(list) else None
    }
  }

  function StepOf<T>(r: Option<T>): Step<T>
  {
    if r.None? then Raised else Listed(r.value)
  }

  /** The result dictionary: a key is present only where its step ran. */
  datatype Top10 = Top10(
    topSales: Option<seq<seq<Cell>>>,
    topLate: Option<seq<(string, nat)>>,
    topGrowth: Option<seq<seq<Cell>>>,
    bottomPerformers: Option<seq<seq<Cell>>>)

  /** Top sales: when the sheet has a `Sales` column. */
  function SalesStep(sales: SalesFrame): Step<seq<seq<Cell>>>
  {
    if sales.SalesTable? && sales.sheet.Has("Sales") then StepOf(Q.TopRows(sales.sheet, "Sales", SalesColumns))
    else Skipped
  }

  /** Top late levels: when shipments were loaded; a frame with no columns has no `Delivery_Status`. */
  function LateStep(ship: ShippingFrame): Step<seq<(string, nat)>>
  {
    match ship
    case Unloaded => Skipped
    case NoColumns => Raised
    case Table(rows) => Listed(Q.TopLate(rows))
  }

  predicate Growable(sales: SalesFrame)
  {
    sales.SalesTable? && sales.sheet.Has("Yesterday_Sales")
  }

  /** Bottom performers: when the (possibly grown) sheet has the achievement column. */
  function BottomStep(sales: SalesFrame): Step<seq<seq<Cell>>>
  {
    if sales.SalesTable? && sales.sheet.Has(Pct) then StepOf(Q.BottomRows(sales.sheet, Pct, SalesColumns))
    else Skipped
  }

  /**
   * `get_top_10_analysis` as a value: the dictionary it returns (None for
   * the `{}` of a caught exception) and the sales table it leaves behind.
   * The `Growth` column, once written, stays even when a later step raises.
   */
  function Top10Of(ship: ShippingFrame, sales: SalesFrame): (Option<Top10>, SalesFrame)
    requires SalesWellFormed(sales)
  {
    var topSales := SalesStep(sales);
    var topLate := LateStep(ship);
    if topSales.Raised? || topLate.Raised? then (None, sales)
    else if Growable(sales) && !CanSubtract(sales.sheet) then (None, sales)
    else
      var sales' := if Growable(sales) then SalesTable(GrowthSheet(sales.sheet)) else sales;
      var topGrowth := if Growable(sales) then StepOf(Q.TopRows(sales'.sheet, "Growth", GrowthColumns)) else Skipped;
      var bottom := BottomStep(sales');
      if topGrowth.Raised? || bottom.Raised? then (None, sales')
      else (Some(Top10(topSales.Entry(), topLate.Entry(), topGrowth.Entry(), bottom.Entry())), sales')
  }

  /** A key of the top-10 dictionary is present exactly when its source column or table is. */
  lemma Top10Keys(ship: ShippingFrame, sales: SalesFrame)
    requires SalesWellFormed(sales)
    ensures var r := Top10Of(ship, sales).0;
            r.Some? ==>
              (r.value.topSales.Some? <==> sales.SalesTable? && sales.sheet.Has("Sales")) &&
              (r.value.topLate.Some? <==> ship.Table?) &&
              (r.value.topGrowth.Some? <==> Growable(sales)) &&
              (r.value.bottomPerformers.Some? <==> sales.SalesTable? && sales.sheet.Has(Pct))
  {
    var r := Top10Of(ship, sales).0;
    if r.Some? {
      var sales' := Top10Of(ship, sales).1;
      assert r.value.topSales == SalesStep(sales).Entry();
      assert r.value.topLate == LateStep(ship).Entry();
      assert r.value.bottomPerformers == BottomStep(sales').Entry();
      if Growable(sales) {
        var g := GrowthSheet(sales.sheet);
        assert sales' == SalesTable(g);
        assert g.headers == PutHeader(sales.sheet.headers, "Growth");
        assert g.Has(Pct) <==> sales.sheet.Has(Pct);
      } else {
        assert sales' == sales;
      }
    }
  }

  /** Every sales list of the top-10 dictionary has at most ten entries. */
  lemma Top10Lists(ship: ShippingFrame, sales: SalesFrame)
    requires SalesWellFormed(sales)
    ensures var r := Top10Of(ship, sales).0;
            r.Some? ==>
              (r.value.topSales.Some? ==> |r.value.topSales.value| <= Q.TopN) &&
              (r.value.topGrowth.Some? ==> |r.value.topGrowth.value| <= Q.TopN) &&
              (r.value.bottomPerformers.Some? ==> |r.value.bottomPerformers.value| <= Q.TopN)
  {
    var r := Top10Of(ship, sales).0;
    if r.Some? {
      var sales' := Top10Of(ship, sales).1;
      assert r.value.topSales == SalesStep(sales).Entry();
      if sales.SalesTable? {
        TopRowsBounded(sales.sheet, "Sales", SalesColumns);
      }
      Top10GrowthBounded(ship, sales);
      assert r.value.bottomPerformers == BottomStep(sales').Entry();
      if sales'.SalesTable? {
        BottomRowsBounded(sales'.sheet, Pct, SalesColumns);
      }
    }
  }

  lemma Top10GrowthBounded(ship: ShippingFrame, sales: SalesFrame)
    requires SalesWellFormed(sales)
    ensures var r := Top10Of(ship, sales).0;
            r.Some? && r.value.topGrowth.Some? ==> |r.value.topGrowth.value| <= Q.TopN
  {
    var r := Top10Of(ship, sales).0;
    if r.Some? && Growable(sales) {
      var sales' := Top10Of(ship, sales).1;
      assert r.value.topGrowth == StepOf(Q.TopRows(sales'.sheet, "Growth", GrowthColumns)).Entry();
      TopRowsBounded(sales'.sheet, "Growth", GrowthColumns);
    }
  }

  /**
   * The late list names ten levels, or every level with a late shipment if
   * fewer, most late first, each with its late count; no level left out has
   * more late shipments than one listed.
   */
  lemma Top10Late(ship: ShippingFrame, sales: SalesFrame)
    requires SalesWellFormed(sales)
    ensures var r := Top10Of(ship, sales).0;
            r.Some? && r.value.topLate.Some? ==>
              var top := r.value.topLate.value;
              var all := Q.LevelCounts(ship.rows);
              |top| == (if Q.TopN < |all| then Q.TopN else |all|) &&
              SortedDesc(top, Q.CountKey) &&
              (forall p :: p in top ==> p.1 == Q.LateCount(ship.rows, p.0) && p.1 > 0) &&
              forall p, i :: p in multiset(all) - multiset(top) && 0 <= i < |top| ==> top[i].1 >= p.1
  {
    var r := Top10Of(ship, sales).0;
    if r.Some? && r.value.topLate.Some? {
      assert r.value.topLate == LateStep(ship).Entry();
      Q.TopLateRanked(ship.rows);
    }
  }

  lemma TopRowsBounded(sh: Sheet, name: string, names: seq<string>)
    ensures Q.TopRows(sh, name, names).Some? ==> |Q.TopRows(sh, name, names).value| <= Q.TopN
  {
    Q.HighestDescending(sh, name);
  }

  lemma BottomRowsBounded(sh: Sheet, name: string, names: seq<string>)
    ensures Q.BottomRows(sh, name, names).Some? ==> |Q.BottomRows(sh, name, names).value| <= Q.TopN
  {
    Q.LowestPositive(sh, name);
  }

  /**
   * The sales table changes only by the `Growth` column: when the sheet has
   * `Yesterday_Sales` and the lists before it did not raise.  A shipment
   * frame with no columns, or a header-only sales sheet with a `Sales`
   * column, makes the query raise before anything is written.
   */
  lemma Top10Effect(ship: ShippingFrame, sales: SalesFrame)
    requires SalesWellFormed(sales)
    ensures var (r, sales') := Top10Of(ship, sales);
            (sales' == sales || (Growable(sales) && CanSubtract(sales.sheet) && sales' == SalesTable(GrowthSheet(sales.sheet)))) &&
            (ship.NoColumns? ==> r.None? && sales' == sales) &&
            (sales.SalesTable? && Q.HeaderOnly(sales.sheet) && sales.sheet.Has("Sales") ==> r.None? && sales' == sales) &&
            (r.Some? && Growable(sales) ==> CanSubtract(sales.sheet) && sales'.sheet.Has("Growth"))
  {
  }

  /** Running the query again finds the `Growth` column written and writes the same values. */
  lemma Top10Repeatable(ship: ShippingFrame, sales: SalesFrame)
    requires SalesWellFormed(sales)
    ensures SalesWellFormed(Top10Of(ship, sales).1)
    ensures Top10Of(ship, Top10Of(ship, sales).1).1 == Top10Of(ship, sales).1
  {
    var sales' := Top10Of(ship, sales).1;
    Top10Effect(ship, sales);
    if sales' != sales {
      GrowthIdempotent(sales.sheet);
      Top10Effect(ship, sales');
    }
  }

  // ------------------------------------------------------------ the email report

  /** `generate_email_report`; the timestamp is the caller's clock reading. */
  datatype Report = Report(
    timestamp: string,
    kpis: K.Kpis,
    alerts: seq<Q.AlertLevel>,
    categorySummary: seq<B.GroupStats>,
    channelSummary: seq<Q.ChannelLine>,
    worstPlants: seq<B.GroupStats>)

  function ReportOf(ship: ShippingFrame, sales: SalesFrame, now: string): Report
  {
    var k := K.KpisOf(ship, sales);
    Report(now, k, Q.Alerts(k.lateRate), CategorySummary(ship), Q.ChannelAnalysis(sales), WorstPlants(ship))
  }

  /** `get_category_analysis().head(5)` */
  function CategorySummary(ship: ShippingFrame): seq<B.GroupStats>
  {
    Take(B.CategoryAnalysis(ship), 5)
  }

  /** `get_plant_performance().head(3)` */
  function WorstPlants(ship: ShippingFrame): seq<B.GroupStats>
  {
    Take(B.PlantPerformance(ship), 3)
  }

  /** The report alerts exactly when the late rate is over 35%, critically over 40%. */
  lemma ReportAlerts(ship: ShippingFrame, sales: SalesFrame, now: string)
    ensures var r := ReportOf(ship, sales, now);
            (|r.alerts| > 0 <==> r.kpis.lateRate > 35.0) &&
            (r.alerts == [Q.Critical] <==> r.kpis.lateRate > 40.0)
  {
    var r := ReportOf(ship, sales, now);
    assert r.alerts == Q.Alerts(r.kpis.lateRate);
  }

  /**
   * The report's category summary is the first five lines of the category
   * analysis and its worst plants the first three lines of the plant
   * performance (fewer when there are fewer): the categories and plants
   * with the highest late rates, each list highest first.
   */
  lemma ReportSummaries(ship: ShippingFrame)
    ensures var n := |B.CategoryAnalysis(ship)|;
            |CategorySummary(ship)| == (if n < 5 then n else 5) &&
            forall i :: 0 <= i < |CategorySummary(ship)| ==> CategorySummary(ship)[i] == B.CategoryAnalysis(ship)[i]
    ensures var n := |B.PlantPerformance(ship)|;
            |WorstPlants(ship)| == (if n < 3 then n else 3) &&
            forall i :: 0 <= i < |WorstPlants(ship)| ==> WorstPlants(ship)[i] == B.PlantPerformance(ship)[i]
    ensures SortedDesc(CategorySummary(ship), B.OrderKey(B.ByLateRate))
    ensures SortedDesc(WorstPlants(ship), B.OrderKey(B.ByLateRate))
    ensures forall i, j :: 0 <= i < |WorstPlants(ship)| <= j < |B.PlantPerformance(ship)| ==>
              WorstPlants(ship)[i].lateRate >= B.PlantPerformance(ship)[j].lateRate
    ensures forall i, j :: 0 <= i < |CategorySummary(ship)| <= j < |B.CategoryAnalysis(ship)| ==>
              CategorySummary(ship)[i].lateRate >= B.CategoryAnalysis(ship)[j].lateRate
  {
    B.BreakdownSorted(ship, CategoryDim, B.ByLateRate);
    B.BreakdownSorted(ship, SourcePlant, B.ByLateRate);
    HeadByLateRate(B.CategoryAnalysis(ship), 5);
    HeadByLateRate(B.PlantPerformance(ship), 3);
  }

  /** `head(n)` of lines sorted by late rate: a prefix, still sorted, with nothing after it ranked higher. */
  lemma HeadByLateRate(lines: seq<B.GroupStats>, n: nat)
    requires SortedDesc(lines, B.OrderKey(B.ByLateRate))
    ensures |Take(lines, n)| == (if |lines| < n then |lines| else n)
    ensures forall i :: 0 <= i < |Take(lines, n)| ==> Take(lines, n)[i] == lines[i]
    ensures SortedDesc(Take(lines, n), B.OrderKey(B.ByLateRate))
    ensures forall i, j :: 0 <= i < |Take(lines, n)| <= j < |lines| ==> Take(lines, n)[i].lateRate >= lines[j].lateRate
  {
    var key := B.OrderKey(B.ByLateRate);
    TakeIsPrefix(lines, n);
    TakeOfSorted(lines, n, key);
    forall i, j | 0 <= i < |Take(lines, n)| <= j < |lines| ensures Take(lines, n)[i].lateRate >= lines[j].lateRate {
      assert key(Take(lines, n)[i]) >= key(lines[j]);
    }
  }

  // ------------------------------------------------------------ the processor

  class DataProcessor {
    var shippingData: ShippingFrame
    var salesData: SalesFrame

    predicate Valid()
      reads this
    {
      SalesWellFormed(salesData)
    }

    /** Nothing loaded yet. */
    constructor()
      ensures Valid()
      ensures shippingData == Unloaded && salesData == NoSales
    {
      shippingData := Unloaded;
      salesData := NoSales;
    }

    /**
     * `load_processed_data`: the two reads (the file system is the caller's:
     * None where a file is missing or unreadable), then the date parsing
     * and the duplicate removal.
     */
    method LoadProcessedData(rd: Readers, shipRead: Option<seq<Shipment>>, salesRead: Option<Sheet>)
      requires salesRead.Some? ==> salesRead.value.WellFormed()
      modifies this
      ensures Valid()
      ensures shippingData == Frames.Validate(Frames.ProcessDates(rd, ShippingRead(shipRead)))
      ensures salesData == SalesRead(salesRead)
    {
      shippingData := ShippingRead(shipRead);
      salesData := SalesRead(salesRead);
      ProcessDates(rd);
      ValidateData();
    }

    /** `_process_dates`: the shipment table's dates parsed and its delays recomputed. */
    method ProcessDates(rd: Readers)
      modifies this
      ensures shippingData == Frames.ProcessDates(rd, old(shippingData))
      ensures salesData == old(salesData)
    {
      if shippingData.Absent() {
        return;
      }
      var rows := shippingData.rows;
      for j := 0 to |Frames.LoadedDateColumns|
        invariant Frames.ParseEach(rd, rows, Frames.LoadedDateColumns[j..]) ==
                  Frames.ParseEach(rd, old(shippingData).rows, Frames.LoadedDateColumns)
      {
        assert Frames.LoadedDateColumns[j..][1..] == Frames.LoadedDateColumns[j + 1..];
        rows := ParseColumn(rd, rows, Frames.LoadedDateColumns[j]);
      }
      shippingData := Table(DeriveDelays(rows));
    }

    /** `_validate_data`: exact duplicate shipments dropped. */
    method ValidateData()
      modifies this
      ensures shippingData == Frames.Validate(old(shippingData))
      ensures salesData == old(salesData)
    {
      if !shippingData.Absent() {
        shippingData := Table(Dedup(shippingData.rows));
      }
    }

    /** `calculate_kpis`: the dictionary filled in step by step; a failing sales sum keeps what was set. */
    method CalculateKpis() returns (k: K.Kpis)
      ensures k == K.KpisOf(shippingData, salesData)
    {
      k := K.Defaults;
      if shippingData.Absent() {
        return;
      }
      var rows := shippingData.rows;
      var t := TallyOf(rows);
      k := K.StatusRates(k, t);
      k := K.AverageDelay(k, t.late, K.LateDelays(rows));
      var withSales := K.SalesTotals(k, salesData);
      if withSales.None? {
        return;
      }
      k := K.WorstCategory(withSales.value, rows);
    }

    /**
     * `get_top_10_analysis`: the lists in turn, each returning `{}` when it
     * raises; the `Growth` column written along the way stays in the sheet.
     */
    method Top10Analysis() returns (results: Option<Top10>)
      requires Valid()
      modifies this
      ensures Valid()
      ensures shippingData == old(shippingData)
      ensures (results, salesData) == Top10Of(old(shippingData), old(salesData))
    {
      var topSales := SalesStep(salesData);
      var topLate := LateStep(shippingData);
      if topSales.Raised? || topLate.Raised? {
        return None;
      }
      var topGrowth := Skipped;
      if Growable(salesData) {
        if !CanSubtract(salesData.sheet) {
          return None;
        }
        salesData := SalesTable(GrowthSheet(salesData.sheet));
        topGrowth := StepOf(Q.TopRows(salesData.sheet, "Growth", GrowthColumns));
      }
      var bottom := BottomStep(salesData);
      if topGrowth.Raised? || bottom.Raised? {
        return None;
      }
      results := Some(Top10(topSales.Entry(), topLate.Entry(), topGrowth.Entry(), bottom.Entry()));
    }

    /** `generate_email_report`, stamped with `now`. */
    method GenerateEmailReport(now: string) returns (r: Report)
      ensures r == ReportOf(shippingData, salesData, now)
    {
      var k := CalculateKpis();
      var alerts: seq<Q.AlertLevel> := [];
      if k.lateRate > 40.0 {
        alerts := alerts + [Q.Critical];
      } else if k.lateRate > 35.0 {
        alerts := alerts + [Q.Warning];
      }
      assert alerts == Q.Alerts(k.lateRate);
      var categories := CategorySummary(shippingData);
      var channels := Q.ChannelAnalysis(salesData);
      var plants := WorstPlants(shippingData);
      r := Report(now, k, alerts, categories, channels, plants);
    }
  }
}
