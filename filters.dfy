/**
 * The dashboard's filters over the shipment table: the date window chosen
 * from the data's own ship dates, the per-column value lists, the summary
 * line and the saved presets.  The widgets themselves are left out: the
 * chosen option, the custom dates and today's date are inputs.
 */
module Filters {
  import opened Wrappers
  import opened Records
  import opened Seqs
  import opened Frames
  import K = Kpis

  // ------------------------------------------------------------ the date window

  /** The choices of the "Date Range" box; `Custom` carries the two date inputs. */
  datatype DateOption = AllTime | Last7Days | Last30Days | Last90Days | Custom(start: int, end: int)

  predicate IsRelative(o: DateOption)
  {
    o.Last7Days? || o.Last30Days? || o.Last90Days?
  }

  function Span(o: DateOption): nat
    requires IsRelative(o)
  {
    match o
    case Last7Days => 7
    case Last30Days => 30
    case Last90Days => 90
  }

  /** A date bound; None is `NaT`, which every comparison fails. */
  type Bound = Option<int>

  /** The days of the timestamped `Actual_Ship_Date` cells, in row order. */
  function ShipDays(rows: seq<Shipment>): (ds: seq<int>)
    ensures forall i :: 0 <= i < |rows| && rows[i].actualShip.Timestamp? ==> rows[i].actualShip.day in ds
    ensures forall d :: d in ds ==> exists i :: 0 <= i < |rows| && rows[i].actualShip == Timestamp(d)
  {
    if |rows| == 0 then []
    else
      var rest := ShipDays(rows[1..]);
      assert forall i :: 1 <= i < |rows| ==> rows[i] == rows[1..][i - 1];
      (if rows[0].actualShip.Timestamp? then [rows[0].actualShip.day] else []) + rest
  }

  function MinOf(ds: seq<int>): (m: int)
    requires |ds| > 0
    ensures m in ds && forall d :: d in ds ==> m <= d
  {
    if |ds| == 1 then ds[0]
    else
      var m := MinOf(ds[1..]);
      assert forall d :: d in ds ==> d == ds[0] || d in ds[1..];
      if ds[0] <= m then ds[0] else m
  }

  function MaxOf(ds: seq<int>): (m: int)
    requires |ds| > 0
    ensures m in ds && forall d :: d in ds ==> d <= m
  {
    if |ds| == 1 then ds[0]
    else
      var m := MaxOf(ds[1..]);
      assert forall d :: d in ds ==> d == ds[0] || d in ds[1..];
      if ds[0] >= m then ds[0] else m
  }

  /**
   * `create_date_filter` without its widgets.  A custom range is taken as
   * given.  Otherwise, where the table has a ship-date column, the window
   * ends at the latest ship date and starts at the earliest ("All Time")
   * or N days before the end but not before the earliest; with no dated
   * row both bounds are `NaT`.  A frame with no columns falls back to
   * today's date and a year for "All Time".
   */
  function DateRange(o: DateOption, f: ShippingFrame, today: int): (Bound, Bound)
    requires !f.Unloaded?
  {
    if o.Custom? then (Some(o.start), Some(o.end))
    else if f.Table? then
      var ds := ShipDays(f.rows);
      if |ds| == 0 then (None, None)
      else if o.AllTime? then (Some(MinOf(ds)), Some(MaxOf(ds)))
      else
        var start := MaxOf(ds) - Span(o);
        (Some(if start >= MinOf(ds) then start else MinOf(ds)), Some(MaxOf(ds)))
    else if o.AllTime? then (Some(today - 365), Some(today))
    else (Some(today - Span(o)), Some(today))
  }

  /**
   * From the data, the window never looks at the clock: it ends at the
   * latest ship date, starts no earlier than the earliest, "All Time"
   * spans exactly the data, and "Last N Days" is at most N days long.
   */
  lemma DateRangeFromData(o: DateOption, rows: seq<Shipment>, today: int)
    requires !o.Custom? && |ShipDays(rows)| > 0
    ensures var (start, end) := DateRange(o, Table(rows), today);
            var ds := ShipDays(rows);
            start.Some? && end.Some? &&
            end.value == MaxOf(ds) && MinOf(ds) <= start.value <= end.value &&
            (o.AllTime? ==> start.value == MinOf(ds)) &&
            (IsRelative(o) ==> end.value - start.value <= Span(o)) &&
            (forall today' :: DateRange(o, Table(rows), today') == DateRange(o, Table(rows), today))
  {
  }

  // ------------------------------------------------------------ applying the filters

  /**
   * The filter dictionary, column to allowed values, in insertion order.
   * A dictionary holds each column once; the sequence may name a column
   * twice, and every statement about it holds for such sequences as well.
   */
  type FilterSet = seq<(string, seq<string>)>

  /** The labels of the shipment table's columns. */
  const ShipmentColumns: set<string> := {
    "SLS_Plant", "Category", "Master_Brand", "Brand", "Planning_Level", "Quantity", "Source",
    "Actual_Ship_Date", "Requested_Ship_Date", "Delivery_Status", "Delay_Days", "Transaction_ID",
    "Date1", "Date2", "DLV_Shipping_Status", "L_I", "Month"}

  function TextOf(c: Cell): Option<string>
  {
    if c.Text? then Some(c.text) else None
  }

  /**
   * The text a row holds under `column`, which `isin` compares with the
   * allowed values; None where the cell is missing or not text (dates and
   * numbers never equal a text value).
   */
  function ColumnText(r: Shipment, column: string): Option<string>
  {
    if column == "SLS_Plant" then r.plant
    else if column == "Category" then r.category
    else if column == "Master_Brand" then r.masterBrand
    else if column == "Brand" then r.brand
    else if column == "Planning_Level" then r.planningLevel
    else if column == "Source" then r.source
    else if column == "Delivery_Status" then (if r.status.Some? then Some(StatusName(r.status.value)) else None)
    else if column == "Quantity" then TextOf(r.quantity)
    else if column == "Date1" then TextOf(r.date1)
    else if column == "Date2" then TextOf(r.date2)
    else if column == "DLV_Shipping_Status" then TextOf(r.shippingStatus)
    else if column == "L_I" then TextOf(r.lineItem)
    else if column == "Month" then TextOf(r.month)
    else None
  }

  /** The date step keeps a row whose ship day lies within both bounds. */
  predicate InWindow(r: Shipment, w: (Bound, Bound))
  {
    r.actualShip.Timestamp? && w.0.Some? && w.1.Some? && w.0.value <= r.actualShip.day <= w.1.value
  }

  /** One column's step: only a column of the table with a non-empty list constrains. */
  predicate Allowed(r: Shipment, column: string, values: seq<string>)
  {
    column in ShipmentColumns && |values| > 0 ==> ColumnText(r, column).Some? && ColumnText(r, column).value in values
  }

  /** Every filter column, in turn, allows the row. */
  predicate Passes(r: Shipment, filters: FilterSet)
  {
    |filters| == 0 ||
    (Passes(r, filters[..|filters| - 1]) && Allowed(r, filters[|filters| - 1].0, filters[|filters| - 1].1))
  }

  predicate Keeps(r: Shipment, filters: FilterSet, range: Option<(Bound, Bound)>)
  {
    (range.None? || InWindow(r, range.value)) && Passes(r, filters)
  }

  function KeepsMask(filters: FilterSet, range: Option<(Bound, Bound)>): Shipment -> bool
  {
    (r: Shipment) => Keeps(r, filters, range)
  }

  function PassesMask(filters: FilterSet): Shipment -> bool
  {
    (r: Shipment) => Passes(r, filters)
  }

  function WindowMask(w: (Bound, Bound)): Shipment -> bool
  {
    (r: Shipment) => InWindow(r, w)
  }

  /** `df[column].isin(values)` */
  function IsInMask(column: string, values: seq<string>): Shipment -> bool
  {
    (r: Shipment) => ColumnText(r, column).Some? && ColumnText(r, column).value in values
  }

  /** `apply_filters_to_data` as a value: the rows every step keeps, in their order. */
  function FilterRows(rows: seq<Shipment>, filters: FilterSet, range: Option<(Bound, Bound)>): seq<Shipment>
  {
    Filter(rows, KeepsMask(filters, range))
  }

  function DateStep(rows: seq<Shipment>, range: Option<(Bound, Bound)>): seq<Shipment>
  {
    if range.None? then rows else Filter(rows, WindowMask(range.value))
  }

  /**
   * `apply_filters_to_data` on a loaded table: the date step, then one
   * narrowing per filter column.  The input sequence is a value, so it is
   * never changed.
   */
  method ApplyFiltersToData(rows: seq<Shipment>, filters: FilterSet, range: Option<(Bound, Bound)>)
    returns (out: seq<Shipment>)
    ensures out == FilterRows(rows, filters, range)
  {
    out := rows;
    if range.Some? {
      out := Filter(out, WindowMask(range.value));
    }
    ghost var dated := out;
    assert dated == DateStep(rows, range);
    FilterAll(dated, PassesMask(filters[..0]));
    var i := 0;
    while i < |filters|
      invariant 0 <= i <= |filters|
      invariant out == Filter(dated, PassesMask(filters[..i]))
    {
      var column, values := filters[i].0, filters[i].1;
      ghost var before := out;
      if column in ShipmentColumns && |values| > 0 {
        out := Filter(out, IsInMask(column, values));
      }
      NarrowStep(dated, filters, i, before, out);
      assert out == Filter(dated, PassesMask(filters[..i + 1]));
      i := i + 1;
    }
    assert filters[..i] == filters;
    DateThenColumns(rows, filters, range);
  }

  /** Passing the first i + 1 filters is passing the first i and the next one. */
  lemma PassesSnoc(r: Shipment, filters: FilterSet, i: nat)
    requires i < |filters|
    ensures Passes(r, filters[..i + 1]) == (Passes(r, filters[..i]) && Allowed(r, filters[i].0, filters[i].1))
  {
    assert filters[..i + 1][..i] == filters[..i];
  }

  /** One pass of the loop: narrowing by column i extends the filtered prefix by one. */
  lemma NarrowStep(s: seq<Shipment>, filters: FilterSet, i: nat, before: seq<Shipment>, after: seq<Shipment>)
    requires i < |filters|
    requires before == Filter(s, PassesMask(filters[..i]))
    requires after == if filters[i].0 in ShipmentColumns && |filters[i].1| > 0
                      then Filter(before, IsInMask(filters[i].0, filters[i].1))
                      else before
    ensures after == Filter(s, PassesMask(filters[..i + 1]))
  {
    var (column, values) := filters[i];
    var p := PassesMask(filters[..i]);
    var q := IsInMask(column, values);
    var next := PassesMask(filters[..i + 1]);
    forall r ensures next(r) == (p(r) && Allowed(r, column, values)) {
      PassesSnoc(r, filters, i);
    }
    if column in ShipmentColumns && |values| > 0 {
      FilterFilter(s, p, q, next);
    } else {
      FilterExt(s, p, next);
    }
  }

  /** The date step followed by the column steps is one selection by `Keeps`. */
  lemma DateThenColumns(rows: seq<Shipment>, filters: FilterSet, range: Option<(Bound, Bound)>)
    ensures Filter(DateStep(rows, range), PassesMask(filters)) == FilterRows(rows, filters, range)
  {
    var keep := KeepsMask(filters, range);
    var passes := PassesMask(filters);
    if range.None? {
      FilterExt(rows, passes, keep);
    } else {
      var inWindow := WindowMask(range.value);
      FilterFilter(rows, inWindow, passes, keep);
    }
  }

  /** A row is kept exactly when it is in the window and every filter column allows it. */
  lemma FilterRowsMembers(rows: seq<Shipment>, filters: FilterSet, range: Option<(Bound, Bound)>)
    ensures forall r :: r in FilterRows(rows, filters, range) <==> r in rows && Keeps(r, filters, range)
  {
    var keep := KeepsMask(filters, range);
    forall r | r in rows && Keeps(r, filters, range) ensures r in FilterRows(rows, filters, range) {
      var i :| 0 <= i < |rows| && rows[i] == r;
      assert keep(rows[i]);
    }
  }

  /** The result keeps the order of the input and only its rows. */
  lemma FilterRowsSubsequence(rows: seq<Shipment>, filters: FilterSet, range: Option<(Bound, Bound)>)
    ensures IsSubsequence(FilterRows(rows, filters, range), rows)
  {
    FilterIsSubsequence(rows, KeepsMask(filters, range));
  }

  /** Applying the same filters to their own result changes nothing. */
  lemma FilterRowsIdempotent(rows: seq<Shipment>, filters: FilterSet, range: Option<(Bound, Bound)>)
    ensures FilterRows(FilterRows(rows, filters, range), filters, range) == FilterRows(rows, filters, range)
  {
    FilterIdempotent(rows, KeepsMask(filters, range));
  }

  /** Filtering by one set and then by another is filtering once by both. */
  lemma FilterRowsConjunction(rows: seq<Shipment>, first: FilterSet, second: FilterSet, range: Option<(Bound, Bound)>)
    ensures FilterRows(FilterRows(rows, first, range), second, None) == FilterRows(rows, first + second, range)
  {
    var p := KeepsMask(first, range);
    var q := KeepsMask(second, None);
    var both := KeepsMask(first + second, range);
    forall r ensures (p(r) && q(r)) == both(r) {
      PassesAppend(r, first, second);
    }
    FilterFilter(rows, p, q, both);
  }

  lemma {:induction false} PassesAppend(r: Shipment, first: FilterSet, second: FilterSet)
    ensures Passes(r, first + second) == (Passes(r, first) && Passes(r, second))
  {
    if |second| > 0 {
      var init := second[..|second| - 1];
      PassesAppend(r, first, init);
      assert (first + second)[..|first + second| - 1] == first + init;
    } else {
      assert first + second == first;
    }
  }

  /** Empty value lists and columns the table does not have keep every row. */
  lemma NoConstraintKeepsAll(rows: seq<Shipment>, filters: FilterSet)
    requires forall i :: 0 <= i < |filters| ==> filters[i].0 !in ShipmentColumns || |filters[i].1| == 0
    ensures FilterRows(rows, filters, None) == rows
  {
    forall r | r in rows ensures Keeps(r, filters, None) {
      PassesEvery(r, filters);
    }
    FilterAll(rows, KeepsMask(filters, None));
  }

  /** Passing the filters is being allowed by each of them. */
  lemma {:induction false} PassesEvery(r: Shipment, filters: FilterSet)
    ensures Passes(r, filters) <==> forall i :: 0 <= i < |filters| ==> Allowed(r, filters[i].0, filters[i].1)
  {
    if |filters| > 0 {
      var init := filters[..|filters| - 1];
      PassesEvery(r, init);
      assert forall i :: 0 <= i < |init| ==> init[i] == filters[i];
    }
  }

  /**
   * "All Time" computed from the table keeps exactly its rows with a ship
   * date: the window is the data's own first and last ship day, whatever
   * today's date is.
   */
  lemma AllTimeKeepsDated(rows: seq<Shipment>, today: int)
    ensures FilterRows(rows, [], Some(DateRange(AllTime, Table(rows), today))) ==
            Filter(rows, (r: Shipment) => r.actualShip.Timestamp?)
  {
    var w := DateRange(AllTime, Table(rows), today);
    var ds := ShipDays(rows);
    forall r: Shipment | r.actualShip.Timestamp? && r in rows ensures InWindow(r, w) {
      var i :| 0 <= i < |rows| && rows[i] == r;
      assert r.actualShip.day in ds;
    }
    FilterSameOnRows(rows, KeepsMask([], Some(w)), (r: Shipment) => r.actualShip.Timestamp?);
  }

  /** Masks that agree on the elements of `s` select the same elements of it. */
  lemma {:induction false} FilterSameOnRows(s: seq<Shipment>, p: Shipment -> bool, q: Shipment -> bool)
    requires forall x :: x in s ==> p(x) == q(x)
    ensures Filter(s, p) == Filter(s, q)
  {
    if |s| > 0 {
      assert forall x :: x in s[1..] ==> x in s;
      FilterSameOnRows(s[1..], p, q);
    }
  }

  /**
   * The dashboard's KPIs on the filtered rows: the shipment count is that
   * of the kept rows with a status, and the sales figures are those of the
   * unfiltered sales sheet, since the sales table is carried through as it is.
   */
  lemma FilteredKpis(rows: seq<Shipment>, filters: FilterSet, range: Option<(Bound, Bound)>, sales: SalesFrame)
    requires |FilterRows(rows, filters, range)| > 0
    ensures var kept := FilterRows(rows, filters, range);
            var k := K.KpisOf(Table(kept), sales);
            var full := K.KpisOf(Table(rows), sales);
            k.totalShipments == CountWithStatus(kept) && k.totalShipments <= |rows| &&
            k.totalSales == full.totalSales && k.totalTarget == full.totalTarget &&
            k.salesAchievement == full.salesAchievement
  {
    var kept := FilterRows(rows, filters, range);
    K.KpisStatusRates(Table(kept), sales);
    K.KpisSales(Table(kept), sales);
    K.KpisSales(Table(rows), sales);
    CountWithStatusBound(kept);
  }

  lemma {:induction false} CountWithStatusBound(rows: seq<Shipment>)
    ensures CountWithStatus(rows) <= |rows|
  {
    if |rows| > 0 {
      CountWithStatusBound(rows[..|rows| - 1]);
    }
  }

  // ------------------------------------------------------------ the summary line

  function DigitChar(d: nat): char
    requires d < 10
  {
    "0123456789"[d]
  }

  /** `str(n)` for a count. */
  function NatText(n: nat): (s: string)
    ensures |s| > 0
    ensures forall i :: 0 <= i < |s| ==> '0' <= s[i] <= '9'
  {
    if n < 10 then [DigitChar(n)] else NatText(n / 10) + [DigitChar(n % 10)]
  }

  /** The value a string of decimal digits denotes. */
  function DigitsValue(s: string): nat
    requires forall i :: 0 <= i < |s| ==> '0' <= s[i] <= '9'
  {
    if |s| == 0 then 0
    else DigitsValue(s[..|s| - 1]) * 10 + (s[|s| - 1] - '0') as nat
  }

  /** Reading the count back from its text gives the count. */
  lemma {:induction false} NatTextValue(n: nat)
    ensures DigitsValue(NatText(n)) == n
  {
    if n >= 10 {
      NatTextValue(n / 10);
      var s := NatText(n);
      assert s[..|s| - 1] == NatText(n / 10);
    }
  }

  /** One column's part of the summary: its single value, or how many are selected. */
  function FilterPart(column: string, values: seq<string>): string
    requires |values| > 0
  {
    if |values| == 1 then column + ": " + values[0]
    else column + ": " + NatText(|values|) + " selected"
  }

  /** The parts of the summary: one per filter column with a non-empty list, in order. */
  function ColumnParts(filters: FilterSet): (parts: seq<string>)
    ensures |parts| <= |filters|
  {
    if |filters| == 0 then []
    else
      var (column, values) := filters[|filters| - 1];
      ColumnParts(filters[..|filters| - 1]) + (if |values| > 0 then [FilterPart(column, values)] else [])
  }

  function Join(parts: seq<string>, sep: string): string
  {
    if |parts| == 0 then ""
    else if |parts| == 1 then parts[0]
    else Join(parts[..|parts| - 1], sep) + sep + parts[|parts| - 1]
  }

  const NoFilters := "No filters applied - showing all data"
  const ActivePrefix := "Active filters: "

  /** The date part, from the two bounds as the caller formats them. */
  function SummaryParts(filters: FilterSet, dates: Option<(string, string)>): seq<string>
  {
    (if dates.Some? then ["Date: " + dates.value.0 + " to " + dates.value.1] else []) + ColumnParts(filters)
  }

  function SummaryText(filters: FilterSet, dates: Option<(string, string)>): string
  {
    var parts := SummaryParts(filters, dates);
    if |parts| == 0 then NoFilters else ActivePrefix + Join(parts, " | ")
  }

  /**
   * `create_filter_summary`: the parts collected in a loop, then joined.
   * `dates` is the date range as text, when there is one.
   */
  method CreateFilterSummary(filters: FilterSet, dates: Option<(string, string)>) returns (text: string)
    ensures text == SummaryText(filters, dates)
  {
    var parts: seq<string> := [];
    if dates.Some? {
      parts := parts + ["Date: " + dates.value.0 + " to " + dates.value.1];
    }
    var i := 0;
    while i < |filters|
      invariant 0 <= i <= |filters|
      invariant parts == (if dates.Some? then ["Date: " + dates.value.0 + " to " + dates.value.1] else []) + ColumnParts(filters[..i])
    {
      var (column, values) := filters[i];
      assert filters[..i + 1][..i] == filters[..i];
      if |values| > 0 {
        parts := parts + [FilterPart(column, values)];
      }
      i := i + 1;
    }
    assert filters[..i] == filters;
    if |parts| > 0 {
      text := ActivePrefix + Join(parts, " | ");
    } else {
      text := NoFilters;
    }
  }

  /** The summary reports no filters exactly when there is no date range and every value list is empty. */
  lemma SummaryNoFilters(filters: FilterSet, dates: Option<(string, string)>)
    ensures SummaryText(filters, dates) == NoFilters <==>
              dates.None? && forall i :: 0 <= i < |filters| ==> |filters[i].1| == 0
  {
    ColumnPartsEmpty(filters);
    if |SummaryParts(filters, dates)| > 0 {
      assert SummaryText(filters, dates)[0] == 'A';
    }
  }

  lemma {:induction false} ColumnPartsEmpty(filters: FilterSet)
    ensures |ColumnParts(filters)| == 0 <==> forall i :: 0 <= i < |filters| ==> |filters[i].1| == 0
  {
    if |filters| > 0 {
      var init := filters[..|filters| - 1];
      ColumnPartsEmpty(init);
      assert forall i :: 0 <= i < |init| ==> init[i] == filters[i];
    }
  }

  /** A single value is named; a longer list is counted, and the count reads back. */
  lemma FilterPartShape(column: string, values: seq<string>)
    requires |values| > 1
    ensures var p := FilterPart(column, values);
            var digits := p[|column| + 2 .. |p| - 9];
            p[..|column| + 2] == column + ": " &&
            p[|p| - 9..] == " selected" &&
            (forall i :: 0 <= i < |digits| ==> '0' <= digits[i] <= '9') &&
            DigitsValue(digits) == |values|
  {
    var p := FilterPart(column, values);
    assert p[|column| + 2 .. |p| - 9] == NatText(|values|);
    NatTextValue(|values|);
  }

  // ------------------------------------------------------------ presets

  /** The presets as `session_state` holds them: None before the first save. */
  type Presets = Option<map<string, FilterSet>>

  function Saved(presets: Presets, filters: FilterSet, name: string): Presets
  {
    Some((if presets.None? then map[] else presets.value)[name := filters])
  }

  function Loaded(presets: Presets, name: string): FilterSet
  {
    if presets.Some? && name in presets.value then presets.value[name] else []
  }

  /**
   * Loading a preset just saved gives back its filters, other presets are
   * untouched, and an unknown name gives the empty filter set.
   */
  lemma PresetRoundTrip(presets: Presets, filters: FilterSet, name: string, other: string)
    ensures Loaded(Saved(presets, filters, name), name) == filters
    ensures other != name ==> Loaded(Saved(presets, filters, name), other) == Loaded(presets, other)
    ensures (presets.None? || name !in presets.value) ==> Loaded(presets, name) == []
  {
  }

  /** The session's preset store. */
  class PresetStore {
    var presets: Presets

    constructor()
      ensures presets == None
    {
      presets := None;
    }

    /** `save_filter_preset` */
    method SaveFilterPreset(filters: FilterSet, name: string)
      modifies this
      ensures presets == Saved(old(presets), filters, name)
    {
      if presets.None? {
        presets := Some(map[]);
      }
      presets := Some(presets.value[name := filters]);
    }

    /** `load_filter_preset` */
    method LoadFilterPreset(name: string) returns (filters: FilterSet)
      ensures filters == Loaded(presets, name)
    {
      if presets.Some? && name in presets.value {
        return presets.value[name];
      }
      return [];
    }
  }
}
