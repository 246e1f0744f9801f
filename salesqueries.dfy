/**
 * The queries over the sales sheet: the per-channel table, forecast
 * accuracy per category, the IOU (outstanding order) table, the
 * day-over-day comparison and the top-10 lists.
 */
module SalesQueries {
  import opened Wrappers
  import opened Records
  import opened Sheets
  import opened Numbers
  import opened Seqs
  import opened Sorting
  import opened Frames
  import Text
  import Groups

  /** Summing or comparing the column raises unless it holds only numbers and blanks. */
  predicate Numeric(sh: Sheet, name: string)
  {
    IsNumericColumn(ColumnCells(sh, name))
  }

  /** The sheet restricted to the rows whose key under `key` is `k`. */
  function Group(sh: Sheet, key: string, k: string): Sheet
  {
    Sheet(sh.headers, RowsWithKey(sh.headers, sh.rows, key, k))
  }

  /** A group keeps only rows of the whole sheet, so a numeric column stays numeric. */
  lemma GroupNumeric(sh: Sheet, key: string, k: string, name: string)
    requires Numeric(sh, name)
    ensures Numeric(Group(sh, key, k), name)
  {
    var g := Group(sh, key, k);
    forall i | 0 <= i < |g.rows| ensures ColumnCells(g, name)[i].Blank? || ColumnCells(g, name)[i].Number? {
      assert g.rows[i] in sh.rows;
      var j :| 0 <= j < |sh.rows| && sh.rows[j] == g.rows[i];
      assert ColumnCells(sh, name)[j] == Get(sh.headers, g.rows[i], name);
    }
  }

  // ------------------------------------------------------------ channels

  /** One line of `get_sales_channel_analysis`; a column absent from the sheet gives None. */
  datatype ChannelLine = ChannelLine(
    channel: string,
    sales: real,
    target: Option<real>,
    late: Option<real>,
    shipped: Option<real>,
    achievement: Option<real>,
    lateRate: Option<real>)

  const ChannelMeasures: seq<string> := ["Sales", "Target", "Late", "Shipped"]

  function SumIfPresent(g: Sheet, name: string): Option<real>
  {
    if g.Has(name) then Some(Sum(ColumnCells(g, name))) else None
  }

  /** A channel's line from its sums: achievement and late rate where both their sums exist. */
  function ChannelLineFrom(c: string, sales: real, target: Option<real>, late: Option<real>, shipped: Option<real>): (l: ChannelLine)
    ensures l.channel == c && l.sales == sales && l.target == target
  {
    ChannelLine(c, sales, target, late, shipped,
      if target.Some? then Some(Round1(GuardedPercent(sales, target.value))) else None,
      if late.Some? && shipped.Some? then Some(Round1(GuardedPercent(late.value, shipped.value))) else None)
  }

  function ChannelLineOf(sh: Sheet, c: string): ChannelLine
  {
    var g := Group(sh, "Channel", c);
    ChannelLineFrom(c, Sum(ColumnCells(g, "Sales")), SumIfPresent(g, "Target"), SumIfPresent(g, "Late"), SumIfPresent(g, "Shipped"))
  }

  /**
   * `get_sales_channel_analysis`: sums of whichever of Sales, Target, Late
   * and Shipped exist, per channel in sorted order, with achievement and
   * late rate where both their columns exist.  Needs `Channel` and `Sales`;
   * a measure column that cannot be summed raises, and the caught
   * exception yields the empty table.
   */
  function ChannelAnalysis(sales: SalesFrame): seq<ChannelLine>
  {
    if sales.Absent() || !ChannelReady(sales.sheet) then []
    else ChannelLinesOf(sales.sheet)
  }

  /** The sheet has `Channel` and `Sales`, and every measure column it has can be summed. */
  predicate ChannelReady(sh: Sheet)
  {
    sh.Has("Channel") && sh.Has("Sales") &&
    forall name :: name in ChannelMeasures && sh.Has(name) ==> Numeric(sh, name)
  }

  /** One line per channel key, in the keys' sorted order. */
  function ChannelLinesOf(sh: Sheet): seq<ChannelLine>
  {
    var channels := GroupKeys(sh, "Channel");
    seq(|channels|, i requires 0 <= i < |channels| => ChannelLineOf(sh, channels[i]))
  }

  /**
   * A channel's achievement is its sales over its target as a percentage,
   * rounded to within 0.05, except that a zero target is replaced by 1, so
   * the achievement is then the sales times 100.
   */
  lemma ChannelAchievement(sh: Sheet, c: string)
    requires sh.Has("Target")
    ensures var l := ChannelLineOf(sh, c);
            l.target.Some? && l.achievement.Some? &&
            (l.target.value != 0.0 ==>
               l.sales / l.target.value * 100.0 - 0.05 < l.achievement.value <= l.sales / l.target.value * 100.0 + 0.05) &&
            (l.target.value == 0.0 ==> l.achievement.value == Round1(l.sales * 100.0))
  {
    var g := Group(sh, "Channel", c);
    assert g.Has("Target");
    AchievementOf(c, Sum(ColumnCells(g, "Sales")), SumIfPresent(g, "Target"), SumIfPresent(g, "Late"), SumIfPresent(g, "Shipped"));
  }

  lemma AchievementOf(c: string, sales: real, target: Option<real>, late: Option<real>, shipped: Option<real>)
    requires target.Some?
    ensures var l := ChannelLineFrom(c, sales, target, late, shipped);
            l.achievement.Some? &&
            (target.value != 0.0 ==>
               sales / target.value * 100.0 - 0.05 < l.achievement.value <= sales / target.value * 100.0 + 0.05) &&
            (target.value == 0.0 ==> l.achievement.value == Round1(sales * 100.0))
  {
    Round1Close(GuardedPercent(sales, target.value));
  }

  function Abs(x: real): real
  {
    if x < 0.0 then -x else x
  }

  /**
   * The table is empty without a sheet, `Channel` or `Sales`, or when a
   * present measure column cannot be summed.
   */
  lemma ChannelGuards(sales: SalesFrame)
    ensures sales.Absent() || !ChannelReady(sales.sheet) ==> ChannelAnalysis(sales) == []
    ensures ChannelAnalysis(sales) != [] ==>
              !sales.Absent() && sales.sheet.Has("Channel") && sales.sheet.Has("Sales") &&
              forall name :: name in ChannelMeasures && sales.sheet.Has(name) ==> Numeric(sales.sheet, name)
  {
  }

  /** Channel lines in strictly increasing channel order. */
  predicate ChannelsSorted(a: seq<ChannelLine>)
  {
    forall i, j :: 0 <= i < j < |a| ==> Text.Less(a[i].channel, a[j].channel)
  }

  /** Each line's sales are the sum over its channel's rows. */
  predicate ChannelSalesSums(sh: Sheet, a: seq<ChannelLine>)
  {
    forall i :: 0 <= i < |a| ==> a[i].sales == Sum(ColumnCells(Group(sh, "Channel", a[i].channel), "Sales"))
  }

  /** The lines name exactly the channels some row has. */
  ghost predicate ChannelsCover(sh: Sheet, a: seq<ChannelLine>)
  {
    forall c :: (exists i :: 0 <= i < |a| && a[i].channel == c) <==>
      exists j :: 0 <= j < |sh.rows| && KeyOf(Get(sh.headers, sh.rows[j], "Channel")) == Some(c)
  }

  /**
   * On a sheet that has `Channel` and `Sales` and whose measure columns can
   * be summed, each channel with a row has exactly one line, in sorted
   * order, whose sales are the sum over that channel's rows.
   */
  lemma ChannelLines(sales: SalesFrame)
    ensures !sales.Absent() && ChannelReady(sales.sheet) ==>
              var a := ChannelAnalysis(sales);
              ChannelsSorted(a) && ChannelSalesSums(sales.sheet, a) && ChannelsCover(sales.sheet, a)
  {
    if !sales.Absent() && ChannelReady(sales.sheet) {
      assert ChannelAnalysis(sales) == ChannelLinesOf(sales.sheet);
      ChannelKeysSorted(sales.sheet);
      ChannelSums(sales.sheet);
      ChannelKeysCover(sales.sheet);
    }
  }

  /** The lines are the channel keys' lines, in the keys' order. */
  lemma ChannelKeyLines(sh: Sheet)
    ensures var a := ChannelLinesOf(sh);
            var ks := GroupKeys(sh, "Channel");
            |a| == |ks| && forall i :: 0 <= i < |a| ==> a[i].channel == ks[i] && a[i] == ChannelLineOf(sh, ks[i])
  {
  }

  lemma ChannelKeysSorted(sh: Sheet)
    ensures ChannelsSorted(ChannelLinesOf(sh))
  {
    ChannelKeyLines(sh);
  }

  lemma ChannelSums(sh: Sheet)
    ensures ChannelSalesSums(sh, ChannelLinesOf(sh))
  {
    ChannelKeyLines(sh);
  }

  lemma ChannelKeysCover(sh: Sheet)
    ensures ChannelsCover(sh, ChannelLinesOf(sh))
  {
    var a := ChannelLinesOf(sh);
    var ks := GroupKeys(sh, "Channel");
    ChannelKeyLines(sh);
    forall c ensures (exists i :: 0 <= i < |a| && a[i].channel == c) <==> c in ks {
      if c in ks {
        var i :| 0 <= i < |ks| && ks[i] == c;
        assert a[i].channel == c;
      }
    }
  }

  // ------------------------------------------------------------ forecast accuracy

  /** `Target > 0` and `Sales` present. */
  predicate Forecastable(headers: seq<string>, row: seq<Cell>)
  {
    var t := Get(headers, row, "Target");
    t.Number? && t.value > 0.0 && !Get(headers, row, "Sales").Blank?
  }

  function Clip(x: real): (r: real)
    ensures 0.0 <= r <= 100.0
    ensures 0.0 <= x <= 100.0 ==> r == x
  {
    if x < 0.0 then 0.0 else if x > 100.0 then 100.0 else x
  }

  /** `100 - |Target - Sales| / Target * 100`, clipped to [0, 100]. */
  function Accuracy(target: real, sales: real): real
    requires target > 0.0
  {
    Clip(100.0 - Abs(target - sales) / target * 100.0)
  }

  /** A forecast is fully accurate exactly when sales meet the target. */
  lemma AccuracyPerfect(target: real, sales: real)
    requires target > 0.0
    ensures 0.0 <= Accuracy(target, sales) <= 100.0
    ensures Accuracy(target, sales) == 100.0 <==> sales == target
    ensures Abs(target - sales) >= target ==> Accuracy(target, sales) == 0.0
  {
    var d := Abs(target - sales) / target;
    assert d >= 0.0;
    if sales != target {
      assert d > 0.0;
    }
    if Abs(target - sales) >= target {
      assert d >= 1.0;
    }
  }

  function RowAccuracy(headers: seq<string>, row: seq<Cell>): real
  {
    var t := Get(headers, row, "Target");
    var s := Get(headers, row, "Sales");
    if t.Number? && t.value > 0.0 && s.Number? then Accuracy(t.value, s.value) else 0.0
  }

  function AccuracySum(headers: seq<string>, rows: seq<seq<Cell>>): real
  {
    if |rows| == 0 then 0.0
    else AccuracySum(headers, rows[..|rows| - 1]) + RowAccuracy(headers, rows[|rows| - 1])
  }

  /** A sum of n values in [0, 100] lies in [0, 100 n]. */
  lemma {:induction false} AccuracySumBounds(headers: seq<string>, rows: seq<seq<Cell>>)
    ensures 0.0 <= AccuracySum(headers, rows) <= 100.0 * |rows| as real
  {
    if |rows| > 0 {
      AccuracySumBounds(headers, rows[..|rows| - 1]);
      var t := Get(headers, rows[|rows| - 1], "Target");
      var s := Get(headers, rows[|rows| - 1], "Sales");
      if t.Number? && t.value > 0.0 && s.Number? {
        AccuracyPerfect(t.value, s.value);
      }
    }
  }

  /** The mean accuracy over a non-empty group. */
  function MeanAccuracy(headers: seq<string>, rows: seq<seq<Cell>>): (m: real)
    requires |rows| > 0
    ensures 0.0 <= m <= 100.0
  {
    AccuracySumBounds(headers, rows);
    AccuracySum(headers, rows) / |rows| as real
  }

  /** The rows with a positive target and a sales figure (`valid_data`). */
  function ForecastRows(sh: Sheet): Sheet
  {
    Sheet(sh.headers, Filter(sh.rows, (row: seq<Cell>) => Forecastable(sh.headers, row)))
  }

  /**
   * The sheet has `Category`, `Target` and `Sales`, its targets can be
   * compared with 0, and the sales of the forecastable rows are numbers.
   */
  predicate ForecastReady(sh: Sheet)
  {
    sh.Has("Category") && sh.Has("Target") && sh.Has("Sales") &&
    Numeric(sh, "Target") && Numeric(ForecastRows(sh), "Sales")
  }

  /**
   * `calculate_forecast_accuracy`: mean clipped accuracy per category over
   * the rows with a positive target and a sales figure, rounded.  Needs
   * `Category`, `Target` and `Sales`; comparing or subtracting a cell that
   * is not a number raises, and the caught exception yields the empty series.
   */
  function ForecastAccuracy(sales: SalesFrame): seq<(string, real)>
  {
    if sales.Absent() || !ForecastReady(sales.sheet) || |ForecastRows(sales.sheet).rows| == 0 then []
    else
      var valid := ForecastRows(sales.sheet);
      var cats := GroupKeys(valid, "Category");
      seq(|cats|, i requires 0 <= i < |cats| => (cats[i], CategoryAccuracy(valid, cats[i])))
  }

  function CategoryAccuracy(valid: Sheet, c: string): (r: real)
    ensures 0.0 <= r <= 100.0
  {
    var g := RowsWithKey(valid.headers, valid.rows, "Category", c);
    if |g| == 0 then 0.0
    else
      Round1Within(MeanAccuracy(valid.headers, g));
      Round1(MeanAccuracy(valid.headers, g))
  }

  /** A row is forecastable exactly when it is kept in `valid_data`. */
  lemma ForecastRowsMembers(sh: Sheet)
    ensures forall r :: r in ForecastRows(sh).rows <==> r in sh.rows && Forecastable(sh.headers, r)
  {
    var p := (row: seq<Cell>) => Forecastable(sh.headers, row);
    assert ForecastRows(sh).rows == Filter(sh.rows, p);
    forall r | r in sh.rows && Forecastable(sh.headers, r) ensures r in ForecastRows(sh).rows {
      var j :| 0 <= j < |sh.rows| && sh.rows[j] == r;
      assert p(sh.rows[j]);
    }
  }

  /**
   * Every listed accuracy lies in [0, 100] and is, to within rounding, the
   * mean accuracy of its category's forecastable rows; each listed category
   * has such a row; a missing sheet or a failed guard gives the empty
   * series, and otherwise every category of a forecastable row is listed.
   */
  lemma ForecastInRange(sales: SalesFrame)
    ensures forall i :: 0 <= i < |ForecastAccuracy(sales)| ==> 0.0 <= ForecastAccuracy(sales)[i].1 <= 100.0
    ensures forall i :: 0 <= i < |ForecastAccuracy(sales)| ==>
              exists j :: 0 <= j < |sales.sheet.rows| &&
                Forecastable(sales.sheet.headers, sales.sheet.rows[j]) &&
                KeyOf(Get(sales.sheet.headers, sales.sheet.rows[j], "Category")) == Some(ForecastAccuracy(sales)[i].0)
    ensures forall i :: 0 <= i < |ForecastAccuracy(sales)| ==>
              var g := RowsWithKey(sales.sheet.headers, ForecastRows(sales.sheet).rows, "Category", ForecastAccuracy(sales)[i].0);
              |g| > 0 &&
              AccuracySum(sales.sheet.headers, g) / |g| as real - 0.05 < ForecastAccuracy(sales)[i].1 <=
                AccuracySum(sales.sheet.headers, g) / |g| as real + 0.05
    ensures sales.Absent() || !ForecastReady(sales.sheet) ==> ForecastAccuracy(sales) == []
    ensures !sales.Absent() && ForecastReady(sales.sheet) ==>
              forall j :: 0 <= j < |sales.sheet.rows| && Forecastable(sales.sheet.headers, sales.sheet.rows[j]) &&
                          KeyOf(Get(sales.sheet.headers, sales.sheet.rows[j], "Category")).Some? ==>
                exists i :: 0 <= i < |ForecastAccuracy(sales)| &&
                  ForecastAccuracy(sales)[i].0 == KeyOf(Get(sales.sheet.headers, sales.sheet.rows[j], "Category")).value
  {
    var f := ForecastAccuracy(sales);
    if !sales.Absent() && ForecastReady(sales.sheet) {
      ForecastListed(sales.sheet);
    }
    if |f| > 0 {
      ForecastLines(sales.sheet);
    }
  }

  /** The lines of a sheet that passes the guards and has forecastable rows. */
  lemma ForecastLines(sh: Sheet)
    requires !sh.Empty() && ForecastReady(sh) && |ForecastRows(sh).rows| > 0
    ensures var f := ForecastAccuracy(SalesTable(sh));
            forall i :: 0 <= i < |f| ==>
              (exists j :: 0 <= j < |sh.rows| && Forecastable(sh.headers, sh.rows[j]) &&
                 KeyOf(Get(sh.headers, sh.rows[j], "Category")) == Some(f[i].0)) &&
              var g := RowsWithKey(sh.headers, ForecastRows(sh).rows, "Category", f[i].0);
              |g| > 0 &&
              AccuracySum(sh.headers, g) / |g| as real - 0.05 < f[i].1 <= AccuracySum(sh.headers, g) / |g| as real + 0.05
  {
    var f := ForecastAccuracy(SalesTable(sh));
    var valid := ForecastRows(sh);
    var cats := GroupKeys(valid, "Category");
    assert |f| == |cats|;
    forall i | 0 <= i < |f|
      ensures (exists j :: 0 <= j < |sh.rows| && Forecastable(sh.headers, sh.rows[j]) &&
                 KeyOf(Get(sh.headers, sh.rows[j], "Category")) == Some(f[i].0)) &&
              var g := RowsWithKey(sh.headers, valid.rows, "Category", f[i].0);
              |g| > 0 &&
              AccuracySum(sh.headers, g) / |g| as real - 0.05 < f[i].1 <= AccuracySum(sh.headers, g) / |g| as real + 0.05
    {
      assert f[i] == (cats[i], CategoryAccuracy(valid, cats[i]));
      ForecastLine(sh, cats[i]);
    }
  }

  /** One listed category: it has a forecastable row, and its value is its rows' mean accuracy, rounded. */
  lemma ForecastLine(sh: Sheet, c: string)
    requires c in GroupKeys(ForecastRows(sh), "Category")
    ensures exists j :: 0 <= j < |sh.rows| && Forecastable(sh.headers, sh.rows[j]) &&
              KeyOf(Get(sh.headers, sh.rows[j], "Category")) == Some(c)
    ensures var g := RowsWithKey(sh.headers, ForecastRows(sh).rows, "Category", c);
            |g| > 0 &&
            AccuracySum(sh.headers, g) / |g| as real - 0.05 < CategoryAccuracy(ForecastRows(sh), c) <=
              AccuracySum(sh.headers, g) / |g| as real + 0.05
  {
    var valid := ForecastRows(sh);
    ForecastRowsMembers(sh);
    var k :| 0 <= k < |valid.rows| && KeyOf(Get(sh.headers, valid.rows[k], "Category")) == Some(c);
    var r := valid.rows[k];
    assert r in sh.rows && Forecastable(sh.headers, r);
    var j :| 0 <= j < |sh.rows| && sh.rows[j] == r;
    var g := RowsWithKey(sh.headers, valid.rows, "Category", c);
    assert r in g;
    Round1Close(MeanAccuracy(sh.headers, g));
  }

  /** Every category of a forecastable row is listed by a sheet that passes the guards. */
  lemma ForecastListed(sh: Sheet)
    requires !sh.Empty() && ForecastReady(sh)
    ensures var f := ForecastAccuracy(SalesTable(sh));
            forall j :: 0 <= j < |sh.rows| && Forecastable(sh.headers, sh.rows[j]) &&
                        KeyOf(Get(sh.headers, sh.rows[j], "Category")).Some? ==>
              exists i :: 0 <= i < |f| && f[i].0 == KeyOf(Get(sh.headers, sh.rows[j], "Category")).value
  {
    var f := ForecastAccuracy(SalesTable(sh));
    var valid := ForecastRows(sh);
    var cats := GroupKeys(valid, "Category");
    ForecastRowsMembers(sh);
    forall j | 0 <= j < |sh.rows| && Forecastable(sh.headers, sh.rows[j]) &&
               KeyOf(Get(sh.headers, sh.rows[j], "Category")).Some?
      ensures exists i :: 0 <= i < |f| && f[i].0 == KeyOf(Get(sh.headers, sh.rows[j], "Category")).value
    {
      var r := sh.rows[j];
      var c := KeyOf(Get(sh.headers, r, "Category")).value;
      assert r in valid.rows;
      var k :| 0 <= k < |valid.rows| && valid.rows[k] == r;
      assert c in cats;
      var i :| 0 <= i < |cats| && cats[i] == c;
      assert f[i].0 == c;
    }
  }

  // ------------------------------------------------------------ IOUs

  /** One (Category, Channel) line of `get_ious_analysis`, every figure rounded to 2 decimals. */
  datatype IouLine = IouLine(
    category: string,
    channel: string,
    iousSum: real,
    iousCount: nat,
    iousMean: Option<real>,
    salesSum: real,
    targetSum: real,
    iouVsSalesPct: real)

  function PairOf(headers: seq<string>, row: seq<Cell>): Option<(string, string)>
  {
    var c := KeyOf(Get(headers, row, "Category"));
    var ch := KeyOf(Get(headers, row, "Channel"));
    if c.Some? && ch.Some? then Some((c.value, ch.value)) else None
  }

  /** The (Category, Channel) pairs of the rows that have both, in row order. */
  function Pairs(headers: seq<string>, rows: seq<seq<Cell>>): (ps: seq<(string, string)>)
    ensures forall p :: p in ps <==> exists i :: 0 <= i < |rows| && PairOf(headers, rows[i]) == Some(p)
  {
    if |rows| == 0 then []
    else
      var before := Pairs(headers, rows[..|rows| - 1]);
      var last := PairOf(headers, rows[|rows| - 1]);
      assert forall i :: 0 <= i < |rows| - 1 ==> rows[..|rows| - 1][i] == rows[i];
      if last.Some? then before + [last.value] else before
  }

  function CountNumbers(cells: seq<Cell>): (n: nat)
    ensures n <= |cells|
  {
    if |cells| == 0 then 0
    else CountNumbers(cells[..|cells| - 1]) + (if cells[|cells| - 1].Number? then 1 else 0)
  }

  /** `mean()` rounded to 2 decimals; NaN (None) over no values. */
  function MeanOf(sum: real, n: nat): Option<real>
  {
    if n > 0 then Some(Round2(sum / n as real)) else None
  }

  /** The rows of one (Category, Channel) pair. */
  function PairGroup(sh: Sheet, p: (string, string)): Sheet
  {
    Sheet(sh.headers, Filter(sh.rows, (row: seq<Cell>) => PairOf(sh.headers, row) == Some(p)))
  }

  /** A line from a group's IOU sum and count and its sales and target sums. */
  function IouLineFrom(p: (string, string), ious: real, n: nat, sales: real, target: real): (l: IouLine)
    ensures (l.category, l.channel) == p
  {
    var i := Round2(ious);
    var s := Round2(sales);
    IouLine(p.0, p.1, i, n, MeanOf(ious, n), s, Round2(target), Round1(GuardedPercent(i, s)))
  }

  function IouLineOf(sh: Sheet, p: (string, string)): (l: IouLine)
    ensures (l.category, l.channel) == p
  {
    var g := PairGroup(sh, p);
    var ious := ColumnCells(g, "IOUs");
    IouLineFrom(p, Sum(ious), CountNumbers(ious), Sum(ColumnCells(g, "Sales")), Sum(ColumnCells(g, "Target")))
  }

  function IouKey(l: IouLine): real
  {
    l.iousSum
  }

  /** One line per distinct pair, in order of first appearance. */
  function IouLines(sh: Sheet): (lines: seq<IouLine>)
    ensures |lines| == |Dedup(Pairs(sh.headers, sh.rows))|
  {
    var ps := Dedup(Pairs(sh.headers, sh.rows));
    seq(|ps|, i requires 0 <= i < |ps| => IouLineOf(sh, ps[i]))
  }

  /**
   * `get_ious_analysis`: one line per (Category, Channel) pair, sorted by
   * the IOU sum, largest first.  Empty without a sheet or an `IOUs` column;
   * a missing grouping or summed column, or one that cannot be summed,
   * raises, and the caught exception also yields the empty table.
   */
  function IousAnalysis(sales: SalesFrame): seq<IouLine>
  {
    if sales.Absent() || !sales.sheet.Has("IOUs") then []
    else
      var sh := sales.sheet;
      if !(sh.Has("Category") && sh.Has("Channel") && sh.Has("Sales") && sh.Has("Target")) then []
      else if !(Numeric(sh, "IOUs") && Numeric(sh, "Sales") && Numeric(sh, "Target")) then []
      else SortDesc(IouLines(sh), IouKey)
  }

  /** The sheet has the IOU, grouping and summed columns, and the summed ones hold numbers or blanks. */
  predicate IouReady(sh: Sheet)
  {
    sh.Has("IOUs") && sh.Has("Category") && sh.Has("Channel") && sh.Has("Sales") && sh.Has("Target") &&
    Numeric(sh, "IOUs") && Numeric(sh, "Sales") && Numeric(sh, "Target")
  }

  /** Each pair of a row has its line. */
  lemma IouLinesCover(sh: Sheet)
    ensures forall j :: 0 <= j < |sh.rows| && PairOf(sh.headers, sh.rows[j]).Some? ==>
              IouLineOf(sh, PairOf(sh.headers, sh.rows[j]).value) in IouLines(sh)
  {
    var all := Pairs(sh.headers, sh.rows);
    var ps := Dedup(all);
    var lines := IouLines(sh);
    forall j | 0 <= j < |sh.rows| && PairOf(sh.headers, sh.rows[j]).Some?
      ensures IouLineOf(sh, PairOf(sh.headers, sh.rows[j]).value) in lines
    {
      var p := PairOf(sh.headers, sh.rows[j]).value;
      assert p in all;
      var k :| 0 <= k < |all| && all[k] == p;
      var i :| 0 <= i < |ps| && ps[i] == p;
      assert lines[i] == IouLineOf(sh, p);
    }
  }

  /** Each line is the line of its own pair, and that pair is the pair of some row. */
  lemma IouLinesFromRows(sh: Sheet)
    ensures forall l :: l in IouLines(sh) ==>
              l == IouLineOf(sh, (l.category, l.channel)) &&
              exists j :: 0 <= j < |sh.rows| && PairOf(sh.headers, sh.rows[j]) == Some((l.category, l.channel))
  {
    var all := Pairs(sh.headers, sh.rows);
    var ps := Dedup(all);
    var lines := IouLines(sh);
    forall l | l in lines
      ensures l == IouLineOf(sh, (l.category, l.channel)) &&
              exists j :: 0 <= j < |sh.rows| && PairOf(sh.headers, sh.rows[j]) == Some((l.category, l.channel))
    {
      var i :| 0 <= i < |lines| && lines[i] == l;
      assert ps[i] in all;
    }
  }

  /** The percentage is the rounded IOU sum over the rounded sales sum, a zero sales sum read as 1. */
  lemma IouPct(p: (string, string), ious: real, n: nat, sales: real, target: real)
    ensures var l := IouLineFrom(p, ious, n, sales, target);
            (l.salesSum == 0.0 ==> l.iouVsSalesPct == Round1(l.iousSum * 100.0)) &&
            (l.salesSum != 0.0 ==> l.iouVsSalesPct == Round1(l.iousSum / l.salesSum * 100.0))
  {
    var l := IouLineFrom(p, ious, n, sales, target);
    GuardedQuotient(l.iousSum, l.salesSum);
  }

  /**
   * The IOU table is sorted by IOU sum, largest first.  It is empty without
   * a sheet or when a guard fails; otherwise it holds one line for each
   * distinct (Category, Channel) pair of the rows and nothing else.
   */
  lemma IouTable(sales: SalesFrame)
    ensures SortedDesc(IousAnalysis(sales), IouKey)
    ensures sales.Absent() || !IouReady(sales.sheet) ==> IousAnalysis(sales) == []
    ensures !sales.Absent() && IouReady(sales.sheet) ==>
              |IousAnalysis(sales)| == |Dedup(Pairs(sales.sheet.headers, sales.sheet.rows))| &&
              (forall j :: 0 <= j < |sales.sheet.rows| && PairOf(sales.sheet.headers, sales.sheet.rows[j]).Some? ==>
                 IouLineOf(sales.sheet, PairOf(sales.sheet.headers, sales.sheet.rows[j]).value) in IousAnalysis(sales)) &&
              (forall l :: l in IousAnalysis(sales) ==>
                 l == IouLineOf(sales.sheet, (l.category, l.channel)) &&
                 exists j :: 0 <= j < |sales.sheet.rows| && PairOf(sales.sheet.headers, sales.sheet.rows[j]) == Some((l.category, l.channel)))
  {
    var a := IousAnalysis(sales);
    if !sales.Absent() && IouReady(sales.sheet) {
      var sh := sales.sheet;
      var lines := IouLines(sh);
      assert a == SortDesc(lines, IouKey);
      IouLinesCover(sh);
      IouLinesFromRows(sh);
      SortDescMembers(lines, IouKey);
      assert forall l :: l in a <==> l in lines;
    }
  }

  // ------------------------------------------------------------ day-over-day

  datatype ChannelChange = ChannelChange(channel: string, sales: real, yesterday: real, change: real, changePct: real)

  datatype Comparison = Comparison(
    todayTotal: real,
    yesterdayTotal: real,
    change: real,
    changePct: real,
    channels: seq<ChannelChange>)

  /** `(today - yesterday) / yesterday * 100` when yesterday is positive, else 0. */
  function ChangePct(today: real, yesterday: real): (r: real)
  {
    if yesterday > 0.0 then (today - yesterday) / yesterday * 100.0 else 0.0
  }

  /** The change percentage has the sign of the change, and is 0 without a positive base. */
  lemma ChangePctSign(today: real, yesterday: real)
    ensures yesterday <= 0.0 ==> ChangePct(today, yesterday) == 0.0
    ensures yesterday > 0.0 ==> (ChangePct(today, yesterday) > 0.0 <==> today > yesterday)
    ensures yesterday > 0.0 ==> (ChangePct(today, yesterday) == 0.0 <==> today == yesterday)
    ensures yesterday > 0.0 ==> ChangePct(today, yesterday) * yesterday == (today - yesterday) * 100.0
  {
  }

  function ChannelChangeOf(sh: Sheet, c: string): ChannelChange
  {
    var g := Group(sh, "Channel", c);
    ChangeFrom(c, Sum(ColumnCells(g, "Sales")), Sum(ColumnCells(g, "Yesterday_Sales")))
  }

  /** A channel's line from its sales and yesterday's sales. */
  function ChangeFrom(c: string, s: real, y: real): ChannelChange
  {
    ChannelChange(c, s, y, s - y, Round1(GuardedPercent(s - y, y)))
  }

  /**
   * `get_yesterday_comparison`; None is the empty dictionary, returned
   * without a sheet or a `Yesterday_Sales` column, and when a needed column
   * is missing or cannot be summed (the caught exception).
   */
  function YesterdayComparison(sales: SalesFrame): Option<Comparison>
  {
    if sales.Absent() || !sales.sheet.Has("Yesterday_Sales") then None
    else
      var sh := sales.sheet;
      if !sh.Has("Sales") || !sh.Has("Channel") || !Numeric(sh, "Sales") || !Numeric(sh, "Yesterday_Sales") then None
      else
        var t := Sum(ColumnCells(sh, "Sales"));
        var y := Sum(ColumnCells(sh, "Yesterday_Sales"));
        Some(ComparisonFrom(t, y, ChannelChanges(sh)))
  }

  /** The comparison from today's and yesterday's totals, rounded, and the channel lines. */
  function ComparisonFrom(t: real, y: real, channels: seq<ChannelChange>): Comparison
  {
    Comparison(Round2(t), Round2(y), Round2(t - y), Round1(ChangePct(t, y)), channels)
  }

  lemma ComparisonTotals(t: real, y: real, channels: seq<ChannelChange>)
    ensures var c := ComparisonFrom(t, y, channels);
            (y <= 0.0 ==> c.changePct == 0.0) &&
            (y > 0.0 && c.changePct > 0.0 ==> t > y) &&
            (y > 0.0 && t > y ==> c.changePct >= 0.0)
  {
    RoundedChangePct(t, y);
  }

  /** One change line per channel key, in the keys' sorted order. */
  function ChannelChanges(sh: Sheet): seq<ChannelChange>
  {
    var channels := GroupKeys(sh, "Channel");
    seq(|channels|, i requires 0 <= i < |channels| => ChannelChangeOf(sh, channels[i]))
  }

  /** Rounding keeps the sign of the change percentage, and a zero base gives 0. */
  lemma RoundedChangePct(today: real, yesterday: real)
    ensures yesterday <= 0.0 ==> Round1(ChangePct(today, yesterday)) == 0.0
    ensures yesterday > 0.0 && Round1(ChangePct(today, yesterday)) > 0.0 ==> today > yesterday
    ensures yesterday > 0.0 && today > yesterday ==> Round1(ChangePct(today, yesterday)) >= 0.0
  {
    ChangePctSign(today, yesterday);
    assert Round1(0.0) == 0.0;
    if yesterday > 0.0 {
      if ChangePct(today, yesterday) <= 0.0 {
        Round1Monotone(ChangePct(today, yesterday), 0.0);
      } else {
        Round1Monotone(0.0, ChangePct(today, yesterday));
      }
    }
  }

  /** Each channel's change is its sales minus yesterday's, its percentage divides by yesterday's with 0 read as 1. */
  lemma ChannelChangeFigures(c: string, s: real, y: real)
    ensures var l := ChangeFrom(c, s, y);
            l.change == l.sales - l.yesterday &&
            (l.yesterday == 0.0 ==> l.changePct == Round1(l.change * 100.0)) &&
            (l.yesterday != 0.0 ==> l.changePct == Round1(l.change / l.yesterday * 100.0))
  {
    GuardedQuotient(s - y, y);
  }

  /**
   * The overall change percentage is 0 unless yesterday's total is
   * positive, and then positive only when sales grew, and never negative
   * when they did.
   */
  lemma ComparisonFigures(sales: SalesFrame)
    ensures var r := YesterdayComparison(sales);
            r.Some? ==>
              var t := Sum(ColumnCells(sales.sheet, "Sales"));
              var y := Sum(ColumnCells(sales.sheet, "Yesterday_Sales"));
              (y <= 0.0 ==> r.value.changePct == 0.0) &&
              (y > 0.0 && r.value.changePct > 0.0 ==> t > y) &&
              (y > 0.0 && t > y ==> r.value.changePct >= 0.0)
  {
    var r := YesterdayComparison(sales);
    if r.Some? {
      var t := Sum(ColumnCells(sales.sheet, "Sales"));
      var y := Sum(ColumnCells(sales.sheet, "Yesterday_Sales"));
      assert r.value == ComparisonFrom(t, y, ChannelChanges(sales.sheet));
      ComparisonTotals(t, y, ChannelChanges(sales.sheet));
    }
  }

  /** There is one channel line per channel, in sorted order. */
  lemma ComparisonChannels(sales: SalesFrame)
    ensures var r := YesterdayComparison(sales);
            r.Some? ==>
              var ks := GroupKeys(sales.sheet, "Channel");
              |r.value.channels| == |ks| &&
              forall i :: 0 <= i < |ks| ==> r.value.channels[i] == ChannelChangeOf(sales.sheet, ks[i])
  {
    var r := YesterdayComparison(sales);
    if r.Some? {
      assert r.value.channels == ChannelChanges(sales.sheet);
    }
  }

  // ------------------------------------------------------------ top-10 lists

  const TopN: nat := 10

  /** A row's figure under `name`; rows without a number there are dropped before ranking. */
  function FigureOf(headers: seq<string>, name: string, row: seq<Cell>): real
  {
    NumberOf(Get(headers, row, name)).GetOr(0.0)
  }

  function Figure(headers: seq<string>, name: string): seq<Cell> -> real
  {
    (row: seq<Cell>) => FigureOf(headers, name, row)
  }

  function NegatedFigure(headers: seq<string>, name: string): seq<Cell> -> real
  {
    (row: seq<Cell>) => -FigureOf(headers, name, row)
  }

  /** The chosen columns of a row; the caller checks that they all exist. */
  function Select(headers: seq<string>, row: seq<Cell>, names: seq<string>): seq<Cell>
  {
    seq(|names|, i requires 0 <= i < |names| => Get(headers, row, names[i]))
  }

  function SelectAll(headers: seq<string>, rows: seq<seq<Cell>>, names: seq<string>): seq<seq<Cell>>
  {
    seq(|rows|, i requires 0 <= i < |rows| => Select(headers, rows[i], names))
  }

  /** The rows with a number under `name`, the ones `nlargest` ranks (NaN never is). */
  function Figured(sh: Sheet, name: string): seq<seq<Cell>>
  {
    Filter(sh.rows, (row: seq<Cell>) => Get(sh.headers, row, name).Number?)
  }

  /** `nlargest(10, name)`: the ten rows with the largest numbers under `name`, ties in row order. */
  function Highest(sh: Sheet, name: string): seq<seq<Cell>>
  {
    Largest(Figured(sh, name), TopN, Figure(sh.headers, name))
  }

  /**
   * A sheet without rows was read back from a header-only CSV file, so
   * every column of it has dtype `object`, which `nlargest` and
   * `nsmallest` refuse whatever the length.
   */
  predicate HeaderOnly(sh: Sheet)
  {
    |sh.rows| == 0
  }

  /**
   * `nlargest(10, name)[names]`, None where that raises: a column not
   * there, one holding something other than numbers, or a header-only
   * sheet.
   */
  function TopRows(sh: Sheet, name: string, names: seq<string>): Option<seq<seq<Cell>>>
  {
    if HeaderOnly(sh) || !sh.Has(name) || !Numeric(sh, name) || exists n :: n in names && !sh.Has(n) then None
    else Some(SelectAll(sh.headers, Highest(sh, name), names))
  }

  predicate PositiveIn(headers: seq<string>, name: string, row: seq<Cell>)
  {
    Get(headers, row, name).Number? && Get(headers, row, name).value > 0.0
  }

  function Positives(sh: Sheet, name: string): seq<seq<Cell>>
  {
    Filter(sh.rows, (row: seq<Cell>) => PositiveIn(sh.headers, name, row))
  }

  /** `[df[name] > 0].nsmallest(10, name)`: the ten rows with the smallest positive numbers. */
  function Lowest(sh: Sheet, name: string): seq<seq<Cell>>
  {
    Largest(Positives(sh, name), TopN, NegatedFigure(sh.headers, name))
  }

  /**
   * `[df[name] > 0].nsmallest(10, name)[names]`, None where that raises.
   * The mask keeps the column's dtype, so it is the whole sheet being
   * header-only that raises, not an empty selection.
   */
  function BottomRows(sh: Sheet, name: string, names: seq<string>): Option<seq<seq<Cell>>>
  {
    if HeaderOnly(sh) || !sh.Has(name) || !Numeric(sh, name) || exists n :: n in names && !sh.Has(n) then None
    else Some(SelectAll(sh.headers, Lowest(sh, name), names))
  }

  /** The bottom list holds ten rows of the sheet, or all its positive ones if fewer, each with a positive figure. */
  lemma LowestPositive(sh: Sheet, name: string)
    ensures |Lowest(sh, name)| == if TopN < |Positives(sh, name)| then TopN else |Positives(sh, name)|
    ensures forall row :: row in Lowest(sh, name) ==> row in sh.rows && PositiveIn(sh.headers, name, row)
  {
    LargestIsTop(Positives(sh, name), TopN, NegatedFigure(sh.headers, name));
    LargestMembers(Positives(sh, name), TopN, NegatedFigure(sh.headers, name));
    forall row | row in Lowest(sh, name) ensures row in sh.rows && PositiveIn(sh.headers, name, row) {
      assert row in Positives(sh, name);
    }
  }

  /** The bottom list runs smallest first. */
  lemma LowestAscending(sh: Sheet, name: string)
    ensures forall i, j :: 0 <= i < j < |Lowest(sh, name)| ==>
              FigureOf(sh.headers, name, Lowest(sh, name)[i]) <= FigureOf(sh.headers, name, Lowest(sh, name)[j])
  {
    var key := NegatedFigure(sh.headers, name);
    var ranked := Lowest(sh, name);
    assert SortedDesc(ranked, key) by {
      LargestIsTop(Positives(sh, name), TopN, key);
    }
    forall i, j | 0 <= i < j < |ranked| ensures FigureOf(sh.headers, name, ranked[i]) <= FigureOf(sh.headers, name, ranked[j]) {
      assert key(ranked[i]) >= key(ranked[j]);
    }
  }

  /** No positive row left out of the bottom list is smaller than one kept. */
  lemma LowestIsBottom(sh: Sheet, name: string)
    ensures forall row, i :: row in multiset(Positives(sh, name)) - multiset(Lowest(sh, name)) && 0 <= i < |Lowest(sh, name)| ==>
              FigureOf(sh.headers, name, Lowest(sh, name)[i]) <= FigureOf(sh.headers, name, row)
  {
    var key := NegatedFigure(sh.headers, name);
    var ranked := Lowest(sh, name);
    LargestIsTop(Positives(sh, name), TopN, key);
    forall row, i | row in multiset(Positives(sh, name)) - multiset(ranked) && 0 <= i < |ranked|
      ensures FigureOf(sh.headers, name, ranked[i]) <= FigureOf(sh.headers, name, row)
    {
      assert key(ranked[i]) >= key(row);
    }
  }

  /**
   * The top list holds ten rows with a number, or all of them if fewer,
   * largest first, and no row with a number left out is larger than one kept.
   */
  lemma HighestDescending(sh: Sheet, name: string)
    ensures |Highest(sh, name)| == if TopN < |Figured(sh, name)| then TopN else |Figured(sh, name)|
    ensures forall row :: row in Highest(sh, name) ==> row in sh.rows && Get(sh.headers, row, name).Number?
    ensures SortedDesc(Highest(sh, name), Figure(sh.headers, name))
    ensures forall row, i :: row in multiset(Figured(sh, name)) - multiset(Highest(sh, name)) && 0 <= i < |Highest(sh, name)| ==>
              FigureOf(sh.headers, name, Highest(sh, name)[i]) >= FigureOf(sh.headers, name, row)
  {
    var key := Figure(sh.headers, name);
    var ranked := Highest(sh, name);
    LargestIsTop(Figured(sh, name), TopN, key);
    LargestMembers(Figured(sh, name), TopN, key);
    forall row | row in ranked ensures row in sh.rows && Get(sh.headers, row, name).Number? {
      assert row in Figured(sh, name);
    }
    forall row, i | row in multiset(Figured(sh, name)) - multiset(ranked) && 0 <= i < |ranked|
      ensures FigureOf(sh.headers, name, ranked[i]) >= FigureOf(sh.headers, name, row)
    {
      assert key(ranked[i]) >= key(row);
    }
  }

  /** The late shipments of one planning level. */
  function LateCount(rows: seq<Shipment>, level: string): nat
  {
    |Filter(rows, (r: Shipment) => r.status == Some(Late) && r.planningLevel == Some(level))|
  }

  function CountKey(p: (string, nat)): real
  {
    p.1 as real
  }

  function LateRows(rows: seq<Shipment>): seq<Shipment>
  {
    Filter(rows, (r: Shipment) => r.status == Some(Late))
  }

  /** The late count of each planning level with a late shipment, in sorted order. */
  function LevelCounts(rows: seq<Shipment>): seq<(string, nat)>
  {
    var levels := Groups.Keys(LateRows(rows), (r: Shipment) => r.planningLevel);
    seq(|levels|, i requires 0 <= i < |levels| => (levels[i], LateCount(rows, levels[i])))
  }

  /** `[status == 'Late'].groupby('Planning_Level').size().nlargest(10)` */
  function TopLate(rows: seq<Shipment>): seq<(string, nat)>
  {
    Largest(LevelCounts(rows), TopN, CountKey)
  }

  lemma LevelCountsOf(rows: seq<Shipment>)
    ensures forall p :: p in LevelCounts(rows) ==> p.1 == LateCount(rows, p.0) && p.1 > 0
  {
    var late := LateRows(rows);
    var levels := Groups.Keys(late, (r: Shipment) => r.planningLevel);
    var counts := LevelCounts(rows);
    forall p | p in counts ensures p.1 == LateCount(rows, p.0) && p.1 > 0 {
      var i :| 0 <= i < |counts| && counts[i] == p;
      var k :| 0 <= k < |late| && late[k].planningLevel == Some(levels[i]);
      FilterFrom(rows, (r: Shipment) => r.status == Some(Late), k);
      var j :| 0 <= j < |rows| && rows[j] == late[k] && rows[j].status == Some(Late);
      assert rows[j] in Filter(rows, (r: Shipment) => r.status == Some(Late) && r.planningLevel == Some(levels[i]));
    }
  }

  /**
   * Ten levels, or every level with a late shipment if fewer, each with its
   * late count, most late first; no level left out has more.
   */
  lemma TopLateRanked(rows: seq<Shipment>)
    ensures |TopLate(rows)| == if TopN < |LevelCounts(rows)| then TopN else |LevelCounts(rows)|
    ensures SortedDesc(TopLate(rows), CountKey)
    ensures forall p :: p in TopLate(rows) ==> p.1 == LateCount(rows, p.0) && p.1 > 0
    ensures forall p, i :: p in multiset(LevelCounts(rows)) - multiset(TopLate(rows)) && 0 <= i < |TopLate(rows)| ==>
              TopLate(rows)[i].1 >= p.1
  {
    LevelCountsOf(rows);
    LargestIsTop(LevelCounts(rows), TopN, CountKey);
    LargestMembers(LevelCounts(rows), TopN, CountKey);
  }

  /** `Sales - Yesterday_Sales`, missing where either is. */
  function GrowthCell(sales: Cell, yesterday: Cell): Cell
  {
    if sales.Number? && yesterday.Number? then Number(sales.value - yesterday.value) else Blank
  }

  // ------------------------------------------------------------ alerts

  datatype AlertLevel = Critical | Warning

  /** The alerts of `generate_email_report`, from the late rate. */
  function Alerts(lateRate: real): (alerts: seq<AlertLevel>)
    ensures |alerts| <= 1
    ensures alerts == [Critical] <==> lateRate > 40.0
    ensures alerts == [Warning] <==> 35.0 < lateRate <= 40.0
    ensures alerts == [] <==> lateRate <= 35.0
  {
    if lateRate > 40.0 then [Critical]
    else if lateRate > 35.0 then [Warning]
    else []
  }
}
