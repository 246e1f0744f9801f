/**
 * The headline figures of `DataProcessor.calculate_kpis`: status counts and
 * rates, the average delay of late shipments, sales totals and achievement,
 * and the category with the highest late rate.
 */
module Kpis {
  import opened Wrappers
  import opened Records
  import opened Sheets
  import opened Numbers
  import opened Seqs
  import opened Frames
  import Groups
  import Sorting
  import Text

  /** The KPI dictionary. */
  datatype Kpis = Kpis(
    totalShipments: nat,
    lateRate: real,
    onTimeRate: real,
    advancedRate: real,
    notDueRate: real,
    avgDelayDays: real,
    worstCategory: string,
    worstCategoryLateRate: real,
    totalSales: real,
    totalTarget: real,
    salesAchievement: real)

  /** The values the dictionary starts with. */
  const Defaults: Kpis := Kpis(0, 0.0, 0.0, 0.0, 0.0, 0.0, "N/A", 0.0, 0.0, 0.0, 0.0)

  predicate IsLate(r: Shipment)
  {
    r.status == Some(Late)
  }

  /** The four status rates over the rows with a status, set only when there are any. */
  function StatusRates(k: Kpis, t: Tally): (k': Kpis)
    ensures k'.(totalShipments := k.totalShipments, lateRate := k.lateRate, onTimeRate := k.onTimeRate,
                advancedRate := k.advancedRate, notDueRate := k.notDueRate) == k
  {
    var n := t.Total();
    if n > 0 then
      k.(totalShipments := n,
         lateRate := Rate(t.late, n),
         onTimeRate := Rate(t.onTime, n),
         advancedRate := Rate(t.advanced, n),
         notDueRate := Rate(t.notDue, n))
    else k
  }

  /** `Delay_Days` of the late rows that have one, in row order. */
  function LateDelays(rows: seq<Shipment>): (ds: seq<int>)
    ensures |ds| <= |rows|
  {
    if |rows| == 0 then []
    else
      var last := rows[|rows| - 1];
      LateDelays(rows[..|rows| - 1]) + (if IsLate(last) && last.delayDays.Some? then [last.delayDays.value] else [])
  }

  function IntSum(xs: seq<int>): int
  {
    if |xs| == 0 then 0 else IntSum(xs[..|xs| - 1]) + xs[|xs| - 1]
  }

  /** The mean of the late rows' delays, rounded; 0 when no late row has one (a NaN mean). */
  function MeanDelay(ds: seq<int>): real
  {
    if |ds| == 0 then 0.0 else Round1(IntSum(ds) as real / |ds| as real)
  }

  /** `avg_delay_days`: set only when some row is late. */
  function AverageDelay(k: Kpis, lateCount: nat, ds: seq<int>): (k': Kpis)
    ensures k'.(avgDelayDays := k.avgDelayDays) == k
  {
    if lateCount > 0 then k.(avgDelayDays := MeanDelay(ds)) else k
  }

  /** Sales totals and achievement; None where summing either column raises. */
  function SalesTotals(k: Kpis, sales: SalesFrame): (r: Option<Kpis>)
    ensures r.Some? ==> r.value.(totalSales := k.totalSales, totalTarget := k.totalTarget, salesAchievement := k.salesAchievement) == k
  {
    if sales.Absent() || !(sales.sheet.Has("Sales") && sales.sheet.Has("Target")) then Some(k)
    else
      var s := ColumnSum(sales.sheet, "Sales");
      var t := ColumnSum(sales.sheet, "Target");
      if s.None? || t.None? then None
      else
        var k' := k.(totalSales := Round2(s.value), totalTarget := Round2(t.value));
        Some(if t.value > 0.0 then k'.(salesAchievement := Round1(GuardedPercent(s.value, t.value))) else k')
  }

  /** The rows of one category. */
  function CategoryRows(rows: seq<Shipment>, c: string): seq<Shipment>
  {
    Filter(rows, (r: Shipment) => r.category == Some(c))
  }

  /** A category's share of late rows among all its rows (missing statuses included), rounded. */
  function CategoryLateRate(rows: seq<Shipment>, c: string): (rate: real)
    ensures 0.0 <= rate <= 100.0
  {
    var g := CategoryRows(rows, c);
    if |g| == 0 then 0.0
    else
      RateBounds(|Filter(g, IsLate)|, |g|);
      Rate(|Filter(g, IsLate)|, |g|)
  }

  /** The categories present, in the sorted order `groupby` lists them. */
  function Categories(rows: seq<Shipment>): seq<string>
  {
    Groups.Keys(rows, (r: Shipment) => r.category)
  }

  function CategoryRates(rows: seq<Shipment>): (rates: seq<real>)
    ensures |rates| == |Categories(rows)|
    ensures forall i :: 0 <= i < |rates| ==> rates[i] == CategoryLateRate(rows, Categories(rows)[i])
  {
    var cats := Categories(rows);
    seq(|cats|, i requires 0 <= i < |cats| => CategoryLateRate(rows, cats[i]))
  }

  /** `worst_category` and its rate: the first category with the highest late rate. */
  function WorstCategory(k: Kpis, rows: seq<Shipment>): (k': Kpis)
    ensures k'.(worstCategory := k.worstCategory, worstCategoryLateRate := k.worstCategoryLateRate) == k
  {
    var cats := Categories(rows);
    if |cats| == 0 then k
    else
      var rates := CategoryRates(rows);
      var w := Sorting.ArgMax(rates);
      k.(worstCategory := cats[w], worstCategoryLateRate := rates[w])
  }

  /**
   * `calculate_kpis` over the two tables.  An exception while summing the
   * sales columns is caught: the dictionary keeps what was set before it.
   */
  function KpisOf(ship: ShippingFrame, sales: SalesFrame): Kpis
  {
    if ship.Absent() then Defaults
    else
      var rows := ship.rows;
      var t := TallyOf(rows);
      var k := AverageDelay(StatusRates(Defaults, t), t.late, LateDelays(rows));
      var withSales := SalesTotals(k, sales);
      if withSales.None? then k else WorstCategory(withSales.value, rows)
  }

  // ------------------------------------------------------------ properties

  /**
   * Without shipment rows every figure keeps its default; otherwise the total
   * is the number of rows with a status and each rate is that status's
   * count over it, rounded, in [0, 100] and within 0.05 of the exact share.
   */
  lemma KpisStatusRates(ship: ShippingFrame, sales: SalesFrame)
    ensures ship.Absent() ==> KpisOf(ship, sales) == Defaults
    ensures !ship.Absent() ==>
              var k := KpisOf(ship, sales);
              var n := CountWithStatus(ship.rows);
              k.totalShipments == n &&
              (n == 0 ==> k.lateRate == 0.0 && k.onTimeRate == 0.0 && k.advancedRate == 0.0 && k.notDueRate == 0.0) &&
              (n > 0 ==>
                k.lateRate == Rate(CountStatus(ship.rows, Late), n) &&
                k.onTimeRate == Rate(CountStatus(ship.rows, OnTime), n) &&
                k.advancedRate == Rate(CountStatus(ship.rows, Advanced), n) &&
                k.notDueRate == Rate(CountStatus(ship.rows, NotDue), n) &&
                0.0 <= k.lateRate <= 100.0 &&
                Percent(CountStatus(ship.rows, Late), n) - 0.05 < k.lateRate <= Percent(CountStatus(ship.rows, Late), n) + 0.05)
  {
    if !ship.Absent() {
      TallyCounts(ship.rows);
      var n := CountWithStatus(ship.rows);
      if n > 0 {
        TallyKnown(ship.rows);
        RateBounds(CountStatus(ship.rows, Late), n);
      }
    }
  }

  /** When every row holds one of the four statuses, every row is counted. */
  lemma {:induction false} TallyAllKnown(rows: seq<Shipment>)
    requires forall i :: 0 <= i < |rows| ==> KnownStatus(rows[i].status)
    ensures TallyOf(rows).other == 0
    ensures TallyOf(rows).Total() == |rows|
  {
    if |rows| > 0 {
      TallyAllKnown(rows[..|rows| - 1]);
    }
  }

  /** Four counts that make up the whole: their exact shares add up to 100 and their rounded rates to within 0.2 of it. */
  lemma RatesSum(l: nat, o: nat, a: nat, d: nat, n: nat)
    requires n > 0 && l + o + a + d == n
    ensures Percent(l, n) + Percent(o, n) + Percent(a, n) + Percent(d, n) == 100.0
    ensures 99.8 < Rate(l, n) + Rate(o, n) + Rate(a, n) + Rate(d, n) <= 100.2
  {
    PercentsAddUp(l, o, a, d, n);
    RateBounds(l, n);
    RateBounds(o, n);
    RateBounds(a, n);
    RateBounds(d, n);
  }

  lemma PercentsAddUp(l: nat, o: nat, a: nat, d: nat, n: nat)
    requires n > 0 && l + o + a + d == n
    ensures Percent(l, n) + Percent(o, n) + Percent(a, n) + Percent(d, n) == 100.0
  {
    var total := n as real;
    var c := 100.0 / total;
    PercentScales(l, n);
    PercentScales(o, n);
    PercentScales(a, n);
    PercentScales(d, n);
    assert Percent(l, n) + Percent(o, n) + Percent(a, n) + Percent(d, n) == (l as real + o as real + a as real + d as real) * c;
    assert total * c == 100.0;
  }

  lemma PercentScales(x: nat, n: nat)
    requires n > 0
    ensures Percent(x, n) == x as real * (100.0 / n as real)
  {
  }

  /**
   * On a table whose statuses are all known, the total is the row count and
   * the exact shares of the four statuses add up to 100, so the rounded
   * rates add up to within 0.2 of 100.
   */
  lemma KpisRatesSum(ship: ShippingFrame, sales: SalesFrame)
    requires ship.Table? && |ship.rows| > 0
    requires forall i :: 0 <= i < |ship.rows| ==> KnownStatus(ship.rows[i].status)
    ensures var k := KpisOf(ship, sales);
            var n := |ship.rows|;
            k.totalShipments == n &&
            Percent(CountStatus(ship.rows, Late), n) + Percent(CountStatus(ship.rows, OnTime), n) +
              Percent(CountStatus(ship.rows, Advanced), n) + Percent(CountStatus(ship.rows, NotDue), n) == 100.0 &&
            99.8 < k.lateRate + k.onTimeRate + k.advancedRate + k.notDueRate <= 100.2
  {
    var rows := ship.rows;
    TallyAllKnown(rows);
    TallyCounts(rows);
    TallyKnown(rows);
    KpisStatusRates(ship, sales);
    RatesSum(CountStatus(rows, Late), CountStatus(rows, OnTime), CountStatus(rows, Advanced), CountStatus(rows, NotDue), |rows|);
  }

  /** The figures before the sales step, which an exception there leaves in place. */
  function BeforeSales(rows: seq<Shipment>): Kpis
  {
    var t := TallyOf(rows);
    AverageDelay(StatusRates(Defaults, t), t.late, LateDelays(rows))
  }

  /** The sales step on its own: what it sets, and the achievement's distance from the exact ratio. */
  lemma SalesTotalsOf(k: Kpis, sales: SalesFrame)
    ensures (sales.Absent() || !sales.sheet.Has("Sales") || !sales.sheet.Has("Target")) ==> SalesTotals(k, sales) == Some(k)
    ensures !sales.Absent() && sales.sheet.Has("Sales") && sales.sheet.Has("Target") &&
            (ColumnSum(sales.sheet, "Sales").None? || ColumnSum(sales.sheet, "Target").None?) ==>
              SalesTotals(k, sales).None?
    ensures !sales.Absent() && ColumnSum(sales.sheet, "Sales").Some? && ColumnSum(sales.sheet, "Target").Some? ==>
              var s, t := ColumnSum(sales.sheet, "Sales").value, ColumnSum(sales.sheet, "Target").value;
              var r := SalesTotals(k, sales);
              r.Some? && r.value.totalSales == Round2(s) && r.value.totalTarget == Round2(t) &&
              (t > 0.0 ==> s * 100.0 / t - 0.05 < r.value.salesAchievement <= s * 100.0 / t + 0.05) &&
              (t <= 0.0 ==> r.value.salesAchievement == k.salesAchievement)
  {
    if !sales.Absent() && ColumnSum(sales.sheet, "Sales").Some? && ColumnSum(sales.sheet, "Target").Some? {
      var s, t := ColumnSum(sales.sheet, "Sales").value, ColumnSum(sales.sheet, "Target").value;
      if t > 0.0 {
        var p := GuardedPercent(s, t);
        assert p == s * 100.0 / t;
        Round1Close(p);
      }
    }
  }

  /**
   * The sales figures: defaults without a sales table or without both
   * columns; when summing a column raises, the sales figures and the worst
   * category keep their defaults; otherwise the totals are the rounded
   * column sums and achievement is set only for a positive target.
   */
  lemma KpisSales(ship: ShippingFrame, sales: SalesFrame)
    requires !ship.Absent()
    ensures var k := KpisOf(ship, sales);
            (sales.Absent() || !sales.sheet.Has("Sales") || !sales.sheet.Has("Target")) ==>
              k.totalSales == 0.0 && k.totalTarget == 0.0 && k.salesAchievement == 0.0
    ensures var k := KpisOf(ship, sales);
            !sales.Absent() && sales.sheet.Has("Sales") && sales.sheet.Has("Target") &&
            (ColumnSum(sales.sheet, "Sales").None? || ColumnSum(sales.sheet, "Target").None?) ==>
              k.totalSales == 0.0 && k.totalTarget == 0.0 && k.salesAchievement == 0.0 && k.worstCategory == "N/A"
    ensures var k := KpisOf(ship, sales);
            !sales.Absent() && ColumnSum(sales.sheet, "Sales").Some? && ColumnSum(sales.sheet, "Target").Some? ==>
              var s, t := ColumnSum(sales.sheet, "Sales").value, ColumnSum(sales.sheet, "Target").value;
              k.totalSales == Round2(s) && k.totalTarget == Round2(t) &&
              (t > 0.0 ==> s * 100.0 / t - 0.05 < k.salesAchievement <= s * 100.0 / t + 0.05) &&
              (t <= 0.0 ==> k.salesAchievement == 0.0)
  {
    var base := BeforeSales(ship.rows);
    assert base.totalSales == 0.0 && base.totalTarget == 0.0 && base.salesAchievement == 0.0 && base.worstCategory == "N/A";
    SalesTotalsOf(base, sales);
    var r := SalesTotals(base, sales);
    assert KpisOf(ship, sales) == if r.None? then base else WorstCategory(r.value, ship.rows);
  }

  /**
   * The category step on its own: a category whose rate no other category
   * beats, and among those tied at that rate the first in sorted order.
   */
  lemma WorstCategoryOf(k: Kpis, rows: seq<Shipment>)
    requires exists i :: 0 <= i < |rows| && rows[i].category.Some?
    ensures var w := WorstCategory(k, rows);
            (exists i :: 0 <= i < |rows| && rows[i].category == Some(w.worstCategory)) &&
            w.worstCategoryLateRate == CategoryLateRate(rows, w.worstCategory) &&
            forall i :: 0 <= i < |rows| && rows[i].category.Some? ==>
              CategoryLateRate(rows, rows[i].category.value) <= w.worstCategoryLateRate
    ensures var w := WorstCategory(k, rows);
            forall j, p :: 0 <= j < p < |Categories(rows)| && Categories(rows)[p] == w.worstCategory ==>
              CategoryLateRate(rows, Categories(rows)[j]) < w.worstCategoryLateRate
  {
    var cats := Categories(rows);
    FirstAtMaximum(rows);
    var i :| 0 <= i < |rows| && rows[i].category.Some?;
    assert rows[i].category.value in cats;
    var rates := CategoryRates(rows);
    var w := Sorting.ArgMax(rates);
    assert WorstCategory(k, rows).worstCategory == cats[w];
    assert cats[w] in cats;
    forall j | 0 <= j < |rows| && rows[j].category.Some?
      ensures CategoryLateRate(rows, rows[j].category.value) <= rates[w]
    {
      var c := rows[j].category.value;
      assert c in cats;
      CategoryRateBounded(rows, c);
    }
  }

  /** Every category listed before the one `ArgMax` picks has a strictly lower rate. */
  lemma FirstAtMaximum(rows: seq<Shipment>)
    requires |Categories(rows)| > 0
    ensures var cats := Categories(rows);
            var w := Sorting.ArgMax(CategoryRates(rows));
            forall j, p :: 0 <= j < p < |cats| && cats[p] == cats[w] ==>
              CategoryLateRate(rows, cats[j]) < CategoryLateRate(rows, cats[w])
  {
    var cats := Categories(rows);
    var rates := CategoryRates(rows);
    var w := Sorting.ArgMax(rates);
    forall j, p | 0 <= j < p < |cats| && cats[p] == cats[w]
      ensures CategoryLateRate(rows, cats[j]) < CategoryLateRate(rows, cats[w])
    {
      if p != w {
        Text.StrictlySortedDistinct(cats, p, w);
      }
      assert rates[j] < rates[w];
    }
  }

  /** No category's late rate exceeds the one `ArgMax` picks. */
  lemma CategoryRateBounded(rows: seq<Shipment>, c: string)
    requires c in Categories(rows)
    ensures CategoryLateRate(rows, c) <= CategoryRates(rows)[Sorting.ArgMax(CategoryRates(rows))]
  {
    var cats := Categories(rows);
    var rates := CategoryRates(rows);
    var m :| 0 <= m < |cats| && cats[m] == c;
    assert rates[m] == CategoryLateRate(rows, c);
  }

  /**
   * When the sales step does not raise and some row has a category, the
   * worst category is a category of some row, its rate is that category's
   * late rate, no category has a higher one, and every category listed
   * before it has a lower one.
   */
  lemma KpisWorstCategory(ship: ShippingFrame, sales: SalesFrame)
    requires !ship.Absent() && SalesTotals(Defaults, sales).Some?
    requires exists i :: 0 <= i < |ship.rows| && ship.rows[i].category.Some?
    ensures var k := KpisOf(ship, sales);
            (exists i :: 0 <= i < |ship.rows| && ship.rows[i].category == Some(k.worstCategory)) &&
            k.worstCategoryLateRate == CategoryLateRate(ship.rows, k.worstCategory) &&
            forall i :: 0 <= i < |ship.rows| && ship.rows[i].category.Some? ==>
              CategoryLateRate(ship.rows, ship.rows[i].category.value) <= k.worstCategoryLateRate
    ensures var k := KpisOf(ship, sales);
            forall j, p :: 0 <= j < p < |Categories(ship.rows)| && Categories(ship.rows)[p] == k.worstCategory ==>
              CategoryLateRate(ship.rows, Categories(ship.rows)[j]) < k.worstCategoryLateRate
  {
    var base := BeforeSales(ship.rows);
    SalesTotalsOf(base, sales);
    SalesTotalsOf(Defaults, sales);
    var r := SalesTotals(base, sales);
    assert KpisOf(ship, sales) == WorstCategory(r.value, ship.rows);
    WorstCategoryOf(r.value, ship.rows);
  }

  /** When every late row's delay is positive, so is every delay averaged. */
  lemma {:induction false} LateDelaysPositive(rows: seq<Shipment>)
    requires forall i :: 0 <= i < |rows| && IsLate(rows[i]) && rows[i].delayDays.Some? ==> rows[i].delayDays.value > 0
    ensures forall j :: 0 <= j < |LateDelays(rows)| ==> LateDelays(rows)[j] >= 1
  {
    if |rows| > 0 {
      var init := rows[..|rows| - 1];
      assert forall i :: 0 <= i < |init| ==> init[i] == rows[i];
      LateDelaysPositive(init);
    }
  }

  /** The first late row with a delay puts that delay into `LateDelays`. */
  lemma {:induction false} LateDelaysNonEmpty(rows: seq<Shipment>, i: nat)
    requires i < |rows| && IsLate(rows[i]) && rows[i].delayDays.Some?
    ensures |LateDelays(rows)| > 0
  {
    if i < |rows| - 1 {
      LateDelaysNonEmpty(rows[..|rows| - 1], i);
    }
  }

  lemma {:induction false} IntSumAtLeast(xs: seq<int>)
    requires forall j :: 0 <= j < |xs| ==> xs[j] >= 1
    ensures IntSum(xs) >= |xs|
  {
    if |xs| > 0 {
      IntSumAtLeast(xs[..|xs| - 1]);
    }
  }

  /**
   * When every late row that has a delay is really late (delay > 0), as the
   * date repair guarantees, the average delay is never below 0, and it is at
   * least one day as soon as some late row has a delay.
   */
  lemma KpisAverageDelay(ship: ShippingFrame, sales: SalesFrame)
    requires !ship.Absent()
    requires forall i :: 0 <= i < |ship.rows| && IsLate(ship.rows[i]) && ship.rows[i].delayDays.Some? ==> ship.rows[i].delayDays.value > 0
    ensures KpisOf(ship, sales).avgDelayDays >= 0.0
    ensures (exists i :: 0 <= i < |ship.rows| && IsLate(ship.rows[i]) && ship.rows[i].delayDays.Some?) ==>
              KpisOf(ship, sales).avgDelayDays >= 1.0
  {
    var base := BeforeSales(ship.rows);
    var r := SalesTotals(base, sales);
    assert KpisOf(ship, sales).avgDelayDays == base.avgDelayDays;
    AverageDelayOf(ship.rows);
  }

  /**
   * `avg_delay_days` is 0 without late rows or without a delay among them,
   * and otherwise within 0.05 of the mean delay of the late rows that have one.
   */
  lemma KpisDelayMean(ship: ShippingFrame, sales: SalesFrame)
    requires !ship.Absent()
    ensures var ds := LateDelays(ship.rows);
            CountStatus(ship.rows, Late) == 0 || |ds| == 0 ==> KpisOf(ship, sales).avgDelayDays == 0.0
    ensures var ds := LateDelays(ship.rows);
            CountStatus(ship.rows, Late) > 0 && |ds| > 0 ==>
              var mean := IntSum(ds) as real / |ds| as real;
              mean - 0.05 < KpisOf(ship, sales).avgDelayDays <= mean + 0.05
  {
    var rows := ship.rows;
    var base := BeforeSales(rows);
    var r := SalesTotals(base, sales);
    assert KpisOf(ship, sales).avgDelayDays == base.avgDelayDays;
    TallyCounts(rows);
    var ds := LateDelays(rows);
    if |ds| > 0 {
      Round1Close(IntSum(ds) as real / |ds| as real);
    }
  }

  lemma AverageDelayOf(rows: seq<Shipment>)
    requires forall i :: 0 <= i < |rows| && IsLate(rows[i]) && rows[i].delayDays.Some? ==> rows[i].delayDays.value > 0
    ensures BeforeSales(rows).avgDelayDays >= 0.0
    ensures (exists i :: 0 <= i < |rows| && IsLate(rows[i]) && rows[i].delayDays.Some?) ==> BeforeSales(rows).avgDelayDays >= 1.0
  {
    var ds := LateDelays(rows);
    LateDelaysPositive(rows);
    if |ds| > 0 {
      IntSumAtLeast(ds);
      var mean := IntSum(ds) as real / |ds| as real;
      QuotientAtLeastOne(IntSum(ds) as real, |ds| as real);
      Round1Monotone(1.0, mean);
      assert Round1(1.0) == 1.0;
    }
    if exists i :: 0 <= i < |rows| && IsLate(rows[i]) && rows[i].delayDays.Some? {
      var i :| 0 <= i < |rows| && IsLate(rows[i]) && rows[i].delayDays.Some?;
      LateDelaysNonEmpty(rows, i);
      TallyCounts(rows);
      CountStatusPositive(rows, i, Late);
    }
  }

  /** A quotient of a positive divisor is at least 1 when the dividend is at least the divisor. */
  lemma QuotientAtLeastOne(a: real, b: real)
    requires b > 0.0 && a >= b
    ensures a / b >= 1.0
  {
    assert a / b * b == a;
  }

  lemma {:induction false} CountStatusPositive(rows: seq<Shipment>, i: nat, s: Status)
    requires i < |rows| && rows[i].status == Some(s)
    ensures CountStatus(rows, s) > 0
  {
    if i > 0 {
      CountStatusPositive(rows[1..], i - 1, s);
    }
  }
}
