/**
  The dashboard: the summary cards (today, this week, this month, top
  products, low-stock products, product count) and the sales chart, which
  buckets every recorded sale by hour ("today"), by weekday name ("week") or
  by "d/m" ("month").

  The three window starts, a sale's hour, its weekday name and its "d/m"
  label come from calendar code outside the model and are parameters.
 */
module Dashboard {

  import opened Seqs
  import opened Sorting
  import opened Model
  import opened Grouping
  import opened FakeDb
  import StoreProps

  // ---------------------------------------------------------------- summary cards

  datatype DashboardSummary = DashboardSummary(
    today: SalesSummary,
    week: SalesSummary,
    month: SalesSummary,
    topProducts: seq<ProductSummary>,
    lowStockProducts: seq<Product>,
    productCount: int)

  /** `loadDashboardData`: the three period summaries, the top five products, the
      low-stock products and the product count, all read from one store state. */
  function LoadSummary(db: Store, dayStart: int, weekStart: int, monthStart: int): (d: DashboardSummary)
    ensures d.productCount == |db.products|
    ensures |d.topProducts| <= 5
    ensures d.today.totalRevenue == TotalRevenue(InWindow(db.sales, dayStart))
  {
    StoreProps.TopProductsOrder(db, 5);
    DashboardSummary(
      GetSummary(db, dayStart),
      GetSummary(db, weekStart),
      GetSummary(db, monthStart),
      GetTopProducts(db, 5),
      LowStock(db),
      CountProducts(db))
  }

  /** With the windows nested (month before week before today's midnight) the cards count
      no more sales today than this week, and no more this week than this month. */
  lemma CardsNested(db: Store, dayStart: int, weekStart: int, monthStart: int)
    requires monthStart <= weekStart <= dayStart
    ensures var d := LoadSummary(db, dayStart, weekStart, monthStart);
            d.today.totalSales <= d.week.totalSales <= d.month.totalSales
  {
    StoreProps.SummaryWindowMonotone(db, weekStart, dayStart);
    StoreProps.SummaryWindowMonotone(db, monthStart, weekStart);
  }

  /** The low-stock card lists exactly the products with 0 < quantity <= alert level, and
      the top-products card shows the best sellers of all time, highest revenue first. */
  lemma CardsContents(db: Store, dayStart: int, weekStart: int, monthStart: int)
    ensures var d := LoadSummary(db, dayStart, weekStart, monthStart);
            && (forall i :: 0 <= i < |d.lowStockProducts| ==>
                  d.lowStockProducts[i] in db.products && IsLowStock(d.lowStockProducts[i]))
            && (forall i :: 0 <= i < |db.products| && IsLowStock(db.products[i]) ==>
                  db.products[i] in d.lowStockProducts)
            && (forall i, j :: 0 <= i < j < |d.topProducts| ==>
                  d.topProducts[i].totalRevenue >= d.topProducts[j].totalRevenue)
            && |d.topProducts| == if |ByProduct(db.sales)| < 5 then |ByProduct(db.sales)| else 5
  {
    StoreProps.TopProductsOrder(db, 5);
  }

  // ---------------------------------------------------------------- chart

  datatype ChartMode = Today | Week | Month

  /** A chart key: "H:00" (carried as the hour) or a weekday name or "d/m" label. */
  datatype DashKey = HourKey(hour: int) | LabelKey(text: string)

  datatype DashPoint = DashPoint(key: DashKey, revenue: int, units: int)

  /** The calendar facts the chart reads off a sale's date. */
  datatype Calendar = Calendar(hourOf: Sale -> int, weekdayOf: Sale -> string, dayMonthOf: Sale -> string)

  /** The key of a sale in each mode. */
  function KeyOf(mode: ChartMode, cal: Calendar): Sale -> DashKey
  {
    match mode
    case Today => (s: Sale) => HourKey(cal.hourOf(s))
    case Week => (s: Sale) => LabelKey(cal.weekdayOf(s))
    case Month => (s: Sale) => LabelKey(cal.dayMonthOf(s))
  }

  function ToDashPoint(g: Group<DashKey>): DashPoint
  {
    DashPoint(g.key, g.revenue, g.units)
  }

  function DashRevenue(p: DashPoint): int { p.revenue }

  /** The sort key: the hour in "today" mode (`parseInt("13:00")` is 13); in the other
      modes the comparator answers 0, a constant key. */
  function ModeRank(mode: ChartMode): DashPoint -> int
  {
    if mode == Today then (p: DashPoint) => (if p.key.HourKey? then p.key.hour else 0)
    else (p: DashPoint) => 0
  }

  function DashBuckets(sales: seq<Sale>, mode: ChartMode, cal: Calendar): seq<DashPoint>
  {
    MapSeq(GroupBy(sales, KeyOf(mode, cal)), ToDashPoint)
  }

  /** `chartData`: nothing without sales, otherwise the buckets in first-seen order, sorted
      by hour in "today" mode. */
  function ChartData(sales: seq<Sale>, mode: ChartMode, cal: Calendar): (r: seq<DashPoint>)
    ensures |r| == |Keys(sales, KeyOf(mode, cal))|
    ensures |sales| > 0 ==> multiset(r) == multiset(DashBuckets(sales, mode, cal))
    ensures SortedBy(r, ModeRank(mode))
  {
    GroupByKeys(sales, KeyOf(mode, cal));
    if |sales| == 0 then []
    else SortBy(DashBuckets(sales, mode, cal), ModeRank(mode))
  }

  /** The chart is empty exactly when there are no sales. */
  lemma ChartEmptyIffNoSales(sales: seq<Sale>, mode: ChartMode, cal: Calendar)
    ensures ChartData(sales, mode, cal) == [] <==> |sales| == 0
  {
    GroupByKeys(sales, KeyOf(mode, cal));
    KeysSpec(sales, KeyOf(mode, cal));
  }

  /** The buckets add up to the revenue of all the sales. */
  lemma ChartRevenue(sales: seq<Sale>, mode: ChartMode, cal: Calendar)
    ensures SumBy(ChartData(sales, mode, cal), DashRevenue) == TotalRevenue(sales)
  {
    if |sales| > 0 {
      var gs := GroupBy(sales, KeyOf(mode, cal));
      GroupByTotals(sales, KeyOf(mode, cal));
      MapSum(gs, ToDashPoint, DashRevenue, GroupRevenue);
      SortBySum(DashBuckets(sales, mode, cal), ModeRank(mode), DashRevenue);
    }
  }

  /** One bucket per distinct key, each with the sums over the sales carrying it. */
  lemma BucketsCorrect(sales: seq<Sale>, mode: ChartMode, cal: Calendar)
    ensures var b := DashBuckets(sales, mode, cal);
            && |b| == |Keys(sales, KeyOf(mode, cal))|
            && (forall i, j :: 0 <= i < j < |b| ==> b[i].key != b[j].key)
            && (forall i :: 0 <= i < |b| ==>
                  var m := Matching(sales, KeyOf(mode, cal), b[i].key);
                  |m| > 0 && b[i].revenue == SumBy(m, Revenue) && b[i].units == SumBy(m, Units))
  {
    var gs := GroupBy(sales, KeyOf(mode, cal));
    GroupByKeys(sales, KeyOf(mode, cal));
    KeysSpec(sales, KeyOf(mode, cal));
    GroupByEntries(sales, KeyOf(mode, cal));
    forall i | 0 <= i < |gs| ensures EntryCorrect(sales, KeyOf(mode, cal), gs[i]) {
    }
  }

  /** "Today": the hourly buckets come out by increasing hour. */
  lemma TodayByHour(sales: seq<Sale>, cal: Calendar)
    ensures var c := ChartData(sales, Today, cal);
            && (forall i :: 0 <= i < |c| ==> c[i].key.HourKey?)
            && (forall i, j :: 0 <= i < j < |c| ==> c[i].key.hour <= c[j].key.hour)
  {
    if |sales| > 0 {
      var b := DashBuckets(sales, Today, cal);
      var keyOf := KeyOf(Today, cal);
      GroupByKeys(sales, keyOf);
      KeysSpec(sales, keyOf);
      forall i | 0 <= i < |b| ensures b[i].key.HourKey? {
        var m := Matching(sales, keyOf, b[i].key);
        MatchingSpec(sales, keyOf, b[i].key);
        assert keyOf(m[0]) == b[i].key;
      }
      SortByElements(b, ModeRank(Today));
    }
  }

  /** "Week" and "month": the comparator always answers 0, so the buckets stay in the
      order their keys were first met (the store lists sales newest first). */
  lemma OtherModesKeepFirstSeen(sales: seq<Sale>, mode: ChartMode, cal: Calendar)
    requires mode != Today
    ensures |sales| > 0 ==> ChartData(sales, mode, cal) == DashBuckets(sales, mode, cal)
  {
    SortByConstantKey(DashBuckets(sales, mode, cal), ModeRank(mode), 0);
  }

  /** The dashboard's chart is drawn from every sale, as `sales.findAll` lists them. */
  function StoreChart(db: Store, mode: ChartMode, cal: Calendar): (r: seq<DashPoint>)
    ensures r == [] <==> |db.sales| == 0
  {
    assert |FindAllSales(db)| == |db.sales| by {
      assert |multiset(FindAllSales(db))| == |multiset(db.sales)|;
    }
    ChartEmptyIffNoSales(FindAllSales(db), mode, cal);
    ChartData(FindAllSales(db), mode, cal)
  }

  /** Whatever the mode, the chart's buckets add up to the revenue of every recorded sale:
      the chart is not limited to the period its mode names. */
  lemma StoreChartRevenue(db: Store, mode: ChartMode, cal: Calendar)
    ensures SumBy(StoreChart(db, mode, cal), DashRevenue) == TotalRevenue(db.sales)
  {
    ChartRevenue(FindAllSales(db), mode, cal);
    SortBySum(db.sales, NewestFirst, Revenue);
  }
}
