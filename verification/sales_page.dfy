/**
  The sales report page: a date range chosen by a period button or a date
  picker, the sales of that range with their revenue, count and average,
  and a bar chart with one bar per calendar day ("MM/dd"), ordered by month
  and then day.

  Calendar arithmetic is outside the model: `daysBefore(n)` is the instant
  `n` calendar days before the clock reading taken when a period is chosen,
  `startOfDay`/`endOfDay` are `setHours(0, 0, 0, 0)` and
  `setHours(23, 59, 59, 999)`, and `dayOf` gives a sale's (month, day) as
  the chart formats it.
 */
module SalesPage {

  import opened Seqs
  import opened Sorting
  import opened Model
  import opened Grouping
  import opened FakeDb

  // ---------------------------------------------------------------- date range

  datatype Period = Day | Week | Month | Quarter | Custom

  /** `PERIODS[p].days` */
  function PeriodDays(p: Period): nat
  {
    match p
    case Day => 0
    case Week => 7
    case Month => 30
    case Quarter => 90
    case Custom => 0
  }

  /** The page's chosen period and date range. */
  datatype RangeState = RangeState(period: Period, from: int, to: int)

  /** The page on opening: "this week", from seven days ago up to now. */
  function InitialRange(now: int, daysBefore: nat -> int): (r: RangeState)
    ensures r.period == Week && r.to == now
  {
    RangeState(Week, daysBefore(7), now)
  }

  /** `handlePeriodChange`: record the period; a preset period also sets the range to
      `days` days back up to now, while "custom" keeps the range. */
  function HandlePeriodChange(st: RangeState, value: Period, today: int, daysBefore: nat -> int)
    : (r: RangeState)
    ensures r.period == value
    ensures value == Custom ==> r.from == st.from && r.to == st.to
    ensures value != Custom ==> r.to == today && r.from == daysBefore(PeriodDays(value))
  {
    if value == Custom then st.(period := value)
    else RangeState(value, daysBefore(PeriodDays(value)), today)
  }

  /** The page opens as if "week" had been chosen: the initial range is the week preset's. */
  lemma InitialIsWeekPreset(st: RangeState, now: int, daysBefore: nat -> int)
    ensures InitialRange(now, daysBefore) == HandlePeriodChange(st, Week, now, daysBefore)
  {
  }

  /** The same handler with the range starting at midnight of its first day, as the
      "Today" label and the dashboard's windows intend. */
  function HandlePeriodChangeFromMidnight(st: RangeState, value: Period, today: int,
                                          daysBefore: nat -> int, startOfDay: int -> int)
    : (r: RangeState)
    ensures r.period == value
    ensures value == Custom ==> r == st.(period := value)
    ensures value != Custom ==> r.to == today && r.from == startOfDay(daysBefore(PeriodDays(value)))
  {
    if value == Custom then st.(period := value)
    else RangeState(value, startOfDay(daysBefore(PeriodDays(value))), today)
  }

  /** The rows the page loads for a range: `sales.getByDateRange(from, to)`. */
  function Loaded(db: Store, st: RangeState): seq<Sale>
  {
    SalesByDateRange(db, st.from, st.to)
  }

  /** Moving the start of a range earlier keeps every sale it showed. */
  lemma EarlierStartShowsMore(db: Store, late: int, early: int, to: int)
    requires early <= late
    ensures forall i :: 0 <= i < |SalesByDateRange(db, late, to)| ==>
              SalesByDateRange(db, late, to)[i] in SalesByDateRange(db, early, to)
    ensures |SalesByDateRange(db, late, to)| <= |SalesByDateRange(db, early, to)|
  {
    var r1, r2 := SalesByDateRange(db, late, to), SalesByDateRange(db, early, to);
    forall i | 0 <= i < |r1| ensures r1[i] in r2 {
      var j :| 0 <= j < |db.sales| && db.sales[j] == r1[i];
    }
    FilterMonotone(db.sales, (s: Sale) => late <= s.date <= to, (s: Sale) => early <= s.date <= to);
  }

  /** Going back more days never shows fewer sales: with `daysBefore` moving back in time
      as `n` grows, a longer preset period's sales include a shorter one's. */
  lemma LongerPeriodShowsMore(db: Store, st: RangeState, a: Period, b: Period, today: int,
                              daysBefore: nat -> int)
    requires a != Custom && b != Custom
    requires PeriodDays(a) <= PeriodDays(b)
    requires daysBefore(PeriodDays(b)) <= daysBefore(PeriodDays(a))
    ensures forall i :: 0 <= i < |Loaded(db, HandlePeriodChange(st, a, today, daysBefore))| ==>
              Loaded(db, HandlePeriodChange(st, a, today, daysBefore))[i] in
              Loaded(db, HandlePeriodChange(st, b, today, daysBefore))
    ensures |Loaded(db, HandlePeriodChange(st, a, today, daysBefore))| <=
            |Loaded(db, HandlePeriodChange(st, b, today, daysBefore))|
  {
    EarlierStartShowsMore(db, daysBefore(PeriodDays(a)), daysBefore(PeriodDays(b)), today);
  }

  /** As written, "Today" sets both ends to the clock (the start read no earlier than the
      end), so it shows at most the sales stamped at that very instant: every sale made
      earlier in the day is left out. */
  lemma TodayPeriodShowsOnlyNow(db: Store, st: RangeState, today: int, daysBefore: nat -> int)
    requires daysBefore(0) >= today
    ensures var r := Loaded(db, HandlePeriodChange(st, Day, today, daysBefore));
            forall i :: 0 <= i < |r| ==> r[i].date == today
    ensures forall i :: 0 <= i < |db.sales| && db.sales[i].date < today ==>
              db.sales[i] !in Loaded(db, HandlePeriodChange(st, Day, today, daysBefore))
  {
  }

  /** From midnight, "Today" shows every sale made since the day began. */
  lemma TodayFromMidnightShowsToday(db: Store, st: RangeState, today: int, daysBefore: nat -> int,
                                    startOfDay: int -> int)
    requires daysBefore(0) == today
    ensures var r := Loaded(db, HandlePeriodChangeFromMidnight(st, Day, today, daysBefore, startOfDay));
            && (forall i :: 0 <= i < |db.sales| && startOfDay(today) <= db.sales[i].date <= today ==>
                  db.sales[i] in r)
            && (forall i :: 0 <= i < |r| ==> startOfDay(today) <= r[i].date <= today)
  {
  }

  /** `handleDateSelect`: both ends widen to whole days and switch to "custom"; a single
      end replaces just that end and keeps the period. */
  function HandleDateSelect(st: RangeState, from: Option<int>, to: Option<int>,
                            startOfDay: int -> int, endOfDay: int -> int): (r: RangeState)
    ensures from.Some? && to.Some? ==> r == RangeState(Custom, startOfDay(from.value), endOfDay(to.value))
    ensures from.Some? && to.None? ==> r == st.(from := from.value)
    ensures from.None? && to.Some? ==> r == st.(to := to.value)
    ensures from.None? && to.None? ==> r == st
  {
    if from.Some? && to.Some? then RangeState(Custom, startOfDay(from.value), endOfDay(to.value))
    else if from.Some? then st.(from := from.value)
    else if to.Some? then st.(to := to.value)
    else st
  }

  /** A picked range shows every sale between the picked instants, whole days included,
      and stays put when "custom" is chosen again. */
  lemma PickedRangeCoversDays(db: Store, st: RangeState, f: int, t: int,
                              startOfDay: int -> int, endOfDay: int -> int, today: int,
                              daysBefore: nat -> int)
    requires startOfDay(f) <= f && t <= endOfDay(t)
    ensures var picked := HandleDateSelect(st, Some(f), Some(t), startOfDay, endOfDay);
            && picked.period == Custom
            && (forall i :: 0 <= i < |db.sales| && f <= db.sales[i].date <= t ==>
                  db.sales[i] in Loaded(db, picked))
            && HandlePeriodChange(picked, Custom, today, daysBefore) == picked
  {
  }

  // ---------------------------------------------------------------- totals

  datatype Totals = Totals(revenue: int, count: int)

  /** `totalRevenue` and `salesCount` of the loaded sales. */
  function SalesTotals(sales: seq<Sale>): (t: Totals)
    ensures t.count == |sales| && t.count >= 0
  {
    Totals(TotalRevenue(sales), |sales|)
  }

  /** "Average Sale Value": revenue over count, 0 without sales. */
  function AverageSale(t: Totals): (r: real)
    ensures t.count > 0 ==> r * t.count as real == t.revenue as real
    ensures t.count <= 0 ==> r == 0.0
  {
    if t.count > 0 then t.revenue as real / t.count as real else 0.0
  }

  /** The page's totals are those of the sales in the range, whatever order they load in. */
  lemma LoadedTotals(db: Store, st: RangeState)
    ensures SalesTotals(Loaded(db, st)) ==
            Totals(TotalRevenue(InRange(db.sales, st.from, st.to)), |InRange(db.sales, st.from, st.to)|)
  {
    SortBySum(InRange(db.sales, st.from, st.to), NewestFirst, Revenue);
  }

  /** With every sale's total non-negative the average is non-negative and at most the revenue. */
  lemma AverageBounded(sales: seq<Sale>)
    requires forall i :: 0 <= i < |sales| ==> sales[i].totalPrice >= 0
    ensures 0.0 <= AverageSale(SalesTotals(sales)) <= TotalRevenue(sales) as real
  {
    NonNegativeRevenue(sales);
    var t := SalesTotals(sales);
    if t.count > 0 {
      var r := AverageSale(t);
      assert r * t.count as real == t.revenue as real;
    }
  }

  lemma {:induction false} NonNegativeRevenue(sales: seq<Sale>)
    requires forall i :: 0 <= i < |sales| ==> sales[i].totalPrice >= 0
    ensures TotalRevenue(sales) >= 0
    decreases |sales|
  {
    if |sales| > 0 {
      NonNegativeRevenue(sales[1..]);
    }
  }

  // ---------------------------------------------------------------- chart

  /** A chart key: the month and day of "MM/dd" read back with `split('/').map(Number)`. */
  datatype DayKey = DayKey(month: int, day: int)

  datatype ChartPoint = ChartPoint(date: DayKey, revenue: int, units: int)

  function ToPoint(g: Group<DayKey>): ChartPoint
  {
    ChartPoint(g.key, g.revenue, g.units)
  }

  function PointRevenue(p: ChartPoint): int { p.revenue }
  function PointUnits(p: ChartPoint): int { p.units }

  /** `chartDataMap`: one bar per day key, in first-seen order. */
  function Buckets(sales: seq<Sale>, dayOf: Sale -> DayKey): seq<ChartPoint>
  {
    MapSeq(GroupBy(sales, dayOf), ToPoint)
  }

  /** The chart's comparator: month difference, then day difference. */
  function CompareDays(a: DayKey, b: DayKey): int
  {
    if a.month != b.month then a.month - b.month else a.day - b.day
  }

  /** A day of the month as "dd" can show it. */
  predicate ValidDay(k: DayKey)
  {
    1 <= k.day <= 31
  }

  /** The sort key equivalent to `CompareDays` on valid days. */
  function DayRank(p: ChartPoint): int
  {
    p.date.month * 32 + p.date.day
  }

  /** On valid days the comparator and the rank order agree in sign, so sorting by the
      rank is the page's sort. */
  lemma RankAgreesWithComparator(a: ChartPoint, b: ChartPoint)
    requires ValidDay(a.date) && ValidDay(b.date)
    ensures CompareDays(a.date, b.date) < 0 <==> DayRank(a) < DayRank(b)
    ensures CompareDays(a.date, b.date) == 0 <==> DayRank(a) == DayRank(b)
  {
    if a.date.month < b.date.month {
      assert a.date.month * 32 + 32 <= b.date.month * 32;
    } else if a.date.month > b.date.month {
      assert b.date.month * 32 + 32 <= a.date.month * 32;
    }
  }

  /** `chartDataArray`: the bars sorted by month and day (the year is not consulted). */
  function ChartData(sales: seq<Sale>, dayOf: Sale -> DayKey): (r: seq<ChartPoint>)
    ensures |r| == |Keys(sales, dayOf)|
    ensures multiset(r) == multiset(Buckets(sales, dayOf))
    ensures SortedBy(r, DayRank)
  {
    GroupByKeys(sales, dayOf);
    SortBy(Buckets(sales, dayOf), DayRank)
  }

  /** One bar per distinct day key, each with the sums over that day's sales. */
  lemma BucketsCorrect(sales: seq<Sale>, dayOf: Sale -> DayKey)
    ensures var b := Buckets(sales, dayOf);
            && |b| == |Keys(sales, dayOf)|
            && (forall i :: 0 <= i < |b| ==> b[i].date == Keys(sales, dayOf)[i])
            && (forall i, j :: 0 <= i < j < |b| ==> b[i].date != b[j].date)
            && (forall i :: 0 <= i < |b| ==>
                  var m := Matching(sales, dayOf, b[i].date);
                  |m| > 0 && b[i].revenue == SumBy(m, Revenue) && b[i].units == SumBy(m, Units))
  {
    var gs := GroupBy(sales, dayOf);
    GroupByKeys(sales, dayOf);
    KeysSpec(sales, dayOf);
    GroupByEntries(sales, dayOf);
    forall i | 0 <= i < |gs| ensures EntryCorrect(sales, dayOf, gs[i]) {
    }
  }

  /** The bars add up to the page's totals. */
  lemma ChartTotals(sales: seq<Sale>, dayOf: Sale -> DayKey)
    ensures SumBy(ChartData(sales, dayOf), PointRevenue) == TotalRevenue(sales)
    ensures SumBy(ChartData(sales, dayOf), PointUnits) == SumBy(sales, Units)
  {
    var gs := GroupBy(sales, dayOf);
    GroupByTotals(sales, dayOf);
    MapSum(gs, ToPoint, PointRevenue, GroupRevenue);
    MapSum(gs, ToPoint, PointUnits, GroupUnits);
    SortBySum(Buckets(sales, dayOf), DayRank, PointRevenue);
    SortBySum(Buckets(sales, dayOf), DayRank, PointUnits);
  }

  /** Every bar's day is some sale's day. */
  lemma BucketDaysFromSales(sales: seq<Sale>, dayOf: Sale -> DayKey)
    ensures var b := Buckets(sales, dayOf);
            forall i :: 0 <= i < |b| ==> exists j :: 0 <= j < |sales| && dayOf(sales[j]) == b[i].date
  {
    var b := Buckets(sales, dayOf);
    BucketsCorrect(sales, dayOf);
    forall i | 0 <= i < |b| ensures exists j :: 0 <= j < |sales| && dayOf(sales[j]) == b[i].date {
      var m := Matching(sales, dayOf, b[i].date);
      MatchingSpec(sales, dayOf, b[i].date);
      assert m[0] in sales;
      var j :| 0 <= j < |sales| && sales[j] == m[0];
    }
  }

  /** With every sale on a valid day, the bars come out in comparator order. */
  lemma ChartOrdered(sales: seq<Sale>, dayOf: Sale -> DayKey)
    requires forall j :: 0 <= j < |sales| ==> ValidDay(dayOf(sales[j]))
    ensures var c := ChartData(sales, dayOf);
            forall i, j :: 0 <= i < j < |c| ==> CompareDays(c[i].date, c[j].date) <= 0
  {
    var b := Buckets(sales, dayOf);
    var c := ChartData(sales, dayOf);
    BucketDaysFromSales(sales, dayOf);
    SortByElements(b, DayRank);
    forall i | 0 <= i < |c| ensures ValidDay(c[i].date) {
      var k :| 0 <= k < |b| && b[k] == c[i];
      var j :| 0 <= j < |sales| && dayOf(sales[j]) == b[k].date;
    }
    forall i, j | 0 <= i < j < |c| ensures CompareDays(c[i].date, c[j].date) <= 0 {
      RankAgreesWithComparator(c[i], c[j]);
    }
  }
}
