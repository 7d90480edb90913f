/** `SalesService`: every report is read through the cache under a key naming the report
    and all of its parameters; `get_monthly_summary` also works out its calendar windows
    from today's date. `date.today()` is the parameter `today`, the clock of the cache the
    parameter `now`. */
module SalesService {
  import opened Wrappers
  import opened Text
  import opened Calendar
  import opened Cache
  import opened Schema
  import opened SalesRepository
  import SalesQueries
  import Sequences
  import opened Models

  // ---------------------------------------------------------------------------
  // Cache keys

  function OverviewKey(start: Date, end: Date): string {
    KeyFor(SalesOverviewTag, [DateParam(start), DateParam(end)])
  }

  /** Only today's ISO date names the monthly summary. */
  function MonthlySummaryKey(today: Date): string {
    KeyFor(MonthlySummaryTag, [DateParam(today)])
  }

  function TopProductsKey(start: Date, end: Date, limit: int, channelId: Option<int>, storeId: Option<int>,
                          dayOfWeek: Option<int>, startHour: Option<int>, endHour: Option<int>): string {
    KeyFor(TopProductsTag, [DateParam(start), DateParam(end), IntText(limit), OptionalParam(channelId),
                            OptionalParam(storeId), OptionalParam(dayOfWeek), OptionalParam(startHour),
                            OptionalParam(endHour)])
  }

  function BreakdownKey(start: Date, end: Date, dimension: string): string {
    KeyFor(SalesBreakdownTag, [DateParam(start), DateParam(end), dimension])
  }

  function DeliveryKey(start: Date, end: Date, dimension: string, dayOfWeek: Option<int>,
                       startHour: Option<int>, endHour: Option<int>): string {
    KeyFor(DeliveryPerformanceTag, [DateParam(start), DateParam(end), dimension, OptionalParam(dayOfWeek),
                                    OptionalParam(startHour), OptionalParam(endHour)])
  }

  function TrendKey(start: Date, end: Date): string {
    KeyFor(TicketTrendTag, [DateParam(start), DateParam(end)])
  }

  function CompositionKey(start: Date, end: Date): string {
    KeyFor(TicketCompositionTag, [DateParam(start), DateParam(end)])
  }

  /** Two date windows give the same key text only when they are the same window. */
  lemma WindowKeyInjective(t: Tag, s1: Date, e1: Date, s2: Date, e2: Date)
    requires KeyFor(t, [DateParam(s1), DateParam(e1)]) == KeyFor(t, [DateParam(s2), DateParam(e2)])
    ensures s1 == s2 && e1 == e2
  {
    DateParamFree(s1); DateParamFree(e1); DateParamFree(s2); DateParamFree(e2);
    KeyForInjective2(t, DateParam(s1), DateParam(e1), DateParam(s2), DateParam(e2));
    DateParamInjective(s1, s2);
    DateParamInjective(e1, e2);
  }

  lemma OverviewKeyInjective(s1: Date, e1: Date, s2: Date, e2: Date)
    requires OverviewKey(s1, e1) == OverviewKey(s2, e2)
    ensures s1 == s2 && e1 == e2
  {
    WindowKeyInjective(SalesOverviewTag, s1, e1, s2, e2);
  }

  lemma MonthlySummaryKeyInjective(a: Date, b: Date)
    requires MonthlySummaryKey(a) == MonthlySummaryKey(b)
    ensures a == b
  {
    DateParamFree(a);
    DateParamFree(b);
    KeyForInjective(MonthlySummaryTag, [DateParam(a)], [DateParam(b)]);
    DateParamInjective(a, b);
  }

  lemma TopProductsKeyInjective(s1: Date, e1: Date, l1: int, c1: Option<int>, st1: Option<int>, w1: Option<int>,
                                h1: Option<int>, k1: Option<int>,
                                s2: Date, e2: Date, l2: int, c2: Option<int>, st2: Option<int>, w2: Option<int>,
                                h2: Option<int>, k2: Option<int>)
    requires TopProductsKey(s1, e1, l1, c1, st1, w1, h1, k1) == TopProductsKey(s2, e2, l2, c2, st2, w2, h2, k2)
    ensures s1 == s2 && e1 == e2 && l1 == l2 && c1 == c2 && st1 == st2 && w1 == w2 && h1 == h2 && k1 == k2
  {
    DateParamFree(s1); DateParamFree(e1); IntTextFree(l1, ':');
    OptionalParamFree(c1); OptionalParamFree(st1); OptionalParamFree(w1); OptionalParamFree(h1); OptionalParamFree(k1);
    DateParamFree(s2); DateParamFree(e2); IntTextFree(l2, ':');
    OptionalParamFree(c2); OptionalParamFree(st2); OptionalParamFree(w2); OptionalParamFree(h2); OptionalParamFree(k2);
    KeyForInjective8(TopProductsTag, DateParam(s1), DateParam(e1), IntText(l1), OptionalParam(c1),
                     OptionalParam(st1), OptionalParam(w1), OptionalParam(h1), OptionalParam(k1),
                     DateParam(s2), DateParam(e2), IntText(l2), OptionalParam(c2),
                     OptionalParam(st2), OptionalParam(w2), OptionalParam(h2), OptionalParam(k2));
    DateParamInjective(s1, s2);
    DateParamInjective(e1, e2);
    IntTextInjective(l1, l2);
    OptionalParamInjective(c1, c2);
    OptionalParamInjective(st1, st2);
    OptionalParamInjective(w1, w2);
    OptionalParamInjective(h1, h2);
    OptionalParamInjective(k1, k2);
  }

  /** The dimension is the last part of the key, so it is recovered even when it holds ':'. */
  lemma BreakdownKeyInjective(s1: Date, e1: Date, d1: string, s2: Date, e2: Date, d2: string)
    requires BreakdownKey(s1, e1, d1) == BreakdownKey(s2, e2, d2)
    ensures s1 == s2 && e1 == e2 && d1 == d2
  {
    DateParamFree(s1); DateParamFree(e1); DateParamFree(s2); DateParamFree(e2);
    KeyForInjective3(SalesBreakdownTag, DateParam(s1), DateParam(e1), d1, DateParam(s2), DateParam(e2), d2);
    DateParamInjective(s1, s2);
    DateParamInjective(e1, e2);
  }

  /** The dimension lies between three ':'-free parts and three more, so it is recovered
      even when it holds ':'. */
  lemma DeliveryKeyInjective(s1: Date, e1: Date, d1: string, w1: Option<int>, h1: Option<int>, k1: Option<int>,
                             s2: Date, e2: Date, d2: string, w2: Option<int>, h2: Option<int>, k2: Option<int>)
    requires DeliveryKey(s1, e1, d1, w1, h1, k1) == DeliveryKey(s2, e2, d2, w2, h2, k2)
    ensures s1 == s2 && e1 == e2 && d1 == d2 && w1 == w2 && h1 == h2 && k1 == k2
  {
    DateParamFree(s1); DateParamFree(e1); OptionalParamFree(w1); OptionalParamFree(h1); OptionalParamFree(k1);
    DateParamFree(s2); DateParamFree(e2); OptionalParamFree(w2); OptionalParamFree(h2); OptionalParamFree(k2);
    KeyForInjective6(DeliveryPerformanceTag, DateParam(s1), DateParam(e1), d1, OptionalParam(w1), OptionalParam(h1),
                     OptionalParam(k1), DateParam(s2), DateParam(e2), d2, OptionalParam(w2), OptionalParam(h2),
                     OptionalParam(k2));
    DateParamInjective(s1, s2);
    DateParamInjective(e1, e2);
    OptionalParamInjective(w1, w2);
    OptionalParamInjective(h1, h2);
    OptionalParamInjective(k1, k2);
  }

  lemma TrendKeyInjective(s1: Date, e1: Date, s2: Date, e2: Date)
    requires TrendKey(s1, e1) == TrendKey(s2, e2)
    ensures s1 == s2 && e1 == e2
  {
    WindowKeyInjective(TicketTrendTag, s1, e1, s2, e2);
  }

  lemma CompositionKeyInjective(s1: Date, e1: Date, s2: Date, e2: Date)
    requires CompositionKey(s1, e1) == CompositionKey(s2, e2)
    ensures s1 == s2 && e1 == e2
  {
    WindowKeyInjective(TicketCompositionTag, s1, e1, s2, e2);
  }

  // ---------------------------------------------------------------------------
  // Monthly summary windows

  /** `today.replace(day=1)`. */
  function CurrentMonthStart(today: Date): (r: Date)
    ensures r.day == 1 && MonthIndex(r) == MonthIndex(today) && OnOrBefore(r, today)
  {
    FirstOfMonth(today)
  }

  /** `start_of_current_month - relativedelta(months=1)`. */
  function PreviousMonthStart(today: Date): (r: Date)
    ensures r.day == 1 && MonthIndex(r) == MonthIndex(today) - 1
  {
    AddMonths(CurrentMonthStart(today), -1)
  }

  /** `min(a, b)` of two dates. */
  function EarlierOf(a: Date, b: Date): (r: Date)
    ensures OnOrBefore(r, a) && OnOrBefore(r, b) && (r == a || r == b)
  {
    BeforeIsStrictTotalOrder(a, b, a);
    if OnOrBefore(a, b) then a else b
  }

  /** The end of the previous-month window as written: `today.replace(month=.., year=..)`
      is evaluated first and raises (`None`) when today's day of the month does not exist
      in the previous month, so the `min` with that month's last day never clamps. */
  function PreviousMonthSameDayAsWritten(today: Date): Option<Date> {
    var prev := PreviousMonthStart(today);
    match Replace(today, prev.year, prev.month, today.day)
    case None => None
    case Some(sameDay) => Some(EarlierOf(sameDay, AddDays(AddMonths(prev, 1), -1)))
  }

  /** The end of the previous-month window as the `min` means it: today's day of the
      month, clamped to the length of the previous month. */
  function PreviousMonthSameDay(today: Date): (r: Date)
    ensures MonthIndex(r) == MonthIndex(today) - 1
    ensures r.day == if today.day <= DaysInMonth(r.year, r.month) then today.day else DaysInMonth(r.year, r.month)
    ensures OnOrBefore(PreviousMonthStart(today), r)
  {
    var prev := PreviousMonthStart(today);
    var last := DaysInMonth(prev.year, prev.month);
    YearMonthDay(prev.year, prev.month, if today.day <= last then today.day else last)
  }

  /** As written the window end exists exactly when today's day exists in the previous
      month, and then it is the corrected one. */
  lemma PreviousMonthSameDayAgrees(today: Date)
    ensures var prev := PreviousMonthStart(today);
      PreviousMonthSameDayAsWritten(today).None? <==> today.day > DaysInMonth(prev.year, prev.month)
    ensures PreviousMonthSameDayAsWritten(today).Some? ==>
      PreviousMonthSameDayAsWritten(today).value == PreviousMonthSameDay(today)
  {
    var prev := PreviousMonthStart(today);
    var last := AddDays(AddMonths(prev, 1), -1);
    AddOneDayBack(AddMonths(prev, 1));
    PrevDayOfFirst(AddMonths(prev, 1));
    MonthIndexInjective(last, prev);
    if Replace(today, prev.year, prev.month, today.day).Some? {
      var sameDay := YearMonthDay(prev.year, prev.month, today.day);
      assert OnOrBefore(sameDay, last);
      BeforeIsStrictTotalOrder(sameDay, last, sameDay);
    }
  }

  /** On 31 March 2024 the previous-month window end raises: February 2024 has 29 days. */
  lemma PreviousMonthSameDayRaisesOnMarch31()
    ensures PreviousMonthSameDayAsWritten(YearMonthDay(2024, 3, 31)).None?
    ensures PreviousMonthSameDay(YearMonthDay(2024, 3, 31)) == YearMonthDay(2024, 2, 29)
  {
    var today: Date := YearMonthDay(2024, 3, 31);
    var prev := PreviousMonthStart(today);
    MonthIndexInjective(prev, YearMonthDay(2024, 2, 1));
    PreviousMonthSameDayAgrees(today);
  }

  /** `start_of_current_month - relativedelta(months=i, days=1)`, the window end of the
      loop as written. */
  function TrailingEndAsWritten(today: Date, i: int): Date {
    AddRelativeDelta(CurrentMonthStart(today), -i, -1)
  }

  /** `start_of_current_month - relativedelta(months=i - 1, days=1)`: the last day of
      the `i`-th full month before the current one. */
  function TrailingEnd(today: Date, i: int): Date {
    AddRelativeDelta(CurrentMonthStart(today), -(i - 1), -1)
  }

  /** `month_end.replace(day=1)`, which always exists. */
  function TrailingStart(today: Date, i: int): Date {
    FirstOfMonth(TrailingEnd(today, i))
  }

  /** Each corrected window is the whole of the `i`-th month before today's. */
  lemma TrailingWindowIsMonth(today: Date, i: int)
    ensures var s := TrailingStart(today, i); var e := TrailingEnd(today, i);
      && MonthIndex(s) == MonthIndex(today) - i && s.day == 1
      && e == LastOfMonth(s)
  {
    var m := AddMonths(CurrentMonthStart(today), -(i - 1));
    AddOneDayBack(m);
    PrevDayOfFirst(m);
  }

  /** The loop as written skips the month just ended: its `i`-th window is the whole of
      the `(i + 1)`-th month before today's, the corrected window `i + 1`. */
  lemma TrailingWindowAsWrittenSkipsMonth(today: Date, i: int)
    ensures TrailingEndAsWritten(today, i) == TrailingEnd(today, i + 1)
    ensures MonthIndex(TrailingEndAsWritten(today, i)) == MonthIndex(today) - i - 1
  {
    TrailingWindowIsMonth(today, i + 1);
  }

  /** On 15 May 2024 the first window as written is March, not April. */
  lemma TrailingWindowSkipsAprilOnMay15()
    ensures TrailingEndAsWritten(YearMonthDay(2024, 5, 15), 1) == YearMonthDay(2024, 3, 31)
    ensures TrailingEnd(YearMonthDay(2024, 5, 15), 1) == YearMonthDay(2024, 4, 30)
  {
    var today: Date := YearMonthDay(2024, 5, 15);
    TrailingWindowAsWrittenSkipsMonth(today, 1);
    TrailingWindowIsMonth(today, 1);
    TrailingWindowIsMonth(today, 2);
    MonthIndexInjective(TrailingEnd(today, 1), YearMonthDay(2024, 4, 1));
    MonthIndexInjective(TrailingEnd(today, 2), YearMonthDay(2024, 3, 1));
  }

  /** Consecutive windows meet: the day after window `i + 1` ends, window `i` starts. */
  lemma TrailingWindowsAdjacent(today: Date, i: int)
    ensures NextDay(TrailingEnd(today, i + 1)) == TrailingStart(today, i)
  {
    TrailingWindowIsMonth(today, i);
    TrailingWindowIsMonth(today, i + 1);
    var e := TrailingEnd(today, i + 1);
    var n := NextDay(e);
    var s := TrailingStart(today, i);
    assert n.day == 1 && MonthIndex(n) == MonthIndex(e) + 1;
    MonthIndexInjective(n, s);
  }

  /** Revenue of the first `n` trailing windows. */
  function TrailingRevenue(db: Database, today: Date, n: nat): real {
    if n == 0 then 0.0
    else TrailingRevenue(db, today, n - 1) + SalesOverview(db, TrailingStart(today, n), TrailingEnd(today, n)).totalRevenue
  }

  /** The three windows together are exactly the three full months before the current
      one: their revenues add up to the revenue of that whole span. */
  lemma {:induction false} TrailingRevenueIsSpan(db: Database, today: Date, n: nat)
    requires n >= 1
    ensures TrailingRevenue(db, today, n) == SalesOverview(db, TrailingStart(today, n), TrailingEnd(today, 1)).totalRevenue
  {
    TrailingWindowIsMonth(today, n);
    if n > 1 {
      TrailingRevenueIsSpan(db, today, n - 1);
      TrailingWindowIsMonth(today, n - 1);
      TrailingWindowIsMonth(today, 1);
      TrailingWindowsAdjacent(today, n - 1);
      var a := TrailingStart(today, n);
      var mid := TrailingEnd(today, n);
      var b := TrailingEnd(today, 1);
      assert OnOrBefore(a, mid);
      assert Before(mid, TrailingStart(today, n - 1));
      assert OnOrBefore(TrailingStart(today, n - 1), b) by {
        TrailingSpanOrdered(today, n - 1);
      }
      BeforeIsStrictTotalOrder(mid, TrailingStart(today, n - 1), b);
      OverviewSplit(db, a, mid, b);
    }
  }

  lemma {:induction false} TrailingSpanOrdered(today: Date, n: nat)
    requires n >= 1
    ensures OnOrBefore(TrailingStart(today, n), TrailingEnd(today, 1))
  {
    TrailingWindowIsMonth(today, n);
    TrailingWindowIsMonth(today, 1);
    var s := TrailingStart(today, n);
    var e := TrailingEnd(today, 1);
    if n > 1 {
      assert MonthIndex(s) < MonthIndex(e);
      assert Before(s, e);
    }
  }

  /** `(total / 3) if total > 0 else 0.0`. */
  function RollingAverage(total: real): (avg: real)
    ensures total > 0.0 ==> avg * 3.0 == total && avg > 0.0
    ensures total <= 0.0 ==> avg == 0.0
  {
    if total > 0.0 then total / 3.0 else 0.0
  }

  /** What `get_monthly_summary` computes on a cache miss, with the corrected windows. */
  function MonthlySummaryOf(db: Database, today: Date): MonthlySummary {
    MonthlySummary(
      SalesOverview(db, CurrentMonthStart(today), today).totalRevenue,
      SalesOverview(db, PreviousMonthStart(today), PreviousMonthSameDay(today)).totalRevenue,
      RollingAverage(TrailingRevenue(db, today, 3)))
  }

  /** The rolling average is a third of the revenue of the three full months before
      today's, or 0 when that revenue is not positive. */
  lemma MonthlySummaryAverage(db: Database, today: Date)
    ensures var total := SalesOverview(db, TrailingStart(today, 3), TrailingEnd(today, 1)).totalRevenue;
      var avg := MonthlySummaryOf(db, today).last3MonthsAvgRevenue;
      (total > 0.0 ==> avg * 3.0 == total) && (total <= 0.0 ==> avg == 0.0)
  {
    TrailingRevenueIsSpan(db, today, 3);
  }

  // ---------------------------------------------------------------------------
  // The monthly summary as written

  /** What `date.replace` raises for a day its month does not have. */
  const DayOutOfRange := ValueError("day is out of range for month")

  /** Revenue of the first `n` windows of the loop as written. */
  function TrailingRevenueAsWritten(db: Database, today: Date, n: nat): real {
    if n == 0 then 0.0
    else
      var monthEnd := TrailingEndAsWritten(today, n);
      TrailingRevenueAsWritten(db, today, n - 1) + SalesOverview(db, FirstOfMonth(monthEnd), monthEnd).totalRevenue
  }

  /** What `get_monthly_summary` computes on a cache miss, as written: the error of
      `date.replace` when today's day is missing from the previous month, and otherwise
      the summary over the loop's windows. */
  function MonthlySummaryAsWritten(db: Database, today: Date): Result<MonthlySummary, Error> {
    match PreviousMonthSameDayAsWritten(today)
    case None => Failure(DayOutOfRange)
    case Some(previousEnd) =>
      Success(MonthlySummary(
        SalesOverview(db, CurrentMonthStart(today), today).totalRevenue,
        SalesOverview(db, PreviousMonthStart(today), previousEnd).totalRevenue,
        RollingAverage(TrailingRevenueAsWritten(db, today, 3))))
  }

  /** The loop as written sums the corrected windows 2 to `n + 1`: all of the first
      `n + 1` but the month just ended. */
  lemma {:induction false} TrailingRevenueAsWrittenSkipsMonth(db: Database, today: Date, n: nat)
    ensures TrailingRevenueAsWritten(db, today, n) + TrailingRevenue(db, today, 1) == TrailingRevenue(db, today, n + 1)
  {
    if n > 0 {
      TrailingRevenueAsWrittenSkipsMonth(db, today, n - 1);
      TrailingWindowAsWrittenSkipsMonth(today, n);
    }
  }

  /** As written, the summary fails exactly when today's day is missing from the previous
      month; otherwise its first two figures are the corrected ones and its average is a
      third of the revenue of the second to fourth months before today's. */
  lemma MonthlySummaryAsWrittenAgrees(db: Database, today: Date)
    ensures var prev := PreviousMonthStart(today);
      MonthlySummaryAsWritten(db, today).Failure? <==> today.day > DaysInMonth(prev.year, prev.month)
    ensures MonthlySummaryAsWritten(db, today).Failure? ==> MonthlySummaryAsWritten(db, today).error == DayOutOfRange
    ensures var r := MonthlySummaryAsWritten(db, today); var c := MonthlySummaryOf(db, today);
      r.Success? ==>
        && r.value.currentMonthRevenue == c.currentMonthRevenue
        && r.value.previousMonthRevenueSameDay == c.previousMonthRevenueSameDay
        && r.value.last3MonthsAvgRevenue == RollingAverage(TrailingRevenue(db, today, 4) - TrailingRevenue(db, today, 1))
  {
    PreviousMonthSameDayAgrees(today);
    TrailingRevenueAsWrittenSkipsMonth(db, today, 3);
  }

  /** On 31 March 2024 the summary as written raises, whatever the sales. */
  lemma MonthlySummaryAsWrittenRaisesOnMarch31(db: Database)
    ensures MonthlySummaryAsWritten(db, YearMonthDay(2024, 3, 31)) == Failure(DayOutOfRange)
  {
    PreviousMonthSameDayRaisesOnMarch31();
  }

  /** A database of one completed sale of `amount` on `day`. */
  function OneSaleDb(day: Date, amount: real): Database {
    Database([Sale(1, DateTime(day, 0.0), Completed, amount, 1, 1, None, None, None, [])],
             map[], map[], map[], map[], map[])
  }

  /** An overview of a database of one sale counts that sale exactly when it falls in the
      window. */
  lemma OneSaleRevenue(day: Date, amount: real, start: Date, end: Date)
    ensures SalesOverview(OneSaleDb(day, amount), start, end).totalRevenue
         == if OnOrBefore(start, day) && OnOrBefore(day, end) then amount else 0.0
  {
    var db := OneSaleDb(day, amount);
    var cs := SalesQueries.WindowClauses(start, end);
    var x := db.sales[0];
    SalesQueries.WindowClausesMeaning(start, end, x);
    assert db.sales[1..] == [];
    assert Selected(db.sales[1..], cs) == [];
    assert WindowSales(db, start, end) == if SalesQueries.AllHold(cs, x) then [x] else [];
    assert Sequences.Sum([x], SaleAmount) == amount;
  }

  /** A day lies in the corrected window `i` exactly when it falls in the `i`-th month
      before today's. */
  lemma WithinTrailingWindow(today: Date, i: int, d: Date)
    ensures OnOrBefore(TrailingStart(today, i), d) && OnOrBefore(d, TrailingEnd(today, i))
        <==> MonthIndex(d) == MonthIndex(today) - i
  {
    TrailingWindowIsMonth(today, i);
    var s := TrailingStart(today, i);
    if MonthIndex(d) == MonthIndex(today) - i {
      MonthIndexInjective(d, s);
    }
  }

  /** On 15 May 2024 the summary as written and the corrected one disagree: a single sale
      of 30 on 10 April 2024 gives a rolling average of 10 once April is counted, and of 0
      as written, which averages January to March. */
  lemma MonthlySummaryAsWrittenDiffersOnMay15()
    ensures var today: Date := YearMonthDay(2024, 5, 15);
      var db := OneSaleDb(YearMonthDay(2024, 4, 10), 30.0);
      && MonthlySummaryAsWritten(db, today).Success?
      && MonthlySummaryAsWritten(db, today).value.last3MonthsAvgRevenue == 0.0
      && MonthlySummaryOf(db, today).last3MonthsAvgRevenue == 10.0
  {
    var today: Date := YearMonthDay(2024, 5, 15);
    var day: Date := YearMonthDay(2024, 4, 10);
    var db := OneSaleDb(day, 30.0);
    MonthlySummaryAsWrittenAgrees(db, today);
    forall i | 1 <= i <= 4
      ensures SalesOverview(db, TrailingStart(today, i), TrailingEnd(today, i)).totalRevenue
           == if i == 1 then 30.0 else 0.0
    {
      OneSaleRevenue(day, 30.0, TrailingStart(today, i), TrailingEnd(today, i));
      WithinTrailingWindow(today, i, day);
    }
    assert TrailingRevenue(db, today, 1) == 30.0;
    assert TrailingRevenue(db, today, 3) == 30.0;
    assert TrailingRevenue(db, today, 4) == 30.0;
  }

  // ---------------------------------------------------------------------------
  // Responses on a miss

  function OverviewResponseOf(db: Database, start: Date, end: Date): SalesOverviewResponse {
    var o := SalesOverview(db, start, end);
    SalesOverviewResponse(o.totalRevenue, o.totalSalesCount, o.averageTicketValue, start, end)
  }

  function BreakdownResponseOf(db: Database, start: Date, end: Date, dimension: string)
    : Result<SalesByDimensionResponse, Error>
  {
    match SalesBreakdown(db, start, end, dimension)
    case Failure(e) => Failure(e)
    case Success(rows) => Success(SalesByDimensionResponse(start, end, dimension, rows))
  }

  function DeliveryResponseOf(db: Database, start: Date, end: Date, dimension: string, dayOfWeek: Option<int>,
                              startHour: Option<int>, endHour: Option<int>): Result<DeliveryPerformanceResponse, Error>
  {
    match DeliveryPerformance(db, start, end, dimension, dayOfWeek, startHour, endHour)
    case Failure(e) => Failure(e)
    case Success(rows) =>
      match DeliveryItems(rows)
      case Failure(e) => Failure(e)
      case Success(items) => Success(DeliveryPerformanceResponse(start, end, dimension, items))
  }

  function TrendResponseOf(db: Database, start: Date, end: Date): TicketTrendResponse {
    TicketTrendResponse(start, end, TicketTrend(db, start, end))
  }

  function CompositionResponseOf(db: Database, start: Date, end: Date): TicketCompositionResponse {
    TicketCompositionResponse(start, end, SalesComposition(db, start, end))
  }

  // ---------------------------------------------------------------------------
  // The service

  /** One `SalesService(db)`, built per request over a database session, reading through
      the process-wide cache. `repositoryCalls` counts the queries it sends. */
  class SalesService {
    const db: Database
    const cache: TtlCache<Payload>
    ghost var repositoryCalls: nat

    constructor(db: Database, cache: TtlCache<Payload>)
      ensures this.db == db && this.cache == cache && repositoryCalls == 0
    {
      this.db := db;
      this.cache := cache;
      repositoryCalls := 0;
    }

    method GetSalesOverview(start: Date, end: Date, now: int) returns (r: Result<SalesOverviewResponse, Error>)
      modifies this, cache
      ensures var key := OverviewKey(start, end);
        if Hit(old(cache.entries), key, now) then
          && r == DecodeOverview(Lookup(old(cache.entries), key, now).value)
          && cache.entries == old(cache.entries) && repositoryCalls == old(repositoryCalls)
        else
          && r == Success(OverviewResponseOf(db, start, end))
          && cache.entries == Store(old(cache.entries), key, OverviewPayload(r.value), now)
          && repositoryCalls == old(repositoryCalls) + 1
      ensures WellKeyed(old(cache.entries)) ==> WellKeyed(cache.entries) && r.Success?
    {
      ghost var params := [DateParam(start), DateParam(end)];
      var key := OverviewKey(start, end);
      var cached := CachedValue(cache, key, SalesOverviewTag, params, now);
      if cached.Some? {
        r := DecodeOverview(cached.value);
        return;
      }
      var response := OverviewResponseOf(db, start, end);
      repositoryCalls := repositoryCalls + 1;
      StoreValue(cache, key, SalesOverviewTag, params, OverviewPayload(response), now);
      r := Success(response);
    }

    /** Returns the cached dictionary as it is on a hit; computes and stores the summary
        of the corrected windows on a miss, with five overview queries. */
    method GetMonthlySummary(today: Date, now: int) returns (r: Payload)
      modifies this, cache
      ensures var key := MonthlySummaryKey(today);
        if Hit(old(cache.entries), key, now) then
          && r == Lookup(old(cache.entries), key, now).value
          && cache.entries == old(cache.entries) && repositoryCalls == old(repositoryCalls)
        else
          && r == MonthlyPayload(MonthlySummaryOf(db, today))
          && cache.entries == Store(old(cache.entries), key, r, now)
          && repositoryCalls == old(repositoryCalls) + 5
      ensures WellKeyed(old(cache.entries)) ==> WellKeyed(cache.entries) && r.MonthlyPayload?
    {
      ghost var params := [DateParam(today)];
      var key := MonthlySummaryKey(today);
      var cached := CachedValue(cache, key, MonthlySummaryTag, params, now);
      if cached.Some? {
        r := cached.value;
        return;
      }
      var startOfCurrentMonth := CurrentMonthStart(today);
      var currentMonthRevenue := SalesOverview(db, startOfCurrentMonth, today).totalRevenue;
      repositoryCalls := repositoryCalls + 1;

      var startOfPreviousMonth := AddMonths(startOfCurrentMonth, -1);
      var endOfPreviousMonthSameDay := PreviousMonthSameDay(today);
      var previousMonthRevenueSameDay := SalesOverview(db, startOfPreviousMonth, endOfPreviousMonthSameDay).totalRevenue;
      repositoryCalls := repositoryCalls + 1;

      var total := TrailingTotal(today);

      var response := MonthlySummary(currentMonthRevenue, previousMonthRevenueSameDay, RollingAverage(total));
      r := MonthlyPayload(response);
      StoreValue(cache, key, MonthlySummaryTag, params, r, now);
    }

    /** The loop over the three full months before today's, one overview query each. */
    method TrailingTotal(today: Date) returns (total: real)
      modifies this
      ensures total == TrailingRevenue(db, today, 3)
      ensures repositoryCalls == old(repositoryCalls) + 3
    {
      var startOfCurrentMonth := CurrentMonthStart(today);
      total := 0.0;
      var i := 1;
      while i < 4
        invariant 1 <= i <= 4
        invariant total == TrailingRevenue(db, today, i - 1)
        invariant repositoryCalls == old(repositoryCalls) + (i - 1)
      {
        var monthEnd := AddRelativeDelta(startOfCurrentMonth, -(i - 1), -1);
        var monthStart := FirstOfMonth(monthEnd);
        total := total + SalesOverview(db, monthStart, monthEnd).totalRevenue;
        repositoryCalls := repositoryCalls + 1;
        i := i + 1;
      }
    }

    method GetTopProducts(start: Date, end: Date, limit: int, channelId: Option<int>, storeId: Option<int>,
                          dayOfWeek: Option<int>, startHour: Option<int>, endHour: Option<int>, now: int)
      returns (r: Result<TopProductsResponse, Error>)
      requires 1 <= limit <= 100
      modifies this, cache
      ensures var key := TopProductsKey(start, end, limit, channelId, storeId, dayOfWeek, startHour, endHour);
        if Hit(old(cache.entries), key, now) then
          && r == DecodeTopProducts(Lookup(old(cache.entries), key, now).value)
          && cache.entries == old(cache.entries) && repositoryCalls == old(repositoryCalls)
        else
          && r == Success(TopProductsResponse(start, end,
                            TopProducts(db, start, end, limit, channelId, storeId, dayOfWeek, startHour, endHour)))
          && cache.entries == Store(old(cache.entries), key, TopProductsPayload(r.value), now)
          && repositoryCalls == old(repositoryCalls) + 1
      ensures WellKeyed(old(cache.entries)) ==> WellKeyed(cache.entries) && r.Success?
    {
      ghost var params := [DateParam(start), DateParam(end), IntText(limit), OptionalParam(channelId),
                     OptionalParam(storeId), OptionalParam(dayOfWeek), OptionalParam(startHour), OptionalParam(endHour)];
      var key := TopProductsKey(start, end, limit, channelId, storeId, dayOfWeek, startHour, endHour);
      var cached := CachedValue(cache, key, TopProductsTag, params, now);
      if cached.Some? {
        r := DecodeTopProducts(cached.value);
        return;
      }
      var rows := TopProducts(db, start, end, limit, channelId, storeId, dayOfWeek, startHour, endHour);
      repositoryCalls := repositoryCalls + 1;
      var response := TopProductsResponse(start, end, rows);
      StoreValue(cache, key, TopProductsTag, params, TopProductsPayload(response), now);
      r := Success(response);
    }

    /** A ValueError for an unknown dimension reaches the caller and nothing is stored. */
    method GetSalesBreakdown(start: Date, end: Date, dimension: string, now: int)
      returns (r: Result<SalesByDimensionResponse, Error>)
      modifies this, cache
      ensures var key := BreakdownKey(start, end, dimension);
        if Hit(old(cache.entries), key, now) then
          && r == DecodeBreakdown(Lookup(old(cache.entries), key, now).value)
          && cache.entries == old(cache.entries) && repositoryCalls == old(repositoryCalls)
        else
          && r == BreakdownResponseOf(db, start, end, dimension)
          && (r.Success? ==> cache.entries == Store(old(cache.entries), key, BreakdownPayload(r.value), now))
          && (r.Failure? ==> cache.entries == old(cache.entries))
          && repositoryCalls == old(repositoryCalls) + 1
      ensures WellKeyed(old(cache.entries)) ==> WellKeyed(cache.entries)
      ensures WellKeyed(old(cache.entries)) && Hit(old(cache.entries), BreakdownKey(start, end, dimension), now)
        ==> r.Success?
    {
      ghost var params := [DateParam(start), DateParam(end), dimension];
      var key := BreakdownKey(start, end, dimension);
      var cached := CachedValue(cache, key, SalesBreakdownTag, params, now);
      if cached.Some? {
        r := DecodeBreakdown(cached.value);
        return;
      }
      r := BreakdownResponseOf(db, start, end, dimension);
      repositoryCalls := repositoryCalls + 1;
      if r.Failure? {
        return;
      }
      StoreValue(cache, key, SalesBreakdownTag, params, BreakdownPayload(r.value), now);
    }

    /** Fails with the repository's ValueError, or with a ValidationError when a group has
        no name; nothing is stored then. */
    method GetDeliveryPerformance(start: Date, end: Date, dimension: string, dayOfWeek: Option<int>,
                                  startHour: Option<int>, endHour: Option<int>, now: int)
      returns (r: Result<DeliveryPerformanceResponse, Error>)
      modifies this, cache
      ensures var key := DeliveryKey(start, end, dimension, dayOfWeek, startHour, endHour);
        if Hit(old(cache.entries), key, now) then
          && r == DecodeDelivery(Lookup(old(cache.entries), key, now).value)
          && cache.entries == old(cache.entries) && repositoryCalls == old(repositoryCalls)
        else
          && r == DeliveryResponseOf(db, start, end, dimension, dayOfWeek, startHour, endHour)
          && (r.Success? ==> cache.entries == Store(old(cache.entries), key, DeliveryPayload(r.value), now))
          && (r.Failure? ==> cache.entries == old(cache.entries))
          && repositoryCalls == old(repositoryCalls) + 1
      ensures WellKeyed(old(cache.entries)) ==> WellKeyed(cache.entries)
      ensures WellKeyed(old(cache.entries))
        && Hit(old(cache.entries), DeliveryKey(start, end, dimension, dayOfWeek, startHour, endHour), now)
        ==> r.Success?
    {
      ghost var params := [DateParam(start), DateParam(end), dimension, OptionalParam(dayOfWeek),
                     OptionalParam(startHour), OptionalParam(endHour)];
      var key := DeliveryKey(start, end, dimension, dayOfWeek, startHour, endHour);
      var cached := CachedValue(cache, key, DeliveryPerformanceTag, params, now);
      if cached.Some? {
        r := DecodeDelivery(cached.value);
        return;
      }
      r := DeliveryResponseOf(db, start, end, dimension, dayOfWeek, startHour, endHour);
      repositoryCalls := repositoryCalls + 1;
      if r.Failure? {
        return;
      }
      StoreValue(cache, key, DeliveryPerformanceTag, params, DeliveryPayload(r.value), now);
    }

    method GetTicketTrend(start: Date, end: Date, now: int) returns (r: Result<TicketTrendResponse, Error>)
      modifies this, cache
      ensures var key := TrendKey(start, end);
        if Hit(old(cache.entries), key, now) then
          && r == DecodeTrend(Lookup(old(cache.entries), key, now).value)
          && cache.entries == old(cache.entries) && repositoryCalls == old(repositoryCalls)
        else
          && r == Success(TrendResponseOf(db, start, end))
          && cache.entries == Store(old(cache.entries), key, TrendPayload(r.value), now)
          && repositoryCalls == old(repositoryCalls) + 1
      ensures WellKeyed(old(cache.entries)) ==> WellKeyed(cache.entries) && r.Success?
    {
      ghost var params := [DateParam(start), DateParam(end)];
      var key := TrendKey(start, end);
      var cached := CachedValue(cache, key, TicketTrendTag, params, now);
      if cached.Some? {
        r := DecodeTrend(cached.value);
        return;
      }
      var response := TrendResponseOf(db, start, end);
      repositoryCalls := repositoryCalls + 1;
      StoreValue(cache, key, TicketTrendTag, params, TrendPayload(response), now);
      r := Success(response);
    }

    method GetTicketComposition(start: Date, end: Date, now: int) returns (r: Result<TicketCompositionResponse, Error>)
      modifies this, cache
      ensures var key := CompositionKey(start, end);
        if Hit(old(cache.entries), key, now) then
          && r == DecodeComposition(Lookup(old(cache.entries), key, now).value)
          && cache.entries == old(cache.entries) && repositoryCalls == old(repositoryCalls)
        else
          && r == Success(CompositionResponseOf(db, start, end))
          && cache.entries == Store(old(cache.entries), key, CompositionPayload(r.value), now)
          && repositoryCalls == old(repositoryCalls) + 1
      ensures WellKeyed(old(cache.entries)) ==> WellKeyed(cache.entries) && r.Success?
    {
      ghost var params := [DateParam(start), DateParam(end)];
      var key := CompositionKey(start, end);
      var cached := CachedValue(cache, key, TicketCompositionTag, params, now);
      if cached.Some? {
        r := DecodeComposition(cached.value);
        return;
      }
      var response := CompositionResponseOf(db, start, end);
      repositoryCalls := repositoryCalls + 1;
      StoreValue(cache, key, TicketCompositionTag, params, CompositionPayload(response), now);
      r := Success(response);
    }
  }

  /** After a miss, asking again within the time to live sends no further query and
      answers the same. */
  method OverviewTwice(service: SalesService, start: Date, end: Date, now: int, later: int)
    returns (first: Result<SalesOverviewResponse, Error>, second: Result<SalesOverviewResponse, Error>)
    requires !Hit(service.cache.entries, OverviewKey(start, end), now)
    requires now <= later < now + CacheTtl
    modifies service, service.cache
    ensures first == second && first.Success?
    ensures service.repositoryCalls == old(service.repositoryCalls) + 1
  {
    first := service.GetSalesOverview(start, end, now);
    StoredIsHit(old(service.cache.entries), OverviewKey(start, end), OverviewPayload(first.value), now, later);
    second := service.GetSalesOverview(start, end, later);
  }
}
