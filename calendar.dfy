/** Python's `date` and `datetime` as the reports use them: the proleptic Gregorian
    calendar, `date.replace`, `timedelta(days=..)`, dateutil's `relativedelta`, the
    ISO weekday and the ISO text form. */
module Calendar {
  import opened Text
  import opened Wrappers

  predicate IsLeapYear(y: int) {
    y % 4 == 0 && (y % 100 != 0 || y % 400 == 0)
  }

  function DaysInMonth(y: int, m: int): (n: int)
    requires 1 <= m <= 12
    ensures 28 <= n <= 31
    ensures n == 29 <==> m == 2 && IsLeapYear(y)
    ensures n == 28 <==> m == 2 && !IsLeapYear(y)
  {
    if m == 2 then (if IsLeapYear(y) then 29 else 28)
    else if m == 4 || m == 6 || m == 9 || m == 11 then 30
    else 31
  }

  datatype YearMonthDay = YearMonthDay(year: int, month: int, day: int)

  predicate IsCalendarDay(d: YearMonthDay) {
    1 <= d.month <= 12 && 1 <= d.day <= DaysInMonth(d.year, d.month)
  }

  /** A day of the proleptic Gregorian calendar (Python's `date`). */
  type Date = d: YearMonthDay | IsCalendarDay(d) witness YearMonthDay(2000, 1, 1)

  /** Chronological order: year, then month, then day. */
  predicate Before(a: Date, b: Date) {
    a.year < b.year || (a.year == b.year && (a.month < b.month || (a.month == b.month && a.day < b.day)))
  }

  predicate OnOrBefore(a: Date, b: Date) {
    a == b || Before(a, b)
  }

  lemma BeforeIsStrictTotalOrder(a: Date, b: Date, c: Date)
    ensures !Before(a, a)
    ensures Before(a, b) || a == b || Before(b, a)
    ensures Before(a, b) && Before(b, c) ==> Before(a, c)
    ensures Before(a, b) ==> !Before(b, a)
  {
  }

  function FirstOfMonth(d: Date): (r: Date)
    ensures r.year == d.year && r.month == d.month && r.day == 1
  {
    YearMonthDay(d.year, d.month, 1)
  }

  function LastOfMonth(d: Date): (r: Date)
    ensures r.year == d.year && r.month == d.month && r.day == DaysInMonth(d.year, d.month)
  {
    YearMonthDay(d.year, d.month, DaysInMonth(d.year, d.month))
  }

  /** `d + timedelta(days=1)`. */
  function NextDay(d: Date): (r: Date)
    ensures Before(d, r)
  {
    if d.day < DaysInMonth(d.year, d.month) then YearMonthDay(d.year, d.month, d.day + 1)
    else if d.month < 12 then YearMonthDay(d.year, d.month + 1, 1)
    else YearMonthDay(d.year + 1, 1, 1)
  }

  /** `d - timedelta(days=1)`. */
  function PrevDay(d: Date): (r: Date)
    ensures Before(r, d)
  {
    if d.day > 1 then YearMonthDay(d.year, d.month, d.day - 1)
    else if d.month > 1 then YearMonthDay(d.year, d.month - 1, DaysInMonth(d.year, d.month - 1))
    else YearMonthDay(d.year - 1, 12, 31)
  }

  /** No day lies strictly between a day and the next one: a day is before `d + 1`
      exactly when it is on or before `d`. */
  lemma NextDayIsSuccessor(d: Date, x: Date)
    ensures Before(x, NextDay(d)) <==> OnOrBefore(x, d)
  {
    var n := NextDay(d);
    if d.day == DaysInMonth(d.year, d.month) && d.month < 12 {
      assert n == YearMonthDay(d.year, d.month + 1, 1);
      if x.year == d.year && x.month == d.month + 1 {
        assert !Before(x, n);
      }
    }
  }

  lemma PrevDayIsPredecessor(d: Date, x: Date)
    ensures Before(PrevDay(d), x) <==> OnOrBefore(d, x)
  {
  }

  lemma PrevNextRoundTrip(d: Date)
    ensures PrevDay(NextDay(d)) == d
    ensures NextDay(PrevDay(d)) == d
  {
  }

  /** `d + timedelta(days=n)`. */
  function AddDays(d: Date, n: int): Date
    decreases if n < 0 then -n else n
  {
    if n == 0 then d
    else if n > 0 then AddDays(NextDay(d), n - 1)
    else AddDays(PrevDay(d), n + 1)
  }

  lemma {:induction false} AddDaysOrder(d: Date, n: int)
    ensures n > 0 ==> Before(d, AddDays(d, n))
    ensures n < 0 ==> Before(AddDays(d, n), d)
    ensures n == 0 ==> AddDays(d, n) == d
    decreases if n < 0 then -n else n
  {
    if n > 1 {
      AddDaysOrder(NextDay(d), n - 1);
      BeforeIsStrictTotalOrder(d, NextDay(d), AddDays(NextDay(d), n - 1));
    } else if n < -1 {
      AddDaysOrder(PrevDay(d), n + 1);
      BeforeIsStrictTotalOrder(AddDays(PrevDay(d), n + 1), PrevDay(d), d);
    }
  }

  /** Months counted from January of year 0. */
  function MonthIndex(d: Date): int {
    d.year * 12 + (d.month - 1)
  }

  /** A month index names exactly one year and month. */
  lemma MonthIndexInjective(a: Date, b: Date)
    requires MonthIndex(a) == MonthIndex(b)
    ensures a.year == b.year && a.month == b.month
  {
    assert (a.year - b.year) * 12 == b.month - a.month;
  }

  /** The day before the first of a month is the last day of the month before. */
  lemma PrevDayOfFirst(d: Date)
    requires d.day == 1
    ensures MonthIndex(PrevDay(d)) == MonthIndex(d) - 1
    ensures PrevDay(d).day == DaysInMonth(PrevDay(d).year, PrevDay(d).month)
  {
  }

  lemma AddOneDayBack(d: Date)
    ensures AddDays(d, -1) == PrevDay(d)
  {
    assert AddDays(d, -1) == AddDays(PrevDay(d), 0);
  }

  /** `d + relativedelta(months=n)`: move `n` months, keeping the day of the month but
      clamping it to the length of the month landed on. */
  function AddMonths(d: Date, n: int): (r: Date)
    ensures MonthIndex(r) == MonthIndex(d) + n
    ensures r.day == if d.day <= DaysInMonth(r.year, r.month) then d.day else DaysInMonth(r.year, r.month)
  {
    var total := MonthIndex(d) + n;
    var y := total / 12;
    var m := total % 12 + 1;
    var last := DaysInMonth(y, m);
    YearMonthDay(y, m, if d.day <= last then d.day else last)
  }

  /** `d + relativedelta(months=months, days=days)`: dateutil shifts the months (with
      the day clamped) first, then adds the days. Subtracting `relativedelta(months=m,
      days=k)` is adding `relativedelta(months=-m, days=-k)`. */
  function AddRelativeDelta(d: Date, months: int, days: int): Date {
    AddDays(AddMonths(d, months), days)
  }

  /** `d.replace(year=.., month=.., day=..)`: `None` where Python raises ValueError
      because that day does not exist. */
  function Replace(d: Date, year: int, month: int, day: int): (r: Option<Date>)
    ensures r.Some? <==> IsCalendarDay(YearMonthDay(year, month, day))
    ensures r.Some? ==> r.value == YearMonthDay(year, month, day)
  {
    var ymd := YearMonthDay(year, month, day);
    if IsCalendarDay(ymd) then Some(ymd) else None
  }

  // ---------------------------------------------------------------------------
  // Weekdays

  /** Days from 0001-01-01 to the first of January of `y`. */
  function DaysBeforeYear(y: int): int {
    var p := y - 1;
    p * 365 + p / 4 - p / 100 + p / 400
  }

  function DaysBeforeMonth(y: int, m: int): int
    requires 1 <= m <= 12
  {
    if m == 1 then 0 else DaysBeforeMonth(y, m - 1) + DaysInMonth(y, m - 1)
  }

  /** Python's `date.toordinal()`: 0001-01-01 is day 1. */
  function Ordinal(d: Date): int {
    DaysBeforeYear(d.year) + DaysBeforeMonth(d.year, d.month) + d.day
  }

  /** Python's `date.isoweekday()` and PostgreSQL's `EXTRACT(ISODOW ..)`: 1 is Monday,
      7 is Sunday. */
  function IsoWeekday(d: Date): (w: int)
    ensures 1 <= w <= 7
  {
    (Ordinal(d) + 6) % 7 + 1
  }

  lemma DaysInYear(y: int)
    ensures DaysBeforeYear(y + 1) == DaysBeforeYear(y) + (if IsLeapYear(y) then 366 else 365)
  {
    QuotientStep(y, 4);
    QuotientStep(y, 100);
    QuotientStep(y, 400);
    MultiplesNest(y);
    var d4 := if y % 4 == 0 then 1 else 0;
    var d100 := if y % 100 == 0 then 1 else 0;
    var d400 := if y % 400 == 0 then 1 else 0;
    assert d4 - d100 + d400 == if IsLeapYear(y) then 1 else 0;
    assert DaysBeforeYear(y + 1) - DaysBeforeYear(y) == 365 + d4 - d100 + d400;
  }

  /** A multiple of 400 is one of 100, and a multiple of 100 one of 4. */
  lemma MultiplesNest(y: int)
    ensures y % 400 == 0 ==> y % 100 == 0
    ensures y % 100 == 0 ==> y % 4 == 0
  {
    if y % 400 == 0 {
      var q := y / 400;
      assert y == 100 * (4 * q);
      HundredsDivide(4 * q);
    }
    if y % 100 == 0 {
      var q := y / 100;
      assert y == 4 * (25 * q);
      FoursDivide(25 * q);
    }
  }

  lemma HundredsDivide(k: int)
    ensures (100 * k) % 100 == 0
  {
  }

  lemma FoursDivide(k: int)
    ensures (4 * k) % 4 == 0
  {
  }

  /** Stepping from `y - 1` to `y` raises the quotient by `k` exactly at multiples of `k`. */
  lemma QuotientStep(y: int, k: int)
    requires k == 4 || k == 100 || k == 400
    ensures y / k == (y - 1) / k + (if y % k == 0 then 1 else 0)
  {
    var q := (y - 1) / k;
    var r := (y - 1) % k;
    assert y - 1 == k * q + r && 0 <= r < k;
    if r == k - 1 {
      assert y == k * (q + 1) + 0;
    } else {
      assert y == k * q + (r + 1);
    }
  }

  lemma DaysBeforeDecember(y: int)
    ensures DaysBeforeMonth(y, 12) + 31 == if IsLeapYear(y) then 366 else 365
  {
    var feb := DaysInMonth(y, 2);
    assert DaysBeforeMonth(y, 2) == 31;
    assert DaysBeforeMonth(y, 3) == 31 + feb;
    assert DaysBeforeMonth(y, 4) == 62 + feb;
    assert DaysBeforeMonth(y, 5) == 92 + feb;
    assert DaysBeforeMonth(y, 6) == 123 + feb;
    assert DaysBeforeMonth(y, 7) == 153 + feb;
    assert DaysBeforeMonth(y, 8) == 184 + feb;
    assert DaysBeforeMonth(y, 9) == 215 + feb;
    assert DaysBeforeMonth(y, 10) == 245 + feb;
    assert DaysBeforeMonth(y, 11) == 276 + feb;
    assert DaysBeforeMonth(y, 12) == 306 + feb;
  }

  lemma OrdinalNextDay(d: Date)
    ensures Ordinal(NextDay(d)) == Ordinal(d) + 1
  {
    if d.day == DaysInMonth(d.year, d.month) && d.month == 12 {
      DaysInYear(d.year);
      DaysBeforeDecember(d.year);
    }
  }

  lemma WeekRollsOver(o: int)
    ensures (o + 7) % 7 + 1 == ((o + 6) % 7 + 1) % 7 + 1
  {
    var k := (o + 6) % 7;
    assert o + 6 == (o + 6) / 7 * 7 + k;
    if k < 6 {
      assert o + 7 == (o + 6) / 7 * 7 + (k + 1);
    } else {
      assert o + 7 == ((o + 6) / 7 + 1) * 7;
    }
  }

  /** The day after a Monday is a Tuesday, and so on round the week. */
  lemma IsoWeekdayNextDay(d: Date)
    ensures IsoWeekday(NextDay(d)) == IsoWeekday(d) % 7 + 1
  {
    OrdinalNextDay(d);
    WeekRollsOver(Ordinal(d));
  }

  // ---------------------------------------------------------------------------
  // Date and time

  /** A timestamp: a day and the seconds elapsed since its midnight. */
  datatype DateTime = DateTime(date: Date, secondsIntoDay: real)

  type Timestamp = t: DateTime | 0.0 <= t.secondsIntoDay < 86400.0 witness DateTime(YearMonthDay(2000, 1, 1), 0.0)

  /** A `date` compared with a timestamp stands for its midnight. */
  function Midnight(d: Date): Timestamp {
    DateTime(d, 0.0)
  }

  predicate TimestampBefore(a: Timestamp, b: Timestamp) {
    Before(a.date, b.date) || (a.date == b.date && a.secondsIntoDay < b.secondsIntoDay)
  }

  /** `EXTRACT(HOUR FROM t)`. */
  function Hour(t: Timestamp): (h: int)
    ensures 0 <= h <= 23
  {
    (t.secondsIntoDay / 3600.0).Floor
  }

  /** A timestamp is at or after midnight of `d` exactly when its day is not before `d`,
      and before midnight of `d` exactly when its day is before `d`. */
  lemma MidnightBounds(t: Timestamp, d: Date)
    ensures !TimestampBefore(t, Midnight(d)) <==> OnOrBefore(d, t.date)
    ensures TimestampBefore(t, Midnight(d)) <==> Before(t.date, d)
  {
  }

  // ---------------------------------------------------------------------------
  // ISO text form

  /** `'%04d' % year`; a year below 1 (which Python's `date` cannot hold) keeps its sign. */
  function YearText(y: int): (s: string)
    ensures |s| >= 4
  {
    if y < 0 then "-" + PaddedDecimal(-y, 4) else PaddedDecimal(y, 4)
  }

  /** `str(d)` and `d.strftime('%Y-%m-%d')`: `YYYY-MM-DD`. */
  function IsoFormat(d: Date): string {
    YearText(d.year) + "-" + PaddedDecimal(d.month, 2) + "-" + PaddedDecimal(d.day, 2)
  }

  lemma YearTextInjective(a: int, b: int)
    requires YearText(a) == YearText(b)
    ensures a == b
  {
    var s := YearText(a);
    if a < 0 {
      assert s[0] == '-';
      assert b < 0;
      assert s[1..] == PaddedDecimal(-a, 4) == PaddedDecimal(-b, 4);
      PaddedDecimalInjective(-a, -b, 4);
    } else {
      assert IsDigit(s[0]);
      assert b >= 0;
      PaddedDecimalInjective(a, b, 4);
    }
  }

  lemma IsoFormatParts(d: Date)
    ensures var s := IsoFormat(d); var n := |s|;
      n >= 10 && s[..n - 6] == YearText(d.year) && s[n - 6] == '-' && s[n - 3] == '-'
      && s[n - 5..n - 3] == PaddedDecimal(d.month, 2) && s[n - 2..] == PaddedDecimal(d.day, 2)
  {
    PaddedTwo(d.month);
    PaddedTwo(d.day);
  }

  /** Different days have different ISO texts. */
  lemma IsoFormatInjective(a: Date, b: Date)
    requires IsoFormat(a) == IsoFormat(b)
    ensures a == b
  {
    IsoFormatParts(a);
    IsoFormatParts(b);
    var s := IsoFormat(a);
    var n := |s|;
    YearTextInjective(a.year, b.year);
    PaddedDecimalInjective(a.month, b.month, 2);
    PaddedDecimalInjective(a.day, b.day, 2);
  }

  /** The ISO text holds only digits and '-'. */
  lemma IsoFormatCharacters(d: Date)
    ensures forall i :: 0 <= i < |IsoFormat(d)| ==> IsDigit(IsoFormat(d)[i]) || IsoFormat(d)[i] == '-'
  {
    var y := YearText(d.year);
    var m := PaddedDecimal(d.month, 2);
    var dd := PaddedDecimal(d.day, 2);
    var s := IsoFormat(d);
    assert s == y + "-" + m + "-" + dd;
    forall i | 0 <= i < |s| ensures IsDigit(s[i]) || s[i] == '-' {
      if i < |y| {
        if d.year < 0 && i > 0 {
          assert y[i] == PaddedDecimal(-d.year, 4)[i - 1];
        }
      } else if |y| < i < |y| + 1 + |m| {
        assert s[i] == m[i - |y| - 1];
      } else if i > |y| + 1 + |m| {
        assert s[i] == dd[i - |y| - 2 - |m|];
      }
    }
  }
}
