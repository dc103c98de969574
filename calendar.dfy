/** Proleptic Gregorian calendar arithmetic in UTC, as the dashboard uses it
    through Go's time package: month lengths, day numbers, Unix timestamps,
    month and year boundaries, stepping back by days and by months. */
module Calendar {

  const SecondsPerDay: int := 86400

  /** Days from 0000-01-01 to 1970-01-01, the Unix epoch. */
  const UnixEpochDay: int := 719528

  datatype Date = Date(year: nat, month: int, day: int)

  predicate IsLeap(y: int) {
    y % 4 == 0 && (y % 100 != 0 || y % 400 == 0)
  }

  function DaysInMonth(y: int, m: int): (n: int)
    requires 1 <= m <= 12
    ensures 28 <= n <= 31
    ensures m == 2 ==> (n == 29 <==> IsLeap(y))
  {
    if m == 2 then (if IsLeap(y) then 29 else 28)
    else if m == 4 || m == 6 || m == 9 || m == 11 then 30
    else 31
  }

  function DaysInYear(y: int): (n: int)
    ensures n == 365 || n == 366
    ensures n == 366 <==> IsLeap(y)
  {
    if IsLeap(y) then 366 else 365
  }

  predicate ValidDate(d: Date) {
    1 <= d.month <= 12 && 1 <= d.day <= DaysInMonth(d.year, d.month)
  }

  /** A wall-clock "today": a valid date of the Unix era. */
  predicate IsToday(d: Date) {
    ValidDate(d) && d.year >= 1970
  }

  /** Days from 0000-01-01 to the first day of year y (floor division counts
      the leap years 0, 4, 8, ... below y). */
  function DaysBeforeYear(y: nat): int {
    365 * y + (y + 3) / 4 - (y + 99) / 100 + (y + 399) / 400
  }

  /** Days of year y before the first day of month m. */
  function DaysBeforeMonth(y: int, m: int): int
    requires 1 <= m <= 12
  {
    var cumulative := [0, 31, 59, 90, 120, 151, 181, 212, 243, 273, 304, 334];
    cumulative[m - 1] + (if m > 2 && IsLeap(y) then 1 else 0)
  }

  /** Days elapsed from 0000-01-01 to d. */
  function DayNumber(d: Date): int
    requires ValidDate(d)
  {
    DaysBeforeYear(d.year) + DaysBeforeMonth(d.year, d.month) + d.day - 1
  }

  /** Unix time of the given second of the day d. */
  function UnixTime(d: Date, secondOfDay: int): int
    requires ValidDate(d)
  {
    (DayNumber(d) - UnixEpochDay) * SecondsPerDay + secondOfDay
  }

  lemma EpochIsDayZero()
    ensures ValidDate(Date(1970, 1, 1)) && UnixTime(Date(1970, 1, 1), 0) == 0
  {
  }

  lemma DaysBeforeYearStep(y: nat)
    ensures DaysBeforeYear(y + 1) == DaysBeforeYear(y) + DaysInYear(y)
  {
    MultipleStep(y, 4);
    MultipleStep(y, 100);
    MultipleStep(y, 400);
    DivisibilityChain(y);
  }

  lemma DivisibilityChain(y: nat)
    ensures y % 400 == 0 ==> y % 100 == 0
    ensures y % 100 == 0 ==> y % 4 == 0
  {
    if y % 400 == 0 {
      var k := y / 400;
      assert y == 100 * (4 * k);
    }
    if y % 100 == 0 {
      var k := y / 100;
      assert y == 4 * (25 * k);
    }
  }

  /** Going from y to y + 1 passes a multiple of d exactly when y is one. */
  lemma MultipleStep(y: nat, d: int)
    requires d == 4 || d == 100 || d == 400
    ensures (y + d) / d - (y + d - 1) / d == (if y % d == 0 then 1 else 0)
  {
    if d == 4 {
      assert (y + 4) / 4 == y / 4 + 1;
      assert (y + 3) / 4 == y / 4 + (y % 4 + 3) / 4;
    } else if d == 100 {
      assert (y + 100) / 100 == y / 100 + 1;
      assert (y + 99) / 100 == y / 100 + (y % 100 + 99) / 100;
    } else {
      assert (y + 400) / 400 == y / 400 + 1;
      assert (y + 399) / 400 == y / 400 + (y % 400 + 399) / 400;
    }
  }

  lemma DaysBeforeMonthStep(y: int, m: int)
    requires 1 <= m < 12
    ensures DaysBeforeMonth(y, m + 1) == DaysBeforeMonth(y, m) + DaysInMonth(y, m)
  {
  }

  lemma {:induction false} DaysBeforeYearGrowth(a: nat, b: nat)
    requires a <= b
    ensures 365 * (b - a) <= DaysBeforeYear(b) - DaysBeforeYear(a) <= 366 * (b - a)
    decreases b - a
  {
    if a < b {
      DaysBeforeYearGrowth(a + 1, b);
      DaysBeforeYearStep(a);
    }
  }

  /** Every day of year y has a day number in [DaysBeforeYear(y), DaysBeforeYear(y + 1)). */
  lemma DayNumberWithinYear(d: Date)
    requires ValidDate(d)
    ensures DaysBeforeYear(d.year) <= DayNumber(d) < DaysBeforeYear(d.year + 1)
  {
    DaysBeforeYearStep(d.year);
  }

  /** Dates are ordered by year first: a date of a later year has a larger day number. */
  lemma DayNumberYearOrder(d1: Date, d2: Date)
    requires ValidDate(d1) && ValidDate(d2) && d1.year < d2.year
    ensures DayNumber(d2) - DayNumber(d1) > 365 * (d2.year - d1.year - 1)
  {
    DayNumberWithinYear(d1);
    DayNumberWithinYear(d2);
    DaysBeforeYearGrowth(d1.year + 1, d2.year);
  }

  /** The day number determines the date. */
  lemma DayNumberInjective(d1: Date, d2: Date)
    requires ValidDate(d1) && ValidDate(d2) && DayNumber(d1) == DayNumber(d2)
    ensures d1 == d2
  {
    if d1.year < d2.year {
      DayNumberYearOrder(d1, d2);
    } else if d2.year < d1.year {
      DayNumberYearOrder(d2, d1);
    } else {
      var y := d1.year;
      if d1.month < d2.month {
        MonthOrder(y, d1.month, d2.month);
      } else if d2.month < d1.month {
        MonthOrder(y, d2.month, d1.month);
      }
    }
  }

  lemma {:induction false} MonthOrder(y: int, m1: int, m2: int)
    requires 1 <= m1 < m2 <= 12
    ensures DaysBeforeMonth(y, m2) >= DaysBeforeMonth(y, m1) + DaysInMonth(y, m1)
    decreases m2 - m1
  {
    if m1 + 1 < m2 {
      MonthOrder(y, m1 + 1, m2);
    }
  }

  // ---------------------------------------------------------------------
  // Months

  /** A month as the running index y * 12 + (m - 1). */
  function MonthIndex(y: nat, m: int): nat
    requires 1 <= m <= 12
  {
    y * 12 + (m - 1)
  }

  function YearOfIndex(i: nat): nat { i / 12 }

  function MonthOfIndex(i: nat): (m: int)
    ensures 1 <= m <= 12
  {
    i % 12 + 1
  }

  lemma MonthIndexRoundTrip(y: nat, m: int)
    requires 1 <= m <= 12
    ensures YearOfIndex(MonthIndex(y, m)) == y && MonthOfIndex(MonthIndex(y, m)) == m
  {
  }

  lemma IndexMonthRoundTrip(i: nat)
    ensures MonthIndex(YearOfIndex(i), MonthOfIndex(i)) == i
  {
  }

  /** The first day of the month after (y, m), which is where Go's
      AddDate(0, 1, 0) lands from day 1 of (y, m). */
  function FirstOfNextMonth(y: nat, m: int): (d: Date)
    requires 1 <= m <= 12
    ensures ValidDate(d) && d.day == 1
    ensures MonthIndex(d.year, d.month) == MonthIndex(y, m) + 1
  {
    if m == 12 then Date(y + 1, 1, 1) else Date(y, m + 1, 1)
  }

  lemma NextMonthDayNumber(y: nat, m: int)
    requires 1 <= m <= 12
    ensures DayNumber(FirstOfNextMonth(y, m)) == DayNumber(Date(y, m, 1)) + DaysInMonth(y, m)
  {
    if m == 12 {
      DaysBeforeYearStep(y);
    } else {
      DaysBeforeMonthStep(y, m);
    }
  }

  /** The fetch window of a calendar month: from day 1 at 00:00:00 to one
      second before day 1 of the next month, which lies DaysInMonth days
      later (MonthWindowEndsBeforeNextMonth). */
  function MonthWindow(y: nat, m: int): (w: (int, int))
    requires 1 <= m <= 12
  {
    var start := UnixTime(Date(y, m, 1), 0);
    (start, start + DaysInMonth(y, m) * SecondsPerDay - 1)
  }

  /** The window ends where Go's AddDate(0, 1, 0).Add(-time.Second) from
      day 1 of the month ends it: one second before day 1 of the next month. */
  lemma MonthWindowEndsBeforeNextMonth(y: nat, m: int)
    requires 1 <= m <= 12
    ensures MonthWindow(y, m).1 == UnixTime(FirstOfNextMonth(y, m), 0) - 1
  {
    NextMonthDayNumber(y, m);
  }

  /** The month window covers exactly the days of the month: it starts at the
      first second of day 1, ends at the last second of the month's last day,
      and spans DaysInMonth * 86400 seconds (leap Februaries included). */
  lemma MonthWindowSpan(y: nat, m: int)
    requires 1 <= m <= 12
    ensures MonthWindow(y, m).0 == UnixTime(Date(y, m, 1), 0)
    ensures ValidDate(Date(y, m, DaysInMonth(y, m)))
    ensures MonthWindow(y, m).1 == UnixTime(Date(y, m, DaysInMonth(y, m)), SecondsPerDay - 1)
    ensures MonthWindow(y, m).1 - MonthWindow(y, m).0 + 1 == DaysInMonth(y, m) * SecondsPerDay
  {
  }

  /** The window getYear queries: Jan 1 00:00:00 to Dec 31 23:59:59. */
  function YearWindow(y: nat): (w: (int, int)) {
    (UnixTime(Date(y, 1, 1), 0), UnixTime(Date(y, 12, 31), SecondsPerDay - 1))
  }

  lemma YearWindowSpan(y: nat)
    ensures YearWindow(y).1 - YearWindow(y).0 + 1 == DaysInYear(y) * SecondsPerDay
  {
    DaysBeforeYearStep(y);
    assert DayNumber(Date(y, 12, 31)) - DayNumber(Date(y, 1, 1)) == DaysInYear(y) - 1;
  }

  /** Hours between two instants, as Go's Duration.Hours reports them. */
  function HoursBetween(from: int, to: int): real {
    (to - from) as real / 3600.0
  }

  /** Hours in month (y, m): the distance from day 1 of the month to day 1
      of the next, DaysInMonth days later (MonthHoursReachNextMonth). */
  function MonthHours(y: nat, m: int): real
    requires 1 <= m <= 12
  {
    var start := UnixTime(Date(y, m, 1), 0);
    HoursBetween(start, start + DaysInMonth(y, m) * SecondsPerDay)
  }

  /** The hours are those Go's nextMonth.Sub(targetMonth).Hours() reports,
      nextMonth being targetMonth.AddDate(0, 1, 0). */
  lemma MonthHoursReachNextMonth(y: nat, m: int)
    requires 1 <= m <= 12
    ensures MonthHours(y, m) == HoursBetween(UnixTime(Date(y, m, 1), 0), UnixTime(FirstOfNextMonth(y, m), 0))
  {
    NextMonthDayNumber(y, m);
  }

  /** Hours in year y: Jan 1 of y to Jan 1 of y + 1, DaysInYear days later
      (YearHoursReachNextYear). */
  function YearHours(y: nat): real {
    var start := UnixTime(Date(y, 1, 1), 0);
    HoursBetween(start, start + DaysInYear(y) * SecondsPerDay)
  }

  /** The hours are those Go's endDate.Sub(startDate).Hours() reports for
      Jan 1 of y and Jan 1 of y + 1. */
  lemma YearHoursReachNextYear(y: nat)
    ensures YearHours(y) == HoursBetween(UnixTime(Date(y, 1, 1), 0), UnixTime(Date(y + 1, 1, 1), 0))
  {
    DaysBeforeYearStep(y);
  }

  lemma MonthHoursIsCalendarLength(y: nat, m: int)
    requires 1 <= m <= 12
    ensures MonthHours(y, m) == (DaysInMonth(y, m) * 24) as real
    ensures 672.0 <= MonthHours(y, m) <= 744.0
  {
    var start := UnixTime(Date(y, m, 1), 0);
    var n := DaysInMonth(y, m);
    assert start + n * SecondsPerDay - start == n * 24 * 3600;
    assert (n * 24 * 3600) as real == (n * 24) as real * 3600.0;
  }

  lemma YearHoursIsCalendarLength(y: nat)
    ensures YearHours(y) == (DaysInYear(y) * 24) as real
    ensures YearHours(y) == (if IsLeap(y) then 8784.0 else 8760.0)
  {
    var start := UnixTime(Date(y, 1, 1), 0);
    var n := DaysInYear(y);
    assert start + n * SecondsPerDay - start == n * 24 * 3600;
    assert (n * 24 * 3600) as real == (n * 24) as real * 3600.0;
  }

  // ---------------------------------------------------------------------
  // Days

  /** The calendar day before d. */
  function PrevDay(d: Date): (p: Date)
    requires ValidDate(d) && DayNumber(d) >= 1
    ensures ValidDate(p) && DayNumber(p) == DayNumber(d) - 1
  {
    if d.day > 1 then Date(d.year, d.month, d.day - 1)
    else if d.month > 1 then
      DaysBeforeMonthStep(d.year, d.month - 1);
      Date(d.year, d.month - 1, DaysInMonth(d.year, d.month - 1))
    else
      assert d.year >= 1;
      DaysBeforeYearStep(d.year - 1);
      Date(d.year - 1, 12, 31)
  }

  /** The calendar day k days before d. */
  function DaysBack(d: Date, k: nat): (p: Date)
    requires ValidDate(d) && DayNumber(d) >= k
    ensures ValidDate(p) && DayNumber(p) == DayNumber(d) - k
    decreases k, d
  {
    if k == 0 then d else DaysBack(PrevDay(d), k - 1)
  }

  lemma TodayIsLate(d: Date)
    requires IsToday(d)
    ensures DayNumber(d) >= UnixEpochDay
  {
    DaysBeforeYearGrowth(1970, d.year);
  }

  /** The midnight of the day k days before d is k whole days before d's midnight. */
  lemma DaysBackUnixTime(d: Date, k: nat, s: int)
    requires ValidDate(d) && DayNumber(d) >= k
    ensures UnixTime(DaysBack(d, k), s) == UnixTime(d, 0) - k * SecondsPerDay + s
  {
  }
}
