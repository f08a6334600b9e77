/**
 * Proleptic Gregorian calendar arithmetic at day granularity, as Python's
 * `datetime.date`, `calendar.monthrange` and `timedelta(days=...)` provide it
 * to monitor.py, and the month-clamped `_add_months` (monitor.py:86-92).
 */
module Calendar {
  import opened Wrappers

  /** A calendar date; `ValidDate` says when it names a real day. */
  datatype Date = Date(year: int, month: int, day: int)

  /** Gregorian leap-year rule, as `calendar.isleap`. */
  predicate IsLeapYear(y: int): (leap: bool)
    ensures leap ==> y % 4 == 0
    ensures y % 4 == 0 && y % 100 != 0 ==> leap
    ensures y % 400 == 0 ==> leap
    ensures y % 100 == 0 && y % 400 != 0 ==> !leap
  {
    y % 4 == 0 && (y % 100 != 0 || y % 400 == 0)
  }

  /** The second component of `calendar.monthrange(y, m)`. */
  function DaysInMonth(y: int, m: int): (n: int)
    requires 1 <= m <= 12
    ensures 28 <= n <= 31
  {
    if m == 2 then (if IsLeapYear(y) then 29 else 28)
    else if m == 4 || m == 6 || m == 9 || m == 11 then 30
    else 31
  }

  predicate ValidDate(d: Date)
  {
    1 <= d.month <= 12 && 1 <= d.day <= DaysInMonth(d.year, d.month)
  }

  function DaysInYear(y: int): int
  {
    if IsLeapYear(y) then 366 else 365
  }

  // ---------------------------------------------------------------------
  // Ordering, as Python compares dates: lexicographically on (y, m, d).
  // ---------------------------------------------------------------------

  predicate Lt(a: Date, b: Date)
  {
    a.year < b.year
    || (a.year == b.year && (a.month < b.month || (a.month == b.month && a.day < b.day)))
  }

  predicate Le(a: Date, b: Date)
  {
    Lt(a, b) || a == b
  }

  /** Strictly ascending, hence also free of duplicates. */
  predicate StrictlyAscending(s: seq<Date>)
  {
    forall i, j :: 0 <= i < j < |s| ==> Lt(s[i], s[j])
  }

  // ---------------------------------------------------------------------
  // Day ordinal (Python's `date.toordinal`: 0001-01-01 is day 1), extended
  // to every year of the proleptic calendar.
  // ---------------------------------------------------------------------

  /** Days in the years before `y`, counted from 0001-01-01. */
  function DaysBeforeYear(y: int): int
    decreases if y >= 1 then y - 1 else 1 - y
  {
    if y == 1 then 0
    else if y > 1 then DaysBeforeYear(y - 1) + DaysInYear(y - 1)
    else DaysBeforeYear(y + 1) - DaysInYear(y)
  }

  function DaysBeforeMonth(y: int, m: int): int
    requires 1 <= m <= 12
  {
    if m == 1 then 0 else DaysBeforeMonth(y, m - 1) + DaysInMonth(y, m - 1)
  }

  function Ordinal(d: Date): int
    requires 1 <= d.month <= 12
  {
    DaysBeforeYear(d.year) + DaysBeforeMonth(d.year, d.month) + d.day
  }

  /** A year's first ordinal exceeds the previous year's by that year's length. */
  lemma YearLength(y: int)
    ensures DaysBeforeYear(y + 1) == DaysBeforeYear(y) + DaysInYear(y)
  {
  }

  lemma MonthsFillYear(y: int)
    ensures DaysBeforeMonth(y, 12) + DaysInMonth(y, 12) == DaysInYear(y)
  {
    var feb := DaysInMonth(y, 2);
    assert DaysBeforeMonth(y, 2) == 31;
    assert DaysBeforeMonth(y, 3) == 31 + feb;
    assert DaysBeforeMonth(y, 4) == 62 + feb;
    assert DaysBeforeMonth(y, 5) == 92 + feb;
    assert DaysBeforeMonth(y, 6) == 123 + feb;
    assert DaysBeforeMonth(y, 7) == 153 + feb;
    assert DaysBeforeMonth(y, 8) == 184 + feb;
    assert DaysBeforeMonth(y, 9) == 215 + feb;
    assert DaysBeforeMonth(y, 10) == 245 + feb;
    assert DaysBeforeMonth(y, 11) == 276 + feb;
    assert DaysBeforeMonth(y, 12) == 306 + feb;
  }

  lemma {:induction false} LaterMonthStartsLater(y: int, m1: int, m2: int)
    requires 1 <= m1 < m2 <= 12
    ensures DaysBeforeMonth(y, m1) + DaysInMonth(y, m1) <= DaysBeforeMonth(y, m2)
    decreases m2
  {
    if m1 < m2 - 1 {
      LaterMonthStartsLater(y, m1, m2 - 1);
    }
  }

  lemma {:induction false} LaterYearStartsLater(y1: int, y2: int)
    requires y1 < y2
    ensures DaysBeforeYear(y1) + DaysInYear(y1) <= DaysBeforeYear(y2)
    decreases y2 - y1
  {
    YearLength(y1);
    if y1 + 1 < y2 {
      LaterYearStartsLater(y1 + 1, y2);
    }
  }

  /** A valid date's day of the year lies within its year. */
  lemma DayOfYearBound(d: Date)
    requires ValidDate(d)
    ensures 1 <= DaysBeforeMonth(d.year, d.month) + d.day <= DaysInYear(d.year)
  {
    MonthsFillYear(d.year);
    if d.month < 12 {
      LaterMonthStartsLater(d.year, d.month, 12);
    }
    assert DaysBeforeMonth(d.year, d.month) >= 0 by {
      NonNegativeDaysBeforeMonth(d.year, d.month);
    }
  }

  lemma {:induction false} NonNegativeDaysBeforeMonth(y: int, m: int)
    requires 1 <= m <= 12
    ensures DaysBeforeMonth(y, m) >= 0
  {
    if m > 1 {
      NonNegativeDaysBeforeMonth(y, m - 1);
    }
  }

  /** Lexicographic order and ordinal order agree on valid dates. */
  lemma OrdinalOrder(a: Date, b: Date)
    requires ValidDate(a) && ValidDate(b)
    ensures Lt(a, b) <==> Ordinal(a) < Ordinal(b)
    ensures Le(a, b) <==> Ordinal(a) <= Ordinal(b)
    ensures a == b <==> Ordinal(a) == Ordinal(b)
  {
    OrdinalOrderOneWay(a, b);
    OrdinalOrderOneWay(b, a);
  }

  lemma OrdinalOrderOneWay(a: Date, b: Date)
    requires ValidDate(a) && ValidDate(b)
    ensures Lt(a, b) ==> Ordinal(a) < Ordinal(b)
  {
    if a.year < b.year {
      DayOfYearBound(a);
      DayOfYearBound(b);
      LaterYearStartsLater(a.year, b.year);
    } else if a.year == b.year && a.month < b.month {
      LaterMonthStartsLater(a.year, a.month, b.month);
    }
  }

  // ---------------------------------------------------------------------
  // Day arithmetic: `d + timedelta(days=n)`.
  // ---------------------------------------------------------------------

  /** `d + timedelta(days=1)`. */
  function NextDay(d: Date): (r: Date)
    requires ValidDate(d)
    ensures ValidDate(r) && Ordinal(r) == Ordinal(d) + 1
  {
    if d.day < DaysInMonth(d.year, d.month) then
      Date(d.year, d.month, d.day + 1)
    else if d.month < 12 then
      MonthRollover(d, Date(d.year, d.month + 1, 1));
      Date(d.year, d.month + 1, 1)
    else
      YearRollover(d, Date(d.year + 1, 1, 1));
      Date(d.year + 1, 1, 1)
  }

  /** `d - timedelta(days=1)`. */
  function PrevDay(d: Date): (r: Date)
    requires ValidDate(d)
    ensures ValidDate(r) && Ordinal(r) == Ordinal(d) - 1
  {
    if d.day > 1 then
      Date(d.year, d.month, d.day - 1)
    else if d.month > 1 then
      MonthRollover(Date(d.year, d.month - 1, DaysInMonth(d.year, d.month - 1)), d);
      Date(d.year, d.month - 1, DaysInMonth(d.year, d.month - 1))
    else
      YearRollover(Date(d.year - 1, 12, 31), d);
      Date(d.year - 1, 12, 31)
  }

  lemma MonthRollover(last: Date, first: Date)
    requires 1 <= last.month < 12 && last.day == DaysInMonth(last.year, last.month)
    requires first == Date(last.year, last.month + 1, 1)
    ensures Ordinal(first) == Ordinal(last) + 1
  {
  }

  lemma YearRollover(last: Date, first: Date)
    requires last.month == 12 && last.day == 31 && first == Date(last.year + 1, 1, 1)
    ensures Ordinal(first) == Ordinal(last) + 1
  {
    YearEnd(last.year);
  }

  lemma YearEnd(y: int)
    ensures DaysBeforeYear(y + 1) == DaysBeforeYear(y) + DaysBeforeMonth(y, 12) + 31
  {
    YearLength(y);
    MonthsFillYear(y);
  }

  /** `d + timedelta(days=n)` for any signed `n`. */
  function AddDays(d: Date, n: int): (r: Date)
    requires ValidDate(d)
    ensures ValidDate(r) && Ordinal(r) == Ordinal(d) + n
    decreases if n >= 0 then n else -n
  {
    if n == 0 then d
    else if n > 0 then AddDays(NextDay(d), n - 1)
    else AddDays(PrevDay(d), n + 1)
  }

  /** Day addition is the unique valid date at the shifted ordinal. */
  lemma AddDaysUnique(d: Date, n: int, r: Date)
    requires ValidDate(d) && ValidDate(r)
    ensures r == AddDays(d, n) <==> Ordinal(r) == Ordinal(d) + n
  {
    OrdinalOrder(r, AddDays(d, n));
  }

  // ---------------------------------------------------------------------
  // Month arithmetic.
  // ---------------------------------------------------------------------

  /** Months since the start of year 0; (year, month) order is index order. */
  function MonthIndex(d: Date): int
  {
    12 * d.year + d.month - 1
  }

  /** The first day of the month with the given index. */
  function MonthStart(mi: int): (r: Date)
    ensures ValidDate(r) && MonthIndex(r) == mi && r.day == 1
  {
    Date(mi / 12, mi % 12 + 1, 1)
  }

  lemma MonthIndexDetermines(d: Date)
    requires 1 <= d.month <= 12
    ensures d.year == MonthIndex(d) / 12 && d.month == MonthIndex(d) % 12 + 1
  {
  }

  /** An earlier month index means an earlier date, whatever the days. */
  lemma MonthIndexOrder(a: Date, b: Date)
    requires 1 <= a.month <= 12 && 1 <= b.month <= 12
    ensures MonthIndex(a) < MonthIndex(b) ==> Lt(a, b)
    ensures Le(a, b) ==> MonthIndex(a) <= MonthIndex(b)
  {
  }

  /**
   * `_add_months` (monitor.py:86-92): shift by a signed number of months,
   * clamping the day to the length of the target month.
   */
  function AddMonths(d: Date, n: int): (r: Date)
    requires ValidDate(d)
    ensures ValidDate(r)
    ensures MonthIndex(r) == MonthIndex(d) + n
    ensures r.day == Min(d.day, DaysInMonth(r.year, r.month))
    ensures r.day <= d.day
  {
    var m0 := d.month - 1 + n;
    var year := d.year + m0 / 12;
    var month := m0 % 12 + 1;
    Date(year, month, Min(d.day, DaysInMonth(year, month)))
  }

  /** Year and month of the result follow floor division of the month offset. */
  lemma AddMonthsYearMonth(d: Date, n: int)
    requires ValidDate(d)
    ensures AddMonths(d, n).month == (d.month - 1 + n) % 12 + 1
    ensures AddMonths(d, n).year == d.year + (d.month - 1 + n) / 12
    ensures AddMonths(d, n).day < d.day ==> AddMonths(d, n).day == DaysInMonth(AddMonths(d, n).year, AddMonths(d, n).month)
  {
    var r := AddMonths(d, n);
    MonthIndexDetermines(r);
  }

  /** Undoing a month shift restores the date whenever the first leg did not clamp. */
  lemma AddMonthsRoundTrip(d: Date, n: int)
    requires ValidDate(d)
    requires AddMonths(d, n).day == d.day
    ensures AddMonths(AddMonths(d, n), -n) == d
  {
    var r := AddMonths(AddMonths(d, n), -n);
    MonthIndexDetermines(r);
    MonthIndexDetermines(d);
  }

  /** A positive month shift moves strictly forward in time. */
  lemma AddMonthsForward(d: Date, n: int)
    requires ValidDate(d) && n >= 1
    ensures Lt(d, AddMonths(d, n))
    ensures Ordinal(d) < Ordinal(AddMonths(d, n))
  {
    MonthIndexOrder(d, AddMonths(d, n));
    OrdinalOrder(d, AddMonths(d, n));
  }

  /** A valid first-of-month date is the `MonthStart` of its index. */
  lemma IsMonthStart(d: Date)
    requires ValidDate(d) && d.day == 1
    ensures d == MonthStart(MonthIndex(d))
  {
    MonthIndexDetermines(d);
  }

  /** The first of a month is on or before `end` iff its month is not later than `end`'s. */
  lemma MonthStartNotAfter(mi: int, end: Date)
    requires ValidDate(end)
    ensures Le(MonthStart(mi), end) <==> mi <= MonthIndex(end)
  {
    MonthIndexOrder(MonthStart(mi), end);
    MonthIndexOrder(end, MonthStart(mi));
    MonthIndexDetermines(end);
  }

  // Worked examples from the calendar's clamping rule.
  lemma ClampLeapFebruary()
    ensures AddMonths(Date(2024, 1, 31), 1) == Date(2024, 2, 29)
    ensures AddMonths(Date(2023, 1, 31), 1) == Date(2023, 2, 28)
    ensures AddMonths(Date(2024, 1, 15), -1) == Date(2023, 12, 15)
  {
  }
}
