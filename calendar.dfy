/**
 * Dates and instants as the pages and handlers use them. An instant is a number of
 * milliseconds since 1970-01-01 00:00 of the local wall clock, so a local midnight is a
 * multiple of `MsPerDay`. Calendar dates follow the proleptic Gregorian calendar of
 * ECMA-262 (section 21.4.1, "Time Values and Time Range"), with month indices 0..11.
 */
module Calendar {

  /** `1000 * 60 * 60 * 24`. */
  const MsPerDay: int := 86400000

  /** The number of the day holding the instant `t` (day 0 is 1970-01-01). */
  function DayOf(t: int): int {
    t / MsPerDay
  }

  /** `d.setHours(0, 0, 0, 0)`: the first instant of the day holding `t`. */
  function Midnight(t: int): (m: int)
    ensures m <= t < m + MsPerDay
    ensures m % MsPerDay == 0
  {
    DayOf(t) * MsPerDay
  }

  /** `Math.ceil(a / (1000 * 60 * 60 * 24))` for an integer number of milliseconds `a`. */
  function CeilDays(a: int): (r: int)
    ensures (r - 1) * MsPerDay < a <= r * MsPerDay
  {
    if a % MsPerDay == 0 then a / MsPerDay else a / MsPerDay + 1
  }

  /** The ceiling is the only integer with that property. */
  lemma CeilDaysUnique(a: int, r: int)
    requires (r - 1) * MsPerDay < a <= r * MsPerDay
    ensures CeilDays(a) == r
  {
    var c := CeilDays(a);
    assert (c - 1) * MsPerDay < r * MsPerDay && (r - 1) * MsPerDay < c * MsPerDay;
  }

  /** `Date.getMonth()` values: 0 is January, 11 is December. */
  type Month = m: int | 0 <= m < 12

  /** Gregorian leap years. */
  predicate IsLeapYear(y: int) {
    (y % 4 == 0 && y % 100 != 0) || y % 400 == 0
  }

  /** The length of month `m` of year `y`. */
  function DaysInMonth(y: int, m: Month): int {
    if m == 1 then (if IsLeapYear(y) then 29 else 28)
    else if m == 3 || m == 5 || m == 8 || m == 10 then 30
    else 31
  }

  /** The month lengths of the Gregorian calendar. */
  lemma DaysInMonthValues(y: int, m: Month)
    ensures 28 <= DaysInMonth(y, m) <= 31
    ensures m == 1 ==> (DaysInMonth(y, m) == 29 <==> IsLeapYear(y))
    ensures m == 1 && !IsLeapYear(y) ==> DaysInMonth(y, m) == 28
    ensures m != 1 ==> (DaysInMonth(y, m) == 30 <==> m in {3, 5, 8, 10})
    ensures m != 1 && m !in {3, 5, 8, 10} ==> DaysInMonth(y, m) == 31
  {
  }

  /** `1 <= d <= DaysInMonth(y, m)`: a day that exists in that month. */
  predicate IsValidDate(y: int, m: Month, d: int) {
    1 <= d <= DaysInMonth(y, m)
  }

  function LeapYearsBefore(y: int): int {
    (y - 1) / 4 - (y - 1) / 100 + (y - 1) / 400
  }

  /** Days from 1970-01-01 to January 1st of year `y`. */
  function DaysBeforeYear(y: int): int {
    365 * (y - 1970) + LeapYearsBefore(y) - LeapYearsBefore(1970)
  }

  /** Days from January 1st to the first day of month `m` of year `y`. */
  function DaysBeforeMonth(y: int, m: int): (r: int)
    requires 0 <= m <= 12
    ensures 28 * m <= r <= 31 * m
  {
    if m == 0 then 0 else DaysBeforeMonth(y, m - 1) + DaysInMonth(y, m - 1)
  }

  /** The day number of the date `d` of month `m` of year `y`; `d` may lie outside the month. */
  function DayNumber(y: int, m: Month, d: int): int {
    DaysBeforeYear(y) + DaysBeforeMonth(y, m) + d - 1
  }

  /** ECMA-262 MakeDay: `new Date(y, month, d)`, where `month` may run past either end of the year. */
  function MakeDay(y: int, month: int, d: int): int {
    DayNumber(y + month / 12, month % 12, d)
  }

  /** ECMA-262 WeekDay: `getDay()`, 0 is Sunday; day 0 was a Thursday. */
  function WeekDay(day: int): (w: int)
    ensures 0 <= w < 7
  {
    (day + 4) % 7
  }

  lemma Epoch()
    ensures DayNumber(1970, 0, 1) == 0 && WeekDay(0) == 4
  {
  }

  /** A year has 366 days exactly when it is a leap year. */
  lemma YearLength(y: int)
    ensures DaysBeforeYear(y + 1) - DaysBeforeYear(y) == if IsLeapYear(y) then 366 else 365
  {
    QuotientStep4(y);
    QuotientStep100(y);
    QuotientStep400(y);
    DivisorsOfCenturies(y);
    assert LeapYearsBefore(y + 1) - LeapYearsBefore(y)
      == (y / 4 - (y - 1) / 4) - (y / 100 - (y - 1) / 100) + (y / 400 - (y - 1) / 400);
  }

  /** A multiple of 400 is one of 100, and a multiple of 100 is one of 4. */
  lemma DivisorsOfCenturies(y: int)
    ensures y % 400 == 0 ==> y % 100 == 0
    ensures y % 100 == 0 ==> y % 4 == 0
  {
    if y % 400 == 0 {
      CenturyOf400(y);
    }
    if y % 100 == 0 {
      FourOfCentury(y);
    }
  }

  lemma CenturyOf400(y: int)
    requires y % 400 == 0
    ensures y % 100 == 0
  {
    var t := 4 * (y / 400);
    assert y == 100 * t;
  }

  lemma FourOfCentury(y: int)
    requires y % 100 == 0
    ensures y % 4 == 0
  {
    var t := 25 * (y / 100);
    assert y == 4 * t;
  }

  /** Stepping back from `y` lowers `y / k` by one exactly when `k` divides `y`. */
  lemma QuotientStep4(y: int)
    ensures y / 4 - (y - 1) / 4 == if y % 4 == 0 then 1 else 0
  {
  }

  lemma QuotientStep100(y: int)
    ensures y / 100 - (y - 1) / 100 == if y % 100 == 0 then 1 else 0
  {
  }

  lemma QuotientStep400(y: int)
    ensures y / 400 - (y - 1) / 400 == if y % 400 == 0 then 1 else 0
  {
  }

  /** The twelve months add up to the year. */
  lemma MonthsMakeYear(y: int)
    ensures DaysBeforeMonth(y, 12) == DaysBeforeYear(y + 1) - DaysBeforeYear(y)
  {
    YearLength(y);
    assert DaysBeforeMonth(y, 1) == 31;
    assert DaysBeforeMonth(y, 2) == 31 + DaysInMonth(y, 1);
    assert DaysBeforeMonth(y, 3) == 62 + DaysInMonth(y, 1);
    assert DaysBeforeMonth(y, 4) == 92 + DaysInMonth(y, 1);
    assert DaysBeforeMonth(y, 5) == 123 + DaysInMonth(y, 1);
    assert DaysBeforeMonth(y, 6) == 153 + DaysInMonth(y, 1);
    assert DaysBeforeMonth(y, 7) == 184 + DaysInMonth(y, 1);
    assert DaysBeforeMonth(y, 8) == 215 + DaysInMonth(y, 1);
    assert DaysBeforeMonth(y, 9) == 245 + DaysInMonth(y, 1);
    assert DaysBeforeMonth(y, 10) == 276 + DaysInMonth(y, 1);
    assert DaysBeforeMonth(y, 11) == 306 + DaysInMonth(y, 1);
    assert DaysBeforeMonth(y, 12) == 337 + DaysInMonth(y, 1);
  }

  /**
   * `new Date(y, m + 1, 0)` is the last day of month `m`: day 0 of the next month
   * (carried into the next year after December) is day `DaysInMonth(y, m)` of month `m`.
   */
  lemma DayZeroOfNextMonth(y: int, m: Month)
    ensures MakeDay(y, m + 1, 0) == DayNumber(y, m, DaysInMonth(y, m))
    ensures IsValidDate(y, m, DaysInMonth(y, m))
  {
    if m == 11 {
      MonthsMakeYear(y);
    }
  }

  lemma {:induction false} LaterYearsStartLater(y1: int, y2: int)
    requires y1 < y2
    ensures DaysBeforeYear(y1 + 1) <= DaysBeforeYear(y2)
    decreases y2 - y1
  {
    if y1 + 1 < y2 {
      LaterYearsStartLater(y1 + 1, y2);
      YearLength(y1 + 1);
    }
  }

  lemma {:induction false} LaterMonthsStartLater(y: int, m1: int, m2: int)
    requires 0 <= m1 < m2 <= 12
    ensures DaysBeforeMonth(y, m1 + 1) <= DaysBeforeMonth(y, m2)
    decreases m2 - m1
  {
    if m1 + 1 < m2 {
      LaterMonthsStartLater(y, m1 + 1, m2);
    }
  }

  lemma DayNumberWithinMonth(y: int, m: Month, d: int)
    requires IsValidDate(y, m, d)
    ensures DaysBeforeYear(y) + DaysBeforeMonth(y, m) <= DayNumber(y, m, d) < DaysBeforeYear(y) + DaysBeforeMonth(y, m + 1)
  {
  }

  lemma DayNumberWithinYear(y: int, m: Month, d: int)
    requires IsValidDate(y, m, d)
    ensures DaysBeforeYear(y) <= DayNumber(y, m, d) < DaysBeforeYear(y + 1)
  {
    DayNumberWithinMonth(y, m, d);
    MonthsMakeYear(y);
    MonthEndsWithinYear(y, m);
  }

  lemma MonthEndsWithinYear(y: int, m: Month)
    ensures DaysBeforeMonth(y, m + 1) <= DaysBeforeMonth(y, 12)
  {
    if m < 11 {
      LaterMonthsStartLater(y, m, 12);
    }
  }

  /** Distinct valid dates have distinct day numbers. */
  lemma DayNumberInjective(y1: int, m1: Month, d1: int, y2: int, m2: Month, d2: int)
    requires IsValidDate(y1, m1, d1) && IsValidDate(y2, m2, d2)
    requires DayNumber(y1, m1, d1) == DayNumber(y2, m2, d2)
    ensures y1 == y2 && m1 == m2 && d1 == d2
  {
    DayNumberWithinYear(y1, m1, d1);
    DayNumberWithinYear(y2, m2, d2);
    if y1 < y2 {
      LaterYearsStartLater(y1, y2);
    } else if y2 < y1 {
      LaterYearsStartLater(y2, y1);
    }
    assert y1 == y2;
    DayNumberWithinMonth(y1, m1, d1);
    DayNumberWithinMonth(y2, m2, d2);
    if m1 < m2 {
      LaterMonthsStartLater(y1, m1, m2);
    } else if m2 < m1 {
      LaterMonthsStartLater(y1, m2, m1);
    }
  }
}
