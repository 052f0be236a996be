/**
 Day numbers, timestamps and the proleptic Gregorian calendar that the
 date dimension derives its attributes from.

 A day number counts days from 1970-01-01 (day 0). A timestamp counts
 microseconds from 1970-01-01 00:00:00, the resolution of a PostgreSQL
 TIMESTAMP; `'d'::TIMESTAMP` is midnight of day d and `t::DATE` is the day
 that contains t.
 */
module Calendar {

  /** Microseconds in a day. */
  const TicksPerDay: int := 86_400_000_000

  /** `'d'::TIMESTAMP`: midnight at the start of day `d`. */
  function MidnightOf(d: int): int {
    d * TicksPerDay
  }

  /** `t::DATE`: the day containing timestamp `t` (floor division). */
  function DateOf(t: int): (d: int)
    ensures MidnightOf(d) <= t < MidnightOf(d + 1)
  {
    t / TicksPerDay
  }

  /** A timestamp lies in day `d` exactly when it lies in `[d, d + 1)` at midnight boundaries. */
  lemma DateOfIff(t: int, d: int)
    ensures DateOf(t) == d <==> MidnightOf(d) <= t < MidnightOf(d + 1)
  {
  }

  // ---------------------------------------------------------------------
  // Years and months

  predicate IsLeapYear(y: int) {
    y % 4 == 0 && (y % 100 != 0 || y % 400 == 0)
  }

  function DaysInYear(y: int): int {
    if IsLeapYear(y) then 366 else 365
  }

  function DaysInMonth(y: int, m: int): int
    requires 1 <= m <= 12
  {
    if m == 2 then (if IsLeapYear(y) then 29 else 28)
    else if m == 4 || m == 6 || m == 9 || m == 11 then 30
    else 31
  }

  /** Days of year `y` before the first of month `m` (`m == 13` gives the whole year). */
  function DaysBeforeMonth(y: int, m: int): int
    requires 1 <= m <= 13
  {
    if m == 1 then 0 else DaysBeforeMonth(y, m - 1) + DaysInMonth(y, m - 1)
  }

  /** The twelve months of a year add up to the year. */
  lemma MonthsFillYear(y: int)
    ensures DaysBeforeMonth(y, 13) == DaysInYear(y)
  {
    var feb := if IsLeapYear(y) then 29 else 28;
    assert DaysBeforeMonth(y, 2) == 31;
    assert DaysBeforeMonth(y, 3) == 31 + feb;
    assert DaysBeforeMonth(y, 4) == 62 + feb;
    assert DaysBeforeMonth(y, 5) == 92 + feb;
    assert DaysBeforeMonth(y, 6) == 123 + feb;
    assert DaysBeforeMonth(y, 7) == 153 + feb;
    assert DaysBeforeMonth(y, 8) == 184 + feb;
    assert DaysBeforeMonth(y, 9) == 215 + feb;
    assert DaysBeforeMonth(y, 10) == 245 + feb;
    assert DaysBeforeMonth(y, 11) == 276 + feb;
    assert DaysBeforeMonth(y, 12) == 306 + feb;
  }

  /** Later months start later: the first of month `m2` is at least the end of month `m1`. */
  lemma {:induction false} DaysBeforeMonthGrows(y: int, m1: int, m2: int)
    requires 1 <= m1 < m2 <= 13
    ensures DaysBeforeMonth(y, m1) + DaysInMonth(y, m1) <= DaysBeforeMonth(y, m2)
  {
    if m2 > m1 + 1 {
      DaysBeforeMonthGrows(y, m1, m2 - 1);
    }
  }

  /** Day number of January 1st of year `y`. */
  function DaysBeforeYear(y: int): int
    decreases if y >= 1970 then y - 1970 else 1970 - y
  {
    if y == 1970 then 0
    else if y > 1970 then DaysBeforeYear(y - 1) + DaysInYear(y - 1)
    else DaysBeforeYear(y + 1) - DaysInYear(y)
  }

  /** Consecutive years are one year-length apart. */
  lemma DaysBeforeYearStep(y: int)
    ensures DaysBeforeYear(y + 1) == DaysBeforeYear(y) + DaysInYear(y)
  {
  }

  /** Later years start later: January 1st of `y2` is at least the end of year `y1`. */
  lemma {:induction false} DaysBeforeYearGrows(y1: int, y2: int)
    requires y1 < y2
    ensures DaysBeforeYear(y1) + DaysInYear(y1) <= DaysBeforeYear(y2)
    decreases y2 - y1
  {
    DaysBeforeYearStep(y1);
    if y2 > y1 + 1 {
      DaysBeforeYearGrows(y1 + 1, y2);
    }
  }

  /** From 1970 to 2100 every fourth year is a leap year, so January 1st has a closed form. */
  lemma {:induction false} DaysBeforeYearModern(y: int)
    requires 1970 <= y <= 2100
    ensures DaysBeforeYear(y) == 365 * (y - 1970) + (y - 1969) / 4
    decreases y - 1970
  {
    if y > 1970 {
      DaysBeforeYearModern(y - 1);
    }
  }

  // ---------------------------------------------------------------------
  // Civil dates

  /** A calendar date in astronomical year numbering (year 0 is 1 BC). */
  datatype Civil = Civil(year: int, month: int, day: int)

  predicate ValidCivil(c: Civil) {
    1 <= c.month <= 12 && 1 <= c.day <= DaysInMonth(c.year, c.month)
  }

  /** The day number of a calendar date. */
  function DaysFromCivil(c: Civil): int
    requires ValidCivil(c)
  {
    DaysBeforeYear(c.year) + DaysBeforeMonth(c.year, c.month) + c.day - 1
  }

  /** Walks forward from January 1st of `y` by `off` days: the year reached and the day of that year. */
  function ForwardYears(y: int, off: int): (r: (int, int))
    requires off >= 0
    ensures 0 <= r.1 < DaysInYear(r.0)
    ensures DaysBeforeYear(r.0) + r.1 == DaysBeforeYear(y) + off
    decreases off
  {
    if off < DaysInYear(y) then (y, off)
    else
      DaysBeforeYearStep(y);
      ForwardYears(y + 1, off - DaysInYear(y))
  }

  /** Walks backward from January 1st of `y` by `-off` days. */
  function BackwardYears(y: int, off: int): (r: (int, int))
    requires off < 0
    ensures 0 <= r.1 < DaysInYear(r.0)
    ensures DaysBeforeYear(r.0) + r.1 == DaysBeforeYear(y) + off
    decreases -off
  {
    DaysBeforeYearStep(y - 1);
    var off' := off + DaysInYear(y - 1);
    if off' >= 0 then (y - 1, off') else BackwardYears(y - 1, off')
  }

  /** Finds the month of `y` holding day-of-year `doy`, searching from month `m`. */
  function MonthOf(y: int, doy: int, m: int): (c: Civil)
    requires 1 <= m <= 12
    requires DaysBeforeMonth(y, m) <= doy < DaysInYear(y)
    ensures c.year == y && ValidCivil(c)
    ensures DaysBeforeMonth(y, c.month) + c.day - 1 == doy
    decreases 12 - m
  {
    MonthsFillYear(y);
    if doy < DaysBeforeMonth(y, m + 1) then Civil(y, m, doy - DaysBeforeMonth(y, m) + 1)
    else MonthOf(y, doy, m + 1)
  }

  /** The calendar date of a day number; it is a valid date and maps back to the same day. */
  function CivilFromDays(z: int): (c: Civil)
    ensures ValidCivil(c)
    ensures DaysFromCivil(c) == z
  {
    var yo := if z >= 0 then ForwardYears(1970, z) else BackwardYears(1970, z);
    MonthOf(yo.0, yo.1, 1)
  }

  /** Different valid dates have different day numbers. */
  lemma DaysFromCivilInjective(c1: Civil, c2: Civil)
    requires ValidCivil(c1) && ValidCivil(c2)
    requires DaysFromCivil(c1) == DaysFromCivil(c2)
    ensures c1 == c2
  {
    MonthsFillYear(c1.year);
    MonthsFillYear(c2.year);
    assert DaysBeforeMonth(c1.year, c1.month) + DaysInMonth(c1.year, c1.month) <= DaysInYear(c1.year) by {
      if c1.month < 12 { DaysBeforeMonthGrows(c1.year, c1.month, 13); }
    }
    assert DaysBeforeMonth(c2.year, c2.month) + DaysInMonth(c2.year, c2.month) <= DaysInYear(c2.year) by {
      if c2.month < 12 { DaysBeforeMonthGrows(c2.year, c2.month, 13); }
    }
    if c1.month > 1 { DaysBeforeMonthGrows(c1.year, 1, c1.month); }
    if c2.month > 1 { DaysBeforeMonthGrows(c2.year, 1, c2.month); }
    if c1.year < c2.year {
      DaysBeforeYearGrows(c1.year, c2.year);
      assert false;
    } else if c2.year < c1.year {
      DaysBeforeYearGrows(c2.year, c1.year);
      assert false;
    }
    if c1.month < c2.month {
      DaysBeforeMonthGrows(c1.year, c1.month, c2.month);
      assert false;
    } else if c2.month < c1.month {
      DaysBeforeMonthGrows(c1.year, c2.month, c1.month);
      assert false;
    }
  }

  /** Reading a valid date's day number back gives the same date. */
  lemma CivilRoundTrip(c: Civil)
    requires ValidCivil(c)
    ensures CivilFromDays(DaysFromCivil(c)) == c
  {
    DaysFromCivilInjective(CivilFromDays(DaysFromCivil(c)), c);
  }

  // ---------------------------------------------------------------------
  // Fields as PostgreSQL's EXTRACT reports them

  /** `EXTRACT(YEAR ...)`: PostgreSQL has no year 0, so astronomical year 0 is reported as -1 (1 BC). */
  function ExtractYear(astronomical: int): (y: int)
    ensures y != 0
    ensures astronomical > 0 ==> y == astronomical
    ensures astronomical <= 0 ==> y == astronomical - 1
  {
    if astronomical > 0 then astronomical else astronomical - 1
  }

  /** `EXTRACT(DOW ...)`: 0 is Sunday, 6 is Saturday; day 0 (1970-01-01) was a Thursday. */
  function DayOfWeek(d: int): (w: int)
    ensures 0 <= w < 7
  {
    (d + 4) % 7
  }

  /** `CASE WHEN EXTRACT(DOW ...) IN (0, 6) THEN TRUE ELSE FALSE END`. */
  predicate IsWeekend(d: int) {
    DayOfWeek(d) == 0 || DayOfWeek(d) == 6
  }

  /** The weekday advances by one each day, and weekends are Saturday followed by Sunday. */
  lemma WeekdayCycle(d: int)
    ensures DayOfWeek(d + 1) == (DayOfWeek(d) + 1) % 7
    ensures IsWeekend(d) == IsWeekend(d + 7)
    ensures IsWeekend(d) && IsWeekend(d + 1) <==> DayOfWeek(d) == 6
  {
  }
}
