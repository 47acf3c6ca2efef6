/**
 * Proleptic Gregorian dates as the calendar helper sees them through
 * JavaScript's `Date`: a (year, month, day) triple with the month numbered
 * 0..11 and the day 1-based.  Days are counted from 1 January 1970, which
 * was a Thursday (weekday 4, with Sunday = 0).
 */
module Dates {

  /** A weekday index, Sunday = 0 .. Saturday = 6. */
  type Weekday = w: int | 0 <= w < 7

  datatype Date = Date(year: int, month: int, day: int)

  predicate IsLeapYear(y: int)
  {
    y % 4 == 0 && (y % 100 != 0 || y % 400 == 0)
  }

  /** Length of month `m` (0-based) of year `y`. */
  function DaysInMonth(y: int, m: int): (n: int)
    requires 0 <= m < 12
    ensures 28 <= n <= 31
    ensures n == 29 <==> m == 1 && IsLeapYear(y)
    ensures n == 28 <==> m == 1 && !IsLeapYear(y)
    ensures n == 30 <==> m == 3 || m == 5 || m == 8 || m == 10
  {
    if m == 1 then (if IsLeapYear(y) then 29 else 28)
    else if m == 3 || m == 5 || m == 8 || m == 10 then 30
    else 31
  }

  predicate ValidDate(d: Date)
  {
    0 <= d.month < 12 && 1 <= d.day <= DaysInMonth(d.year, d.month)
  }

  /** Days of year `y` that precede the 1st of month `m`; `m == 12` gives the year's length. */
  function DaysBeforeMonth(y: int, m: int): int
    requires 0 <= m <= 12
  {
    var common := [0, 31, 59, 90, 120, 151, 181, 212, 243, 273, 304, 334, 365][m];
    if IsLeapYear(y) && m >= 2 then common + 1 else common
  }

  /** The cumulative table agrees with the month lengths. */
  lemma DaysBeforeMonthStep(y: int, m: int)
    requires 0 <= m < 12
    ensures DaysBeforeMonth(y, m + 1) == DaysBeforeMonth(y, m) + DaysInMonth(y, m)
  {
    if m == 0 {} else if m == 1 {} else if m == 2 {} else if m == 3 {}
    else if m == 4 {} else if m == 5 {} else if m == 6 {} else if m == 7 {}
    else if m == 8 {} else if m == 9 {} else if m == 10 {} else {}
  }

  /** Leap years among 1..x (for x >= 1; the same closed form below 1). */
  function LeapYearsThrough(x: int): int
  {
    x / 4 - x / 100 + x / 400
  }

  /** Days from 1 January 1970 to 1 January of year `y` (negative before 1970). */
  function DaysBeforeYear(y: int): int
  {
    365 * (y - 1970) + LeapYearsThrough(y - 1) - LeapYearsThrough(1969)
  }

  lemma DivStep(y: int, k: int)
    requires k == 4 || k == 100 || k == 400
    ensures y / k - (y - 1) / k == if y % k == 0 then 1 else 0
  {
    if k == 4 {
    } else if k == 100 {
    } else {
    }
  }

  /** Divisibility by 400 implies divisibility by 100, which implies divisibility by 4. */
  lemma Div400Div100(y: int)
    requires y % 400 == 0
    ensures y % 100 == 0
  {
    var q := y / 400;
    assert y == 100 * (4 * q);
  }

  lemma Div100Div4(y: int)
    requires y % 100 == 0
    ensures y % 4 == 0
  {
    var q := y / 100;
    assert y == 4 * (25 * q);
  }

  lemma LeapYearsStep(y: int)
    ensures LeapYearsThrough(y) - LeapYearsThrough(y - 1) == if IsLeapYear(y) then 1 else 0
  {
    DivStep(y, 4);
    DivStep(y, 100);
    DivStep(y, 400);
    if y % 400 == 0 {
      Div400Div100(y);
    }
    if y % 100 == 0 {
      Div100Div4(y);
    }
  }

  /** Consecutive years are a year's length apart. */
  lemma YearStep(y: int)
    ensures DaysBeforeYear(y + 1) == DaysBeforeYear(y) + DaysBeforeMonth(y, 12)
  {
    LeapYearsStep(y);
  }

  /** Days from 1 January 1970 to `d`. */
  function DayNumber(d: Date): int
    requires 0 <= d.month < 12
  {
    DaysBeforeYear(d.year) + DaysBeforeMonth(d.year, d.month) + d.day - 1
  }

  /** The weekday of `d`, as JavaScript's `getDay()`. */
  function DayOfWeek(d: Date): (w: Weekday)
    requires 0 <= d.month < 12
  {
    (DayNumber(d) + 4) % 7
  }

  /** The calendar day after `d`. */
  function NextDay(d: Date): (r: Date)
    requires ValidDate(d)
    ensures ValidDate(r)
  {
    if d.day < DaysInMonth(d.year, d.month) then d.(day := d.day + 1)
    else if d.month < 11 then Date(d.year, d.month + 1, 1)
    else Date(d.year + 1, 0, 1)
  }

  /** 1 January 1970 is day 0 and a Thursday. */
  lemma Epoch()
    ensures DayNumber(Date(1970, 0, 1)) == 0 && DayOfWeek(Date(1970, 0, 1)) == 4
  {
  }

  /** The day count advances by one from each date to the next, so with
      `Epoch` it numbers the Gregorian calendar without gaps. */
  lemma {:induction false} DayNumberSuccessor(d: Date)
    requires ValidDate(d)
    ensures DayNumber(NextDay(d)) == DayNumber(d) + 1
  {
    if d.day < DaysInMonth(d.year, d.month) {
    } else if d.month < 11 {
      DaysBeforeMonthStep(d.year, d.month);
    } else {
      DaysBeforeMonthStep(d.year, 11);
      YearStep(d.year);
    }
  }

  /** The weekday advances cyclically from each date to the next. */
  lemma DayOfWeekSuccessor(d: Date)
    requires ValidDate(d)
    ensures DayOfWeek(NextDay(d)) == (DayOfWeek(d) + 1) % 7
  {
    DayNumberSuccessor(d);
    ModShift(DayNumber(d) + 4, 1);
  }

  /** Adding to a residue modulo 7 commutes with taking the residue. */
  lemma ModShift(a: int, i: int)
    ensures (a % 7 + i) % 7 == (a + i) % 7
  {
    var q := a / 7;
    assert a == 7 * q + a % 7;
    assert a + i == 7 * q + (a % 7 + i);
  }

  /** The (year, month) that JavaScript's `Date` carries month `m` of year
      `y` to, for the months 0..12 the calendar helper passes: month 12 is
      January of the next year. */
  function CarryMonth(y: int, m: int): (r: (int, int))
    requires 0 <= m <= 12
    ensures 0 <= r.1 < 12 && 12 * r.0 + r.1 == 12 * y + m
  {
    if m == 12 then (y + 1, 0) else (y, m)
  }

  /**
   * JavaScript's `new Date(y, m, d)` for a month `m` in 0..12 and a day `d`
   * between 0 and the length of the carried month: the month is carried
   * into the year first, then day 0 steps back to the last day of the month
   * before.
   */
  function NewDate(y: int, m: int, d: int): (r: Date)
    requires 0 <= m <= 12 && 0 <= d <= DaysInMonth(CarryMonth(y, m).0, CarryMonth(y, m).1)
    ensures ValidDate(r)
  {
    var (year, month) := CarryMonth(y, m);
    if d >= 1 then Date(year, month, d)
    else if month == 0 then Date(year - 1, 11, 31)
    else Date(year, month - 1, DaysInMonth(year, month - 1))
  }

  /** `NewDate(y, m, d)` is `d - 1` days after the 1st of the carried month:
      the day count that JavaScript's `Date` arithmetic is defined by. */
  lemma NewDateDayNumber(y: int, m: int, d: int)
    requires 0 <= m <= 12 && 0 <= d <= DaysInMonth(CarryMonth(y, m).0, CarryMonth(y, m).1)
    ensures DayNumber(NewDate(y, m, d)) == DayNumber(Date(CarryMonth(y, m).0, CarryMonth(y, m).1, 1)) + d - 1
  {
    var (year, month) := CarryMonth(y, m);
    if d == 0 && month == 0 {
      DaysBeforeMonthStep(year - 1, 11);
      YearStep(year - 1);
    } else if d == 0 {
      DaysBeforeMonthStep(year, month - 1);
    }
  }
}
