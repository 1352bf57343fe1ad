/**
 * Proleptic Gregorian civil dates and the JavaScript `Date` arithmetic the
 * automation relies on: `new Date(y, m, d)` and `setDate(getDate() + n)`
 * accept a day or month outside its range and carry the excess into the
 * neighbouring month or year.
 *
 * `DayNumber` counts days from 0001-01-01 and is the reference against which
 * the carrying arithmetic is proved.
 */
module Calendar {

  /** A calendar date; `month` runs 1..12 (JavaScript's `getMonth()` is `month - 1`). */
  datatype Date = Date(year: int, month: int, day: int)

  predicate IsLeapYear(y: int) {
    y % 4 == 0 && (y % 100 != 0 || y % 400 == 0)
  }

  function DaysInMonth(y: int, m: int): (n: int)
    requires 1 <= m <= 12
    ensures 28 <= n <= 31
    ensures m == 2 ==> (n == 29 <==> IsLeapYear(y))
  {
    if m == 2 then (if IsLeapYear(y) then 29 else 28)
    else if m == 4 || m == 6 || m == 9 || m == 11 then 30
    else 31
  }

  predicate IsValidDate(d: Date) {
    1 <= d.month <= 12 && 1 <= d.day <= DaysInMonth(d.year, d.month)
  }

  /** A date that exists in the calendar: what a JavaScript `Date` always denotes. */
  type CivilDate = d: Date | IsValidDate(d) witness Date(2000, 1, 1)

  const MsPerDay: int := 86400000

  /** A point in time: a calendar date and the milliseconds elapsed since its midnight. */
  datatype DateTime = DateTime(date: CivilDate, msOfDay: int)

  type Instant = t: DateTime | 0 <= t.msOfDay < MsPerDay witness DateTime(Date(2000, 1, 1), 0)

  /** Chronological order of dates, which is also the order of their 'YYYY-MM-DD' strings. */
  predicate DateLess(a: Date, b: Date) {
    a.year < b.year
    || (a.year == b.year && a.month < b.month)
    || (a.year == b.year && a.month == b.month && a.day < b.day)
  }

  predicate InstantLess(a: Instant, b: Instant) {
    DateLess(a.date, b.date) || (a.date == b.date && a.msOfDay < b.msOfDay)
  }

  predicate InstantLeq(a: Instant, b: Instant) {
    a == b || InstantLess(a, b)
  }

  // ---------------------------------------------------------------------
  // Day numbers: the reference arithmetic
  // ---------------------------------------------------------------------

  /** Days from 0001-01-01 to 1 January of year `y` (negative before year 1). */
  function DaysBeforeYear(y: int): int {
    365 * (y - 1) + (y - 1) / 4 - (y - 1) / 100 + (y - 1) / 400
  }

  /** Days of year `y` before the first of month `m`; `m == 13` gives the length of the year. */
  function DaysBeforeMonth(y: int, m: int): int
    requires 1 <= m <= 13
  {
    var common :=
      if m == 1 then 0 else if m == 2 then 31 else if m == 3 then 59
      else if m == 4 then 90 else if m == 5 then 120 else if m == 6 then 151
      else if m == 7 then 181 else if m == 8 then 212 else if m == 9 then 243
      else if m == 10 then 273 else if m == 11 then 304 else if m == 12 then 334
      else 365;
    common + (if m > 2 && IsLeapYear(y) then 1 else 0)
  }

  /** The ordinal of a day; 0001-01-01 is day 1. */
  function DayNumber(d: Date): int
    requires 1 <= d.month <= 12
  {
    DaysBeforeYear(d.year) + DaysBeforeMonth(d.year, d.month) + d.day
  }

  function YearLength(y: int): int {
    if IsLeapYear(y) then 366 else 365
  }

  /** Stepping past a multiple of 4, 100 or 400 raises the quotient by one; any other step keeps it. */
  lemma Step4(y: int)
    ensures y / 4 - (y - 1) / 4 == (if y % 4 == 0 then 1 else 0)
  {
  }

  lemma Step100(y: int)
    ensures y / 100 - (y - 1) / 100 == (if y % 100 == 0 then 1 else 0)
  {
  }

  lemma Step400(y: int)
    ensures y / 400 - (y - 1) / 400 == (if y % 400 == 0 then 1 else 0)
  {
  }

  lemma YearStep(y: int)
    ensures DaysBeforeYear(y + 1) == DaysBeforeYear(y) + YearLength(y)
  {
    Step4(y);
    Step100(y);
    Step400(y);
    assert y % 400 == 0 ==> y % 100 == 0;
    assert y % 100 == 0 ==> y % 4 == 0;
  }

  lemma MonthStep(y: int, m: int)
    requires 1 <= m <= 12
    ensures DaysBeforeMonth(y, m + 1) == DaysBeforeMonth(y, m) + DaysInMonth(y, m)
  {
  }

  function NextMonth(y: int, m: int): (r: (int, int))
    requires 1 <= m <= 12
    ensures 1 <= r.1 <= 12
  {
    if m == 12 then (y + 1, 1) else (y, m + 1)
  }

  function PrevMonth(y: int, m: int): (r: (int, int))
    requires 1 <= m <= 12
    ensures 1 <= r.1 <= 12
    ensures NextMonth(r.0, r.1) == (y, m)
  {
    if m == 1 then (y - 1, 12) else (y, m - 1)
  }

  /** The first of the next month comes exactly one month-length after the first of this one. */
  lemma FirstOfNextMonth(y: int, m: int)
    requires 1 <= m <= 12
    ensures var (ny, nm) := NextMonth(y, m);
            DayNumber(Date(ny, nm, 1)) == DayNumber(Date(y, m, 1)) + DaysInMonth(y, m)
  {
    MonthStep(y, m);
    if m == 12 {
      YearStep(y);
    }
  }

  // ---------------------------------------------------------------------
  // JavaScript Date normalisation
  // ---------------------------------------------------------------------

  /**
   * The date `d - 1` days after the first of month `m` of year `y`, for any
   * integer `d`: a day past the end of the month carries into the following
   * months, a day below 1 borrows from the preceding ones.
   */
  function Carry(y: int, m: int, d: int): CivilDate
    requires 1 <= m <= 12
    decreases if d < 1 then 1 - d else 0, if d < 1 then 0 else d
  {
    if d < 1 then
      var (py, pm) := PrevMonth(y, m);
      Carry(py, pm, d + DaysInMonth(py, pm))
    else if d > DaysInMonth(y, m) then
      var (ny, nm) := NextMonth(y, m);
      Carry(ny, nm, d - DaysInMonth(y, m))
    else
      Date(y, m, d)
  }

  /** `Carry` moves exactly `d - 1` days on from the first of the month. */
  lemma {:induction false} CarryNumber(y: int, m: int, d: int)
    requires 1 <= m <= 12
    ensures DayNumber(Carry(y, m, d)) == DayNumber(Date(y, m, 1)) + d - 1
    decreases if d < 1 then 1 - d else 0, if d < 1 then 0 else d
  {
    if d < 1 {
      var (py, pm) := PrevMonth(y, m);
      FirstOfNextMonth(py, pm);
      CarryNumber(py, pm, d + DaysInMonth(py, pm));
    } else if d > DaysInMonth(y, m) {
      var (ny, nm) := NextMonth(y, m);
      FirstOfNextMonth(y, m);
      CarryNumber(ny, nm, d - DaysInMonth(y, m));
    }
  }

  /**
   * ECMAScript's MakeDay: `jsMonth` is zero-based and may be any integer;
   * whole years are taken out of it by floor division.
   */
  function MakeDay(y: int, jsMonth: int, d: int): CivilDate {
    Carry(y + jsMonth / 12, jsMonth % 12 + 1, d)
  }

  /** The year the `Date` constructor uses: a year from 0 to 99 means 1900 to 1999. */
  function FullYear(y: int): (r: int)
    ensures !(0 <= y <= 99) ==> r == y
  {
    if 0 <= y <= 99 then 1900 + y else y
  }

  /** `new Date(y, jsMonth, d)`. */
  function NewDate(y: int, jsMonth: int, d: int): CivilDate {
    MakeDay(FullYear(y), jsMonth, d)
  }

  /** `date.setDate(date.getDate() + n)`. */
  function AddDays(date: CivilDate, n: int): CivilDate {
    MakeDay(date.year, date.month - 1, date.day + n)
  }

  /** Milliseconds from `from` to `to`, the value of `to - from` on JavaScript dates. */
  function ElapsedMs(from: Instant, to: Instant): int {
    (DayNumber(to.date) - DayNumber(from.date)) * MsPerDay + (to.msOfDay - from.msOfDay)
  }

  // ---------------------------------------------------------------------
  // Properties of the normalisation
  // ---------------------------------------------------------------------

  /** An in-range day is left as it is. */
  lemma CarryInRange(y: int, m: int, d: int)
    requires 1 <= m <= 12 && 1 <= d <= DaysInMonth(y, m)
    ensures Carry(y, m, d) == Date(y, m, d)
  {
  }

  /** A positive day never moves before its month: it stays put or lands in a later month. */
  lemma {:induction false} CarryForward(y: int, m: int, d: int)
    requires 1 <= m <= 12 && d >= 1
    ensures var r := Carry(y, m, d);
            r == Date(y, m, d) || r.year > y || (r.year == y && r.month > m)
    decreases d
  {
    if d > DaysInMonth(y, m) {
      var (ny, nm) := NextMonth(y, m);
      CarryForward(ny, nm, d - DaysInMonth(y, m));
    }
  }

  /** A day beyond the end of the month lands in the next month, offset by the month's length. */
  lemma {:induction false} CarryOverflow(y: int, m: int, d: int)
    requires 1 <= m <= 12
    requires var (ny, nm) := NextMonth(y, m);
             DaysInMonth(y, m) < d <= DaysInMonth(y, m) + DaysInMonth(ny, nm)
    ensures var (ny, nm) := NextMonth(y, m);
            Carry(y, m, d) == Date(ny, nm, d - DaysInMonth(y, m))
  {
  }

  /** Shifting by `n` days moves the day number by exactly `n`. */
  lemma AddDaysShifts(date: CivilDate, n: int)
    ensures DayNumber(AddDays(date, n)) == DayNumber(date) + n
  {
    assert (date.month - 1) / 12 == 0 && (date.month - 1) % 12 + 1 == date.month;
    CarryNumber(date.year, date.month, date.day + n);
  }

  /** `MakeDay` lands `d - 1` days after the first of the normalised month. */
  lemma MakeDayNumber(y: int, jsMonth: int, d: int)
    ensures DayNumber(MakeDay(y, jsMonth, d))
            == DayNumber(Date(y + jsMonth / 12, jsMonth % 12 + 1, 1)) + d - 1
  {
    CarryNumber(y + jsMonth / 12, jsMonth % 12 + 1, d);
  }

  /** The first of a valid date's month is never after it, and its last carries into the next month. */
  lemma DayWithinMonth(d: CivilDate)
    ensures DayNumber(Date(d.year, d.month, 1)) <= DayNumber(d)
    ensures var (ny, nm) := NextMonth(d.year, d.month);
            DayNumber(d) < DayNumber(Date(ny, nm, 1))
  {
    FirstOfNextMonth(d.year, d.month);
  }

  /** The first day of the month with index `i` (year `i / 12`, zero-based month `i % 12`). */
  function FirstOfMonth(i: int): Date {
    Date(i / 12, i % 12 + 1, 1)
  }

  /** The normalised month of `MakeDay(y, jsMonth, _)` has index `12 * y + jsMonth`. */
  lemma MakeDayMonth(y: int, jsMonth: int)
    ensures FirstOfMonth(12 * y + jsMonth) == Date(y + jsMonth / 12, jsMonth % 12 + 1, 1)
  {
  }

  /** The string order of two valid dates is their day order. */
  lemma DateLessIsDayOrder(a: CivilDate, b: CivilDate)
    ensures DateLess(a, b) <==> DayNumber(a) < DayNumber(b)
    ensures a == b <==> DayNumber(a) == DayNumber(b)
  {
    if a.year != b.year {
      if a.year < b.year {
        YearsApart(a, b);
      } else {
        YearsApart(b, a);
      }
    } else if a.month != b.month {
      if a.month < b.month {
        MonthsApart(a, b);
      } else {
        MonthsApart(b, a);
      }
    }
  }

  lemma MonthsApart(a: CivilDate, b: CivilDate)
    requires a.year == b.year && a.month < b.month
    ensures DayNumber(a) < DayNumber(b)
  {
    MonthStep(a.year, a.month);
  }

  lemma YearsApart(a: CivilDate, b: CivilDate)
    requires a.year < b.year
    ensures DayNumber(a) < DayNumber(b)
  {
    MonthStep(a.year, a.month);
    YearStep(a.year);
    YearsGrow(a.year + 1, b.year);
  }

  lemma {:induction false} YearsGrow(y: int, z: int)
    requires y <= z
    ensures DaysBeforeYear(y) <= DaysBeforeYear(z)
    decreases z - y
  {
    if y < z {
      YearStep(y);
      YearsGrow(y + 1, z);
    }
  }

  /** Chronological order is a strict total order on valid dates. */
  lemma DateOrderTotal(a: CivilDate, b: CivilDate)
    ensures DateLess(a, b) || a == b || DateLess(b, a)
    ensures !(DateLess(a, b) && DateLess(b, a))
  {
  }

  /** The sign of an elapsed time follows the order of the instants. */
  lemma ElapsedSign(a: Instant, b: Instant)
    ensures ElapsedMs(a, b) < 0 <==> InstantLess(b, a)
    ensures ElapsedMs(a, b) == 0 <==> a == b
  {
    DateLessIsDayOrder(a.date, b.date);
    DateLessIsDayOrder(b.date, a.date);
    var k := DayNumber(b.date) - DayNumber(a.date);
    assert ElapsedMs(a, b) == k * MsPerDay + (b.msOfDay - a.msOfDay);
  }

  /** An instant at a midnight on an earlier day is at least a full day back. */
  lemma ElapsedToEarlierMidnight(a: Instant, b: Instant)
    requires DateLess(b.date, a.date) && b.msOfDay == 0
    ensures ElapsedMs(a, b) <= -MsPerDay
  {
    DateLessIsDayOrder(b.date, a.date);
    var k := DayNumber(b.date) - DayNumber(a.date);
    assert ElapsedMs(a, b) == k * MsPerDay - a.msOfDay;
  }
}
