/** The plain Gregorian calendar: leap years, month lengths, day counting and the
    calendar successor (RFC 3339, section 5.7 and Appendix C). Nothing here knows the
    closed form that `build.rs` uses; it is the reference that form is proved against. */
module Gregorian {

  datatype Date = Date(year: int, month: int, day: int)

  predicate IsLeap(y: int) {
    y % 4 == 0 && (y % 100 != 0 || y % 400 == 0)
  }

  function DaysInMonth(y: int, m: int): int
    requires 1 <= m <= 12
  {
    if m == 2 then (if IsLeap(y) then 29 else 28)
    else if m == 4 || m == 6 || m == 9 || m == 11 then 30
    else 31
  }

  predicate Valid(date: Date) {
    1 <= date.month <= 12 && 1 <= date.day <= DaysInMonth(date.year, date.month)
  }

  /** Days from the first of January of year `y` to the first of month `m`. */
  function DaysBeforeMonth(y: int, m: int): int
    requires 1 <= m <= 12
  {
    if m == 1 then 0 else DaysBeforeMonth(y, m - 1) + DaysInMonth(y, m - 1)
  }

  function DaysInYear(y: int): int {
    DaysBeforeMonth(y, 12) + DaysInMonth(y, 12)
  }

  /** Days from 1970-01-01 to the first of January of year `y`, one year at a time. */
  function DaysBeforeYear(y: int): int
    decreases if y >= 1970 then y - 1970 else 1970 - y
  {
    if y == 1970 then 0
    else if y > 1970 then DaysBeforeYear(y - 1) + DaysInYear(y - 1)
    else DaysBeforeYear(y + 1) - DaysInYear(y)
  }

  /** Days since 1970-01-01. */
  function DayNumber(date: Date): int
    requires Valid(date)
  {
    DaysBeforeYear(date.year) + DaysBeforeMonth(date.year, date.month) + date.day - 1
  }

  /** The next day on the calendar. */
  function Successor(date: Date): Date
    requires Valid(date)
  {
    if date.day < DaysInMonth(date.year, date.month) then date.(day := date.day + 1)
    else if date.month < 12 then Date(date.year, date.month + 1, 1)
    else Date(date.year + 1, 1, 1)
  }

  predicate Before(a: Date, b: Date) {
    a.year < b.year
    || (a.year == b.year && (a.month < b.month || (a.month == b.month && a.day < b.day)))
  }

  lemma MonthTable(y: int)
    ensures DaysBeforeMonth(y, 1) == 0 && DaysBeforeMonth(y, 2) == 31
    ensures var l := if IsLeap(y) then 1 else 0;
      && DaysBeforeMonth(y, 3) == 59 + l && DaysBeforeMonth(y, 4) == 90 + l
      && DaysBeforeMonth(y, 5) == 120 + l && DaysBeforeMonth(y, 6) == 151 + l
      && DaysBeforeMonth(y, 7) == 181 + l && DaysBeforeMonth(y, 8) == 212 + l
      && DaysBeforeMonth(y, 9) == 243 + l && DaysBeforeMonth(y, 10) == 273 + l
      && DaysBeforeMonth(y, 11) == 304 + l && DaysBeforeMonth(y, 12) == 334 + l
      && DaysInYear(y) == 365 + l
  {
    assert DaysBeforeMonth(y, 2) == 31;
    assert DaysBeforeMonth(y, 3) == 59 + (if IsLeap(y) then 1 else 0);
    assert DaysBeforeMonth(y, 5) == DaysBeforeMonth(y, 3) + 61;
    assert DaysBeforeMonth(y, 7) == DaysBeforeMonth(y, 5) + 61;
    assert DaysBeforeMonth(y, 9) == DaysBeforeMonth(y, 7) + 62;
    assert DaysBeforeMonth(y, 11) == DaysBeforeMonth(y, 9) + 61;
  }

  /** Leap days among the years 1..y, by the inclusion-exclusion of the leap rule. */
  function LeapDays(y: int): int {
    y / 4 - y / 100 + y / 400
  }

  lemma LeapDaysStep(y: int)
    ensures LeapDays(y) == LeapDays(y - 1) + (if IsLeap(y) then 1 else 0)
  {
    assert y / 4 == (y - 1) / 4 + (if y % 4 == 0 then 1 else 0);
    assert y / 100 == (y - 1) / 100 + (if y % 100 == 0 then 1 else 0);
    assert y / 400 == (y - 1) / 400 + (if y % 400 == 0 then 1 else 0);
    assert y % 100 == 0 ==> y % 4 == 0;
    assert y % 400 == 0 ==> y % 100 == 0;
  }

  /** The recursive count of days before a year, in closed form. */
  lemma {:induction false} DaysBeforeYearClosed(y: int)
    ensures DaysBeforeYear(y) == 365 * (y - 1970) + LeapDays(y - 1) - 477
    decreases if y >= 1970 then y - 1970 else 1970 - y
  {
    if y > 1970 {
      DaysBeforeYearClosed(y - 1);
      MonthTable(y - 1);
      LeapDaysStep(y - 1);
    } else if y < 1970 {
      DaysBeforeYearClosed(y + 1);
      MonthTable(y);
      LeapDaysStep(y);
    }
  }

  lemma NextYear(y: int)
    ensures DaysBeforeYear(y + 1) == DaysBeforeYear(y) + DaysInYear(y)
  {
  }

  /** One step on the calendar is one more day counted. */
  lemma SuccessorCounts(date: Date)
    requires Valid(date)
    ensures Valid(Successor(date)) && DayNumber(Successor(date)) == DayNumber(date) + 1
  {
    NextYear(date.year);
  }

  lemma {:induction false} YearsGrow(y: int, z: int)
    requires y <= z
    ensures DaysBeforeYear(z) >= DaysBeforeYear(y) + 365 * (z - y)
    decreases z - y
  {
    if y < z {
      YearsGrow(y, z - 1);
      NextYear(z - 1);
      MonthTable(z - 1);
    }
  }

  lemma WithinYear(date: Date)
    requires Valid(date)
    ensures DaysBeforeYear(date.year) <= DayNumber(date) < DaysBeforeYear(date.year + 1)
  {
    NextYear(date.year);
    MonthTable(date.year);
  }

  /** Day numbers order dates exactly as (year, month, day) tuples do. */
  lemma DayNumberOrders(a: Date, b: Date)
    requires Valid(a) && Valid(b)
    ensures Before(a, b) <==> DayNumber(a) < DayNumber(b)
    ensures a == b <==> DayNumber(a) == DayNumber(b)
  {
    if Before(a, b) {
      BeforeIsSmaller(a, b);
    } else if a != b {
      BeforeIsSmaller(b, a);
    }
  }

  lemma BeforeIsSmaller(a: Date, b: Date)
    requires Valid(a) && Valid(b) && Before(a, b)
    ensures DayNumber(a) < DayNumber(b)
  {
    if a.year < b.year {
      WithinYear(a);
      WithinYear(b);
      YearsGrow(a.year + 1, b.year);
    } else {
      MonthTable(a.year);
    }
  }
}
