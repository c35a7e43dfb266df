/** Proleptic Gregorian calendar dates and day numbers, with day 0 on
    1 January 1970. A date is built as `new Date(year, monthIndex, day)`
    builds one: a day past the end of its month rolls over into the next
    month (31 February is 2 or 3 March). Clock readings and time zones
    are outside the model. */
module Calendar {
  type Month = m: int | 1 <= m <= 12 witness 1
  type MonthDay = d: int | 1 <= d <= 31 witness 1

  datatype CivilDate = CivilDate(year: int, month: Month, day: MonthDay)

  predicate IsLeapYear(y: int) {
    y % 4 == 0 && (y % 100 != 0 || y % 400 == 0)
  }

  function DaysInYear(y: int): int {
    if IsLeapYear(y) then 366 else 365
  }

  function DaysInMonth(y: int, m: Month): int {
    if m == 2 then (if IsLeapYear(y) then 29 else 28)
    else if m == 4 || m == 6 || m == 9 || m == 11 then 30
    else 31
  }

  /** A date that names an existing day. */
  predicate Valid(d: CivilDate) {
    d.day <= DaysInMonth(d.year, d.month)
  }

  /** Days of the year before the first of month `m`. */
  function DaysBeforeMonth(y: int, m: Month): (n: int)
    ensures 0 <= n && n + DaysInMonth(y, m) <= DaysInYear(y)
  {
    var leap := if m > 2 && IsLeapYear(y) then 1 else 0;
    leap + match m
      case 1 => 0 case 2 => 31 case 3 => 59 case 4 => 90
      case 5 => 120 case 6 => 151 case 7 => 181 case 8 => 212
      case 9 => 243 case 10 => 273 case 11 => 304 case 12 => 334
  }

  /** The day number of 1 January of year `y`. */
  function YearStart(y: int): int
    decreases if y < 1970 then 1970 - y else y - 1970
  {
    if y == 1970 then 0
    else if y > 1970 then YearStart(y - 1) + DaysInYear(y - 1)
    else YearStart(y + 1) - DaysInYear(y)
  }

  /** Consecutive years: a year is as long as the gap to the next one's start. */
  lemma YearStartStep(y: int)
    ensures YearStart(y + 1) == YearStart(y) + DaysInYear(y)
  {
  }

  /** Days since 1 January 1970 (negative before it). */
  function DayNumber(d: CivilDate): int {
    YearStart(d.year) + DaysBeforeMonth(d.year, d.month) + d.day - 1
  }

  /** An existing day falls inside its own year. */
  lemma DayNumberInYear(d: CivilDate)
    requires Valid(d)
    ensures YearStart(d.year) <= DayNumber(d) < YearStart(d.year + 1)
  {
    YearStartStep(d.year);
  }

  /** Every date of a later year, even a rolled-over one, comes after every
      existing day of an earlier year. */
  lemma {:induction false} LaterYearLater(d: CivilDate, e: CivilDate)
    requires Valid(d) && d.year < e.year
    ensures DayNumber(d) < DayNumber(e)
  {
    DayNumberInYear(d);
    YearStartMonotone(d.year + 1, e.year);
  }

  lemma {:induction false} YearStartMonotone(a: int, b: int)
    requires a <= b
    ensures YearStart(a) <= YearStart(b)
    decreases b - a
  {
    if a < b {
      YearStartMonotone(a, b - 1);
      YearStartStep(b - 1);
    }
  }

  /** On existing days, day numbers follow calendar order and tell dates
      apart. */
  lemma {:induction false} DayNumberOrder(d: CivilDate, e: CivilDate)
    requires Valid(d) && Valid(e)
    ensures DayNumber(d) < DayNumber(e) <==>
      d.year < e.year || (d.year == e.year && (d.month < e.month || (d.month == e.month && d.day < e.day)))
    ensures DayNumber(d) == DayNumber(e) <==> d == e
  {
    if d.year < e.year {
      LaterYearLater(d, e);
    } else if e.year < d.year {
      LaterYearLater(e, d);
    } else if d.month < e.month {
      MonthsLater(d.year, d.month, e.month);
    } else if e.month < d.month {
      MonthsLater(d.year, e.month, d.month);
    }
  }

  lemma MonthsLater(y: int, m: Month, n: Month)
    requires m < n
    ensures DaysBeforeMonth(y, m) + DaysInMonth(y, m) <= DaysBeforeMonth(y, n)
  {
  }
}
