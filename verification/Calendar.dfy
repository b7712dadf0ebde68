/** The proleptic Gregorian calendar, and the civil date of a day by splitting off 400-year intervals. */
module Calendar {

  datatype Civil = Civil(year: int, month: int, day: int)

  // ----- the calendar (section 21.4.1 of ECMA-262)

  predicate Leap(y: int) {
    y % 4 == 0 && (y % 100 != 0 || y % 400 == 0)
  }

  /** The day number of the first day of a year; day 0 is the first of January 1970. */
  function DayFromYear(y: int): int {
    365 * (y - 1970) + (y - 1969) / 4 - (y - 1901) / 100 + (y - 1601) / 400
  }

  /** Years follow one another, with 365 days, or 366 in leap years. */
  lemma YearLength(y: int)
    ensures DayFromYear(y + 1) == DayFromYear(y) + 365 + (if Leap(y) then 1 else 0)
  {
    var c, r := y / 400, y % 400;
    Shift400(r, c);
    Shift400(r + 1, c);
    assert 400 * c + r == y;
    YearLengthFirst400(r);
  }

  lemma YearLengthFirst400(y: nat)
    requires y < 400
    ensures DayFromYear(y + 1) == DayFromYear(y) + 365 + (if Leap(y) then 1 else 0)
  {
    assert (y - 1968) / 4 - (y - 1969) / 4 == if y % 4 == 0 then 1 else 0;
    assert (y - 1900) / 100 - (y - 1901) / 100 == if y % 100 == 0 then 1 else 0;
    assert (y - 1600) / 400 - (y - 1601) / 400 == if y % 400 == 0 then 1 else 0;
  }

  /** The calendar repeats every 400 years, which have 146097 days. */
  lemma Shift400(y: int, k: int)
    ensures DayFromYear(400 * k + y) == DayFromYear(y) + 146097 * k
    ensures Leap(400 * k + y) <==> Leap(y)
  {
    assert (400 * k + y - 1969) / 4 == 100 * k + (y - 1969) / 4;
    assert (400 * k + y - 1901) / 100 == 4 * k + (y - 1901) / 100;
    assert (400 * k + y - 1601) / 400 == k + (y - 1601) / 400;
    LeapShift(y, k);
  }

  lemma LeapShift(y: int, k: int)
    ensures Leap(400 * k + y) <==> Leap(y)
  {
    assert (400 * k + y) / 4 == 100 * k + y / 4;
    assert (400 * k + y) / 100 == 4 * k + y / 100;
    assert (400 * k + y) / 400 == k + y / 400;
  }

  function DaysBefore(month: int, leap: bool): int
    requires 1 <= month <= 13
  {
    [0, 31, 59, 90, 120, 151, 181, 212, 243, 273, 304, 334, 365][month - 1] + (if leap && month > 2 then 1 else 0)
  }

  function DaysInMonth(month: int, leap: bool): int
    requires 1 <= month <= 12
  {
    DaysBefore(month + 1, leap) - DaysBefore(month, leap)
  }

  predicate Valid(c: Civil) {
    1 <= c.month <= 12 && 1 <= c.day <= DaysInMonth(c.month, Leap(c.year))
  }

  function DayNumber(c: Civil): int
    requires 1 <= c.month <= 12
  {
    DayFromYear(c.year) + DaysBefore(c.month, Leap(c.year)) + c.day - 1
  }

  /** February has 29 days in leap years and 28 in others; April, June, September and November have 30. */
  lemma {:induction false} MonthLengths(year: int, month: int)
    requires 1 <= month <= 12
    ensures DaysInMonth(month, Leap(year)) ==
            if month == 2 then (if year % 4 == 0 && (year % 100 != 0 || year % 400 == 0) then 29 else 28)
            else if month == 4 || month == 6 || month == 9 || month == 11 then 30 else 31
  {}

  /** Counting from the first of January 1970, the day after the last of a month is the first of the next. */
  lemma {:induction false} NextDay(c: Civil)
    requires Valid(c)
    ensures var leap := c.year % 4 == 0 && (c.year % 100 != 0 || c.year % 400 == 0);
            var last := [31, if leap then 29 else 28, 31, 30, 31, 30, 31, 31, 30, 31, 30, 31][c.month - 1];
            var next := if c.day < last then Civil(c.year, c.month, c.day + 1)
                        else if c.month < 12 then Civil(c.year, c.month + 1, 1) else Civil(c.year + 1, 1, 1);
            1 <= c.day <= last && Valid(next) && DayNumber(next) == DayNumber(c) + 1
    ensures Valid(Civil(1970, 1, 1)) && DayNumber(Civil(1970, 1, 1)) == 0
  {
    hide DaysBefore, Leap, DayFromYear;
    YearLength(c.year);
    MonthLengths(c.year, c.month);
    NextMonthStarts(c.year, c.month);
  }

  lemma {:induction false} NextMonthStarts(year: int, month: int)
    requires 1 <= month <= 12
    ensures (forall leap :: DaysBefore(1, leap) == 0) && DayFromYear(1970) == 0
    ensures DaysBefore(13, Leap(year)) == 365 + (if Leap(year) then 1 else 0)
    ensures DaysInMonth(month, Leap(year)) >= 1 && (month < 12 ==> DaysInMonth(month + 1, Leap(year)) >= 1)
    ensures DaysInMonth(1, Leap(year + 1)) >= 1 && DaysInMonth(1, Leap(1970)) >= 1
  {
    hide Leap;
  }

  lemma WithinYear(c: Civil)
    requires Valid(c)
    ensures DayFromYear(c.year) <= DayNumber(c) < DayFromYear(c.year + 1)
  {
    YearLength(c.year);
    MonthsGrow(c.month, 12, Leap(c.year));
  }

  lemma {:induction false} YearsGrow(y: int, z: int)
    requires y <= z
    ensures DayFromYear(y) + 365 * (z - y) <= DayFromYear(z)
    decreases z - y
  {
    if y < z {
      YearsGrow(y, z - 1);
      YearLength(z - 1);
    }
  }

  /** A day has one date only. */
  lemma OneDate(a: Civil, b: Civil)
    requires Valid(a) && Valid(b) && DayNumber(a) == DayNumber(b)
    ensures a == b
  {
    hide DayFromYear, DaysBefore, Leap;
    WithinYear(a);
    WithinYear(b);
    if a.year < b.year { YearsGrow(a.year + 1, b.year); }
    if b.year < a.year { YearsGrow(b.year + 1, a.year); }
    MonthsGrow(a.month, b.month, Leap(a.year));
    MonthsGrow(b.month, a.month, Leap(a.year));
  }

  lemma MonthsGrow(m: int, n: int, leap: bool)
    requires 1 <= m <= 12 && 1 <= n <= 12
    ensures m < n ==> DaysBefore(m + 1, leap) <= DaysBefore(n, leap)
    ensures 0 <= DaysBefore(m, leap) && DaysBefore(m + 1, leap) <= DaysBefore(13, leap)
    ensures DaysBefore(13, leap) == 365 + (if leap then 1 else 0)
  {
  }

  // ----- the civil date of a day, as a date object computes it

  /** The last year that starts on or before the day, searching upwards. */
  function YearFrom(day: int, y: int): (r: int)
    requires DayFromYear(y) <= day
    ensures DayFromYear(r) <= day < DayFromYear(r + 1)
    decreases day - DayFromYear(y)
  {
    YearLength(y);
    if day < DayFromYear(y + 1) then y else YearFrom(day, y + 1)
  }

  function YearFromDay(day: int): (r: int)
    ensures DayFromYear(r) <= day < DayFromYear(r + 1)
  {
    var start := 1970 + day / 365;
    assert DayFromYear(start) <= day || day >= 0 by {
      if day < 0 { YearsGrow(start, 1970); }
    }
    YearFrom(day, if day >= 0 then 1970 else start)
  }

  /** The first month whose end is after the day. */
  function MonthFrom(dayInYear: int, leap: bool, m: int): (r: int)
    requires 1 <= m <= 12 && DaysBefore(m, leap) <= dayInYear < DaysBefore(13, leap)
    ensures 1 <= r <= 12 && DaysBefore(r, leap) <= dayInYear < DaysBefore(r + 1, leap)
    decreases 12 - m
  {
    if dayInYear < DaysBefore(m + 1, leap) then m else MonthFrom(dayInYear, leap, m + 1)
  }

  function CivilFromDay(day: int): (c: Civil)
    ensures Valid(c) && DayNumber(c) == day
  {
    var year := YearFromDay(day);
    YearLength(year);
    var dayInYear := day - DayFromYear(year);
    var month := MonthFrom(dayInYear, Leap(year), 1);
    Civil(year, month, dayInYear - DaysBefore(month, Leap(year)) + 1)
  }

  // ----- the 400-year split

  const DAYS_IN_400_YEARS := 146097

  /** The date of any day, from a date object that is only given days within 400 years of day 0, well inside its range. */
  function SplitCivil(days: int): Civil {
    var absDays := if days < 0 then -days else days;
    var sign := if days < 0 then -1 else 1;
    var num400YearIntervals := absDays / DAYS_IN_400_YEARS;
    var remaining := sign * (absDays % DAYS_IN_400_YEARS);
    var date := CivilFromDay(remaining);
    date.(year := sign * num400YearIntervals * 400 + date.year)
  }

  /** The split gives the date of the day in the proleptic Gregorian calendar, for every day. */
  lemma SplitIsTrueDate(days: int)
    ensures Valid(SplitCivil(days)) && DayNumber(SplitCivil(days)) == days
    ensures SplitCivil(days) == CivilFromDay(days)
  {
    hide DayFromYear, CivilFromDay, DaysBefore;
    var absDays := if days < 0 then -days else days;
    var sign := if days < 0 then -1 else 1;
    var k := sign * (absDays / DAYS_IN_400_YEARS);
    var remaining := sign * (absDays % DAYS_IN_400_YEARS);
    assert remaining + DAYS_IN_400_YEARS * k == days;
    var date := CivilFromDay(remaining);
    Shift400(date.year, k);
    OneDate(SplitCivil(days), CivilFromDay(days));
  }
}
