/** The calendar computations of the datepicker: month lengths, ISO weeks, the day of the
    year, the grid of a month and the month it draws. */
module Datepicker {
  import opened Calendar

  const MS_PER_DAY: int := 86400000

  // ---- Months ----

  /** `_getDaysInMonth`: what day 32 of a month overshoots. */
  function DaysInMonth(y: int, m: int): int {
    32 - DayOfMonth(NewDate(y, m, 32))
  }

  /** `_getFirstDayOfMonth` */
  function FirstDayOfMonth(y: int, m: int): int {
    Weekday(NewDate(y, m, 1))
  }

  lemma LengthsInRange(y: int, m: int)
    requires 0 <= m < 12
    ensures 28 <= MonthLength(y, m) <= 31
  {
  }

  lemma NextMonthStarts(y: int, m: int)
    requires 0 <= m < 12
    ensures DayNumber(y, m, 1) + MonthLength(y, m) ==
            if m < 11 then DayNumber(y, m + 1, 1) else DayNumber(y + 1, 0, 1)
  {
    MonthStarts(y);
    NextYearStart(y);
    hide YearStart, IsLeap;
    assert m < 11 ==> MonthStart(y, m + 1) == MonthStart(y, m) + MonthLength(y, m);
  }

  /** For every year and month, also out of range, it is the length of the month meant. */
  lemma DaysInMonthIsLength(y: int, m: int)
    ensures DaysInMonth(y, m) == MonthLength(FullYear(y) + m / 12, m % 12)
  {
    hide YearStart, MonthStart, Year, Month, DayOfMonth, MonthLength, FullYear, IsLeap, ValidDate;
    var y', m' := FullYear(y) + m / 12, m % 12;
    assert NewDate(y, m, 32) == DayNumber(y', m', 32);
    assert DaysInMonth(y, m) == 32 - DayOfMonth(NewDate(y, m, 32));
    hide NewDate, DaysInMonth, DayNumber;
    Day32(y', m');
  }

  lemma Day32(y: int, m: int)
    requires 0 <= m < 12
    ensures DayOfMonth(DayNumber(y, m, 32)) == 32 - MonthLength(y, m)
  {
    hide YearStart, MonthStart, Year, Month, DayOfMonth, MonthLength, IsLeap, ValidDate, DayNumber;
    var l := MonthLength(y, m);
    var y', m' := if m < 11 then y else y + 1, if m < 11 then m + 1 else 0;
    LengthsInRange(y, m);
    LengthsInRange(y', m');
    NextMonthStarts(y, m);
    DaysInto(y, m, l, y', m');
    DateParts(y', m', 32 - l);
  }

  lemma DaysInto(y: int, m: int, l: int, y': int, m': int)
    requires 0 <= m < 12 && 0 <= m' < 12 && 28 <= l <= 31 && MonthLength(y', m') >= 28
    requires DayNumber(y, m, 1) + l == DayNumber(y', m', 1)
    ensures DayNumber(y, m, 32) == DayNumber(y', m', 32 - l) && ValidDate(y', m', 32 - l)
  {
    hide YearStart, MonthStart, MonthLength;
  }

  /** Overflowing days carry into the next month. */
  lemma MonthCarry(y: int, m: int, d: int)
    ensures NewDate(y, m + 1, d) == NewDate(y, m, d + DaysInMonth(y, m))
  {
    hide YearStart, MonthStart, MonthLength, IsLeap, DaysInMonth;
    DaysInMonthIsLength(y, m);
    NextMonthStarts(FullYear(y) + m / 12, m % 12);
    NextMonthNumber(m);
  }

  lemma NextMonthNumber(m: int)
    ensures if m % 12 < 11 then (m + 1) / 12 == m / 12 && (m + 1) % 12 == m % 12 + 1
            else (m + 1) / 12 == m / 12 + 1 && (m + 1) % 12 == 0
  {
  }

  /** The parts of a date given with a day that its month has. */
  lemma NewDateParts(y: int, m: int, d: int)
    requires 1 <= d <= DaysInMonth(y, m)
    ensures var n := NewDate(y, m, d);
      Year(n) == FullYear(y) + m / 12 && Month(n) == m % 12 && DayOfMonth(n) == d
  {
    hide DayNumber, MonthLength, Year, Month, DayOfMonth, DaysInMonth;
    DaysInMonthIsLength(y, m);
    DateParts(FullYear(y) + m / 12, m % 12, d);
  }

  // ---- Rounding away a clock shift ----

  /** `Math.round( a / b )` */
  function Round(a: int, b: int): int
    requires b > 0
  {
    (2 * a + b) / (2 * b)
  }

  /** A difference of `k` local midnights is rounded to `k` days exactly when the clocks were
      shifted by less than 12 hours in between (12 hours back included). */
  lemma RoundsToDays(k: int, shift: int)
    ensures Round(k * MS_PER_DAY + shift, MS_PER_DAY) == k <==> -43200000 <= shift < 43200000
  {
    var a := 2 * (k * MS_PER_DAY + shift) + MS_PER_DAY;
    var q := a / (2 * MS_PER_DAY);
    assert a == 172800000 * k + 2 * shift + 86400000;
    assert 172800000 * q <= a < 172800000 * q + 172800000;
  }

  // ---- ISO weeks ----

  /** The Thursday of the Monday-to-Sunday week of day `n`. */
  function Thursday(n: int): int {
    n - (Weekday(n) + 6) % 7 + 3
  }

  /** The week number of section 2.2.10 of ISO 8601:2004: week 1 holds the first Thursday of
      the year, and the weeks of a year are counted from it. */
  function WeekNumber(n: int): int
    decreases Thursday(n) - YearStart(Year(Thursday(n)))
  {
    if Year(Thursday(n) - 7) != Year(Thursday(n)) then 1
    else WeekBefore(n); WeekNumber(n - 7) + 1
  }

  lemma WeekBefore(n: int)
    ensures Thursday(n - 7) == Thursday(n) - 7 && Weekday(n - 7) == Weekday(n)
  {
  }

  /** Counting Thursdays: the year day of the Thursday says how many came before. */
  lemma {:induction false} WeekNumberCounts(n: int)
    ensures WeekNumber(n) == (Thursday(n) - YearStart(Year(Thursday(n)))) / 7 + 1
    decreases Thursday(n) - YearStart(Year(Thursday(n)))
  {
    var t := Thursday(n);
    WeekBefore(n);
    hide YearStart, Thursday, Weekday;
    if Year(t - 7) != Year(t) {
      if t - 7 >= YearStart(Year(t)) {
        YearIsUnique(t - 7, Year(t));
      }
    } else {
      WeekNumberCounts(n - 7);
    }
  }

  /** All days from Monday to Sunday have the number of their week. */
  lemma WeekIsConstant(monday: int, i: int)
    requires Weekday(monday) == 1 && 0 <= i < 7
    ensures Thursday(monday + i) == monday + 3 && WeekNumber(monday + i) == WeekNumber(monday)
  {
    hide YearStart, Thursday, Weekday, WeekNumber, Year;
    SameThursday(monday, i);
    SameThursday(monday, 0);
    WeekNumberCounts(monday);
    WeekNumberCounts(monday + i);
  }

  lemma SameThursday(monday: int, i: int)
    requires Weekday(monday) == 1 && 0 <= i < 7
    ensures Thursday(monday + i) == monday + 3
  {
  }

  lemma WeekNumberInRange(n: int)
    ensures 1 <= WeekNumber(n) <= 53
  {
    WeekNumberCounts(n);
    NextYearStart(Year(Thursday(n)));
  }

  /** `iso8601Week`; `shift` is how far the clock has been moved, in milliseconds, between
      the first of January and the Thursday. */
  method Iso8601Week(date: int, shift: int) returns (week: int)
    requires -43200000 <= shift < 43200000
    ensures week == WeekNumber(date)
  {
    hide YearStart, Thursday, WeekNumber, Year, SetDate, SetMonth, Round;
    ThursdayOfWeek(date);
    var checkDate := date;
    checkDate := SetDate(checkDate, DayOfMonth(checkDate) + 4 - (if Weekday(checkDate) != 0 then Weekday(checkDate) else 7));
    var time := checkDate;
    JanuaryFirst(time);
    checkDate := SetMonth(checkDate, 0);
    checkDate := SetDate(checkDate, 1);
    RoundsToDays(time - checkDate, shift);
    WeekNumberCounts(date);
    week := Round((time - checkDate) * MS_PER_DAY + shift, MS_PER_DAY) / 7 + 1;
  }

  lemma ThursdayOfWeek(n: int)
    ensures SetDate(n, DayOfMonth(n) + 4 - (if Weekday(n) != 0 then Weekday(n) else 7)) == Thursday(n)
  {
    hide DayOfMonth, Weekday;
    MondayFirst(Weekday(n));
  }

  /** Sunday counts as 7. */
  lemma MondayFirst(w: int)
    requires 0 <= w < 7
    ensures 4 - (if w != 0 then w else 7) == 3 - (w + 6) % 7
  {
  }

  lemma JanuaryFirst(n: int)
    ensures SetDate(SetMonth(n, 0), 1) == YearStart(Year(n))
  {
    hide YearStart, Year, Month, DayOfMonth, IsLeap;
    var y, d := Year(n), DayOfMonth(n);
    LengthsInRange(y, Month(n));
    assert MonthLength(y, 0) == 31 && MonthStart(y, 0) == 0;
    assert SetMonth(n, 0) == DayNumber(y, 0, d);
    DateParts(y, 0, d);
  }

  // ---- The day of the year ----

  function DayOfYear(n: int): (r: int)
    ensures 1 <= r <= YearLength(Year(n))
  {
    NextYearStart(Year(n));
    n - YearStart(Year(n)) + 1
  }

  /** What `formatDate` computes for "o". */
  function FormattedDayOfYear(n: int, shift: int): int {
    Round((NewDate(Year(n), Month(n), DayOfMonth(n)) - NewDate(Year(n), 0, 0)) * MS_PER_DAY + shift, MS_PER_DAY)
  }

  /** It is the day of the year, except after February of the year 0, which the constructor
      takes for 1900. */
  lemma FormattedDayOfYearIs(n: int, shift: int)
    requires -43200000 <= shift < 43200000
    ensures FormattedDayOfYear(n, shift) == DayOfYear(n) <==> !(Year(n) == 0 && Month(n) >= 2)
  {
    var y, m, d := Year(n), Month(n), DayOfMonth(n);
    hide YearStart, Year, Month, DayOfMonth, DayOfYear, Round, MonthStart, FullYear, NewDate;
    DayOfYearParts(n);
    DaysSinceNewYear(y, m, d);
    RoundsToDays(NewDate(y, m, d) - NewDate(y, 0, 0), shift);
    TwoDigitMonthStart(y, m);
  }

  lemma MarchStarts()
    ensures MonthStart(0, 2) == 60 && MonthStart(1900, 2) == 59
    ensures FullYear(0) == 1900 && ValidDate(0, 2, 1)
  {
    MonthStarts(0);
    MonthStarts(1900);
  }

  /** On 1 March of the year 0 it is one too small: 1900 was not a leap year. */
  lemma FirstOfMarch0()
    ensures var n := DayNumber(0, 2, 1);
      Year(n) == 0 && Month(n) == 2 && DayOfYear(n) == 61 && FormattedDayOfYear(n, 0) == 60
  {
    hide YearStart, Year, Month, DayOfMonth, DayOfYear, MonthStart, NewDate, DayNumber, Round, FullYear, ValidDate;
    var n := DayNumber(0, 2, 1);
    MarchStarts();
    DateParts(0, 2, 1);
    DayOfYearParts(n);
    DaysSinceNewYear(0, 2, 1);
    RoundsToDays(60, 0);
  }

  lemma DayOfYearParts(n: int)
    ensures DayOfYear(n) == MonthStart(Year(n), Month(n)) + DayOfMonth(n)
  {
    hide YearStart, Year, Month, MonthStart;
  }

  lemma DaysSinceNewYear(y: int, m: int, d: int)
    requires 0 <= m < 12
    ensures NewDate(y, m, d) - NewDate(y, 0, 0) == MonthStart(FullYear(y), m) + d
  {
    assert m / 12 == 0 && m % 12 == m && MonthStart(FullYear(y), 0) == 0;
    hide YearStart, MonthStart;
  }

  lemma TwoDigitMonthStart(y: int, m: int)
    requires 0 <= m < 12
    ensures MonthStart(FullYear(y), m) == MonthStart(y, m) <==> !(y == 0 && m >= 2)
  {
    TwoDigitLeap(y);
    MonthStarts(y);
    MonthStarts(FullYear(y));
    hide IsLeap, MonthStart, FullYear;
    assert m == 0 || m == 1 || m == 2 || m == 3 || m == 4 || m == 5 || m == 6 || m == 7 || m == 8 || m == 9 || m == 10 || m == 11;
  }

  lemma TwoDigitLeap(y: int)
    ensures IsLeap(FullYear(y)) == IsLeap(y) <==> y != 0
    ensures y == 0 ==> IsLeap(y) && !IsLeap(FullYear(y))
  {
  }

  /** The loop of `parseDate` that turns a day of the year into a month, counted from 1, and a
      day.  It ends for every number. */
  method FromDayOfYear(year: int, doy: int) returns (month: int, day: int)
    ensures month >= 1 && day <= DaysInMonth(year, month - 1)
    ensures NewDate(year, month - 1, day) == NewDate(year, 0, doy)
    ensures doy >= 1 ==> day >= 1
    ensures doy < 1 ==> month == 1 && day == doy
  {
    hide NewDate, DaysInMonth, MonthLength;
    month, day := 1, doy;
    while true
      invariant month >= 1
      invariant NewDate(year, month - 1, day) == NewDate(year, 0, doy)
      invariant doy >= 1 ==> day >= 1
      invariant doy < 1 ==> month == 1 && day == doy
      decreases day
    {
      var dim := DaysInMonth(year, month - 1);
      DaysInMonthIsLength(year, month - 1);
      LengthsInRange(FullYear(year) + (month - 1) / 12, (month - 1) % 12);
      if day <= dim {
        break;
      }
      MonthCarry(year, month - 1, day - dim);
      month := month + 1;
      day := day - dim;
    }
  }

  lemma NewYearPlus(year: int, m: int, d: int)
    requires 0 <= m < 12
    ensures NewDate(year, 0, MonthStart(FullYear(year), m) + d) == DayNumber(FullYear(year), m, d)
  {
    assert MonthStart(FullYear(year), 0) == 0;
    hide YearStart, MonthStart, FullYear;
  }

  /** A day within a month, found from its day of the year, is that day. */
  lemma DayOfYearInverts(year: int, m: int, d: int, month: int, day: int)
    requires ValidDate(FullYear(year), m, d) && month >= 1 && 1 <= day <= DaysInMonth(year, month - 1)
    requires NewDate(year, month - 1, day) == NewDate(year, 0, MonthStart(FullYear(year), m) + d)
    ensures month == m + 1 && day == d
  {
    var y := FullYear(year);
    NewYearPlus(year, m, d);
    hide NewDate, DayNumber, DaysInMonth, Year, Month, DayOfMonth, MonthStart, MonthLength;
    DateParts(y, m, d);
    NewDateParts(year, month - 1, day);
    assert (month - 1) / 12 == 0;
  }
}
