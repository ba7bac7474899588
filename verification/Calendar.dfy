/** The proleptic Gregorian calendar of ECMAScript dates, counted in days from 1 January
    1970, and the arithmetic of its constructor and setters on whole days. */
module Calendar {
  predicate IsLeap(y: int) {
    y % 4 == 0 && (y % 100 != 0 || y % 400 == 0)
  }

  /** `DayFromYear` of section 15.9.1.3 of ECMA-262, edition 5.1. */
  function YearStart(y: int): int {
    365 * (y - 1970) + (y - 1969) / 4 - (y - 1901) / 100 + (y - 1601) / 400
  }

  function YearLength(y: int): int {
    if IsLeap(y) then 366 else 365
  }

  /** Months are counted from 0. */
  function MonthLength(y: int, m: int): int
    requires 0 <= m < 12
  {
    if m == 1 then (if IsLeap(y) then 29 else 28)
    else if m == 3 || m == 5 || m == 8 || m == 10 then 30
    else 31
  }

  /** Days of the year before month `m`. */
  function MonthStart(y: int, m: int): int
    requires 0 <= m <= 12
  {
    if m == 0 then 0 else MonthStart(y, m - 1) + MonthLength(y, m - 1)
  }

  lemma Quarters(x: int)
    ensures (x + 1) / 4 == x / 4 + (if (x + 1) % 4 == 0 then 1 else 0)
  {
  }

  lemma Centuries(x: int)
    ensures (x + 1) / 100 == x / 100 + (if (x + 1) % 100 == 0 then 1 else 0)
  {
  }

  lemma FourCenturies(x: int)
    ensures (x + 1) / 400 == x / 400 + (if (x + 1) % 400 == 0 then 1 else 0)
  {
  }

  lemma LeapQuarters(y: int)
    ensures (y - 1968) % 4 == 0 <==> y % 4 == 0
  {
  }

  lemma LeapCenturies(y: int)
    ensures (y - 1900) % 100 == 0 <==> y % 100 == 0
    ensures y % 100 == 0 ==> y % 4 == 0
  {
  }

  lemma LeapFourCenturies(y: int)
    ensures (y - 1600) % 400 == 0 <==> y % 400 == 0
    ensures y % 400 == 0 ==> y % 100 == 0
  {
  }

  lemma NextYearStart(y: int)
    ensures YearStart(y + 1) == YearStart(y) + YearLength(y)
  {
    Quarters(y - 1969);
    Centuries(y - 1901);
    FourCenturies(y - 1601);
    LeapQuarters(y);
    LeapCenturies(y);
    LeapFourCenturies(y);
  }

  lemma MonthStarts(y: int)
    ensures MonthStart(y, 0) == 0 && MonthStart(y, 1) == 31
    ensures var l := if IsLeap(y) then 1 else 0;
      && MonthStart(y, 2) == 59 + l && MonthStart(y, 3) == 90 + l && MonthStart(y, 4) == 120 + l
      && MonthStart(y, 5) == 151 + l && MonthStart(y, 6) == 181 + l && MonthStart(y, 7) == 212 + l
      && MonthStart(y, 8) == 243 + l && MonthStart(y, 9) == 273 + l && MonthStart(y, 10) == 304 + l
      && MonthStart(y, 11) == 334 + l && MonthStart(y, 12) == YearLength(y)
  {
    assert MonthStart(y, 2) == MonthStart(y, 1) + MonthLength(y, 1);
    assert MonthStart(y, 4) == MonthStart(y, 3) + 30;
    assert MonthStart(y, 6) == MonthStart(y, 5) + 30;
    assert MonthStart(y, 8) == MonthStart(y, 7) + 31;
    assert MonthStart(y, 10) == MonthStart(y, 9) + 31;
  }

  lemma {:induction false} YearStartsGrow(y: int, z: int)
    requires y <= z
    ensures YearStart(y) + 365 * (z - y) <= YearStart(z)
    decreases z - y
  {
    if y < z {
      YearStartsGrow(y, z - 1);
      NextYearStart(z - 1);
    }
  }

  // ---- From days to dates ----

  /** A year that starts no later than day `n`. */
  function YearBefore(n: int): int {
    if n >= 0 then 1970 + n / 366 else 1970 - ((-n + 364) / 365)
  }

  lemma {:induction false} FewLeapDays(k: nat)
    ensures 365 * k <= YearStart(1970 + k) <= 366 * k
    ensures -366 * k <= YearStart(1970 - k) <= -365 * k
  {
    if k > 0 {
      FewLeapDays(k - 1);
      NextYearStart(1970 + k - 1);
      NextYearStart(1970 - k);
    }
  }

  lemma YearBeforeIsBefore(n: int)
    ensures YearStart(YearBefore(n)) <= n
  {
    if n >= 0 {
      FewLeapDays(n / 366);
    } else {
      FewLeapDays((-n + 364) / 365);
    }
  }

  function YearFrom(n: int, y: int): (r: int)
    requires YearStart(y) <= n
    ensures YearStart(r) <= n < YearStart(r + 1)
    decreases n - YearStart(y)
  {
    NextYearStart(y);
    if n < YearStart(y + 1) then y else YearFrom(n, y + 1)
  }

  /** `getFullYear()` of day `n`. */
  function Year(n: int): (y: int)
    ensures YearStart(y) <= n < YearStart(y + 1)
  {
    YearBeforeIsBefore(n);
    YearFrom(n, YearBefore(n))
  }

  function MonthFrom(y: int, d: int, m: int): (r: int)
    requires 0 <= m < 12 && MonthStart(y, m) <= d < MonthStart(y, 12)
    ensures 0 <= r < 12 && MonthStart(y, r) <= d < MonthStart(y, r + 1)
    decreases 12 - m
  {
    if d < MonthStart(y, m + 1) then m else MonthFrom(y, d, m + 1)
  }

  /** `getMonth()` */
  function Month(n: int): (m: int)
    ensures 0 <= m < 12
    ensures MonthStart(Year(n), m) <= n - YearStart(Year(n)) < MonthStart(Year(n), m + 1)
  {
    NextYearStart(Year(n));
    MonthStarts(Year(n));
    MonthFrom(Year(n), n - YearStart(Year(n)), 0)
  }

  /** `getDate()` */
  function DayOfMonth(n: int): (d: int)
    ensures 1 <= d <= MonthLength(Year(n), Month(n))
  {
    n - YearStart(Year(n)) - MonthStart(Year(n), Month(n)) + 1
  }

  /** `getDay()`: 0 is Sunday; day 0 was a Thursday. */
  function Weekday(n: int): (w: int)
    ensures 0 <= w < 7
  {
    (n + 4) % 7
  }

  /** Days are counted from 1 January 1970, a Thursday, and 400 years have 146097 of them, a
      whole number of weeks. */
  lemma Epoch(y: int)
    ensures YearStart(1970) == 0 && Weekday(YearStart(1970)) == 4
    ensures YearStart(y + 400) == YearStart(y) + 146097 && Weekday(YearStart(y + 400)) == Weekday(YearStart(y))
  {
    assert (y - 1969 + 400) / 4 == (y - 1969) / 4 + 100;
    assert (y - 1901 + 400) / 100 == (y - 1901) / 100 + 4;
    assert (y - 1601 + 400) / 400 == (y - 1601) / 400 + 1;
    WholeWeeks(YearStart(y));
  }

  lemma WholeWeeks(n: int)
    ensures Weekday(n + 7 * 20871) == Weekday(n)
  {
  }

  // ---- From dates to days ----

  predicate ValidDate(y: int, m: int, d: int) {
    0 <= m < 12 && 1 <= d <= MonthLength(y, m)
  }

  function DayNumber(y: int, m: int, d: int): int
    requires 0 <= m < 12
  {
    YearStart(y) + MonthStart(y, m) + d - 1
  }

  /** The two-digit years of the constructor, section 15.9.3.1 of ECMA-262, edition 5.1. */
  function FullYear(y: int): int {
    if 0 <= y <= 99 then 1900 + y else y
  }

  /** `new Date( y, m, d )`: months and days out of range carry over. */
  function NewDate(y: int, m: int, d: int): int {
    DayNumber(FullYear(y) + m / 12, m % 12, d)
  }

  /** `setDate( d )` */
  function SetDate(n: int, d: int): int {
    n - DayOfMonth(n) + d
  }

  /** `setMonth( m )`, which keeps the day of the month. */
  function SetMonth(n: int, m: int): int {
    DayNumber(Year(n) + m / 12, m % 12, DayOfMonth(n))
  }

  lemma YearIsUnique(n: int, y: int)
    requires YearStart(y) <= n < YearStart(y + 1)
    ensures Year(n) == y
  {
    hide YearStart;
    if Year(n) < y {
      YearStartsGrow(Year(n) + 1, y);
    } else if y < Year(n) {
      YearStartsGrow(y + 1, Year(n));
    }
  }

  lemma {:induction false} MonthStartsGrow(y: int, m: int, k: int)
    requires 0 <= m <= k <= 12
    ensures MonthStart(y, m) <= MonthStart(y, k)
    decreases k - m
  {
    if m < k {
      MonthStartsGrow(y, m, k - 1);
    }
  }

  lemma MonthIsUnique(n: int, m: int)
    requires 0 <= m < 12 && MonthStart(Year(n), m) <= n - YearStart(Year(n)) < MonthStart(Year(n), m + 1)
    ensures Month(n) == m
  {
    hide YearStart, IsLeap, Year, Month, MonthStart;
    if Month(n) < m {
      MonthStartsGrow(Year(n), Month(n) + 1, m);
    } else if m < Month(n) {
      MonthStartsGrow(Year(n), m + 1, Month(n));
    }
  }

  lemma WithinYear(y: int, m: int, d: int)
    requires ValidDate(y, m, d)
    ensures 0 <= MonthStart(y, m) && MonthStart(y, m) + d <= MonthStart(y, m + 1) <= YearLength(y)
  {
    MonthStartsGrow(y, 0, m);
    MonthStartsGrow(y, m + 1, 12);
    MonthStarts(y);
  }

  /** Reading the parts of a date gives back the date it was made from. */
  lemma DateParts(y: int, m: int, d: int)
    requires ValidDate(y, m, d)
    ensures var n := DayNumber(y, m, d); Year(n) == y && Month(n) == m && DayOfMonth(n) == d
  {
    hide YearStart, IsLeap, Year, Month, MonthStart, YearLength, MonthLength;
    var n := DayNumber(y, m, d);
    WithinYear(y, m, d);
    NextYearStart(y);
    YearIsUnique(n, y);
    MonthIsUnique(n, m);
  }

  /** Every day is the day of its parts. */
  lemma PartsDate(n: int)
    ensures ValidDate(Year(n), Month(n), DayOfMonth(n))
    ensures DayNumber(Year(n), Month(n), DayOfMonth(n)) == n
  {
  }
}
