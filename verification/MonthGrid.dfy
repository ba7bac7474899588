/** The month the datepicker draws, and the grid of days it draws it on. */
module MonthGrid {
  import opened Optional
  import opened Calendar
  import opened Datepicker

  /** The empty cells before the first of the month. */
  function LeadDays(year: int, month: int, firstDay: int): (r: int)
    ensures 0 <= r < 7
  {
    (FirstDayOfMonth(year, month) - firstDay + 7) % 7
  }

  /** The rows that the month needs. */
  function RowsNeeded(year: int, month: int, firstDay: int): int {
    (LeadDays(year, month, firstDay) + DaysInMonth(year, month) + 6) / 7
  }

  lemma DaysInMonthInRange(y: int, m: int)
    ensures 28 <= DaysInMonth(y, m) <= 31
  {
    DaysInMonthIsLength(y, m);
    LengthsInRange(FullYear(y) + m / 12, m % 12);
  }

  lemma RowsInRange(year: int, month: int, firstDay: int)
    ensures 4 <= RowsNeeded(year, month, firstDay) <= 6
    ensures LeadDays(year, month, firstDay) + DaysInMonth(year, month) <= 7 * RowsNeeded(year, month, firstDay)
    ensures 7 * (RowsNeeded(year, month, firstDay) - 1) < LeadDays(year, month, firstDay) + DaysInMonth(year, month)
  {
    DaysInMonthInRange(year, month);
    hide LeadDays, DaysInMonth;
  }

  /** The grid loops, with at least `atLeast` rows so that months side by side line up. */
  method DrawGrid(year: int, month: int, firstDay: int, atLeast: int) returns (cells: seq<int>, rows: int)
    requires 0 <= month < 12 && 0 <= firstDay <= 6 && 0 <= atLeast <= 6
    ensures rows == if atLeast > RowsNeeded(year, month, firstDay) then atLeast else RowsNeeded(year, month, firstDay)
    ensures 0 <= rows && |cells| == 7 * rows
    ensures forall k | 0 <= k < |cells| :: cells[k] == NewDate(year, month, 1 - LeadDays(year, month, firstDay)) + k
  {
    hide NewDate, DaysInMonth, LeadDays, DayOfMonth, SetDate;
    RowsInRange(year, month, firstDay);
    hide RowsNeeded;
    var curRows := RowsNeeded(year, month, firstDay);
    rows := if atLeast > curRows then atLeast else curRows;
    var start := NewDate(year, month, 1 - LeadDays(year, month, firstDay));
    var printDate := start;
    cells := [];
    var dRow := 0;
    while dRow < rows
      invariant 0 <= dRow <= rows && |cells| == 7 * dRow && printDate == start + |cells|
      invariant forall k | 0 <= k < |cells| :: cells[k] == start + k
    {
      var dow := 0;
      while dow < 7
        invariant 0 <= dow <= 7 && |cells| == 7 * dRow + dow && printDate == start + |cells|
        invariant forall k | 0 <= k < |cells| :: cells[k] == start + k
      {
        cells := cells + [printDate];
        NextDay(printDate);
        printDate := SetDate(printDate, DayOfMonth(printDate) + 1);
        dow := dow + 1;
      }
      dRow := dRow + 1;
    }
  }

  lemma NextDay(n: int)
    ensures SetDate(n, DayOfMonth(n) + 1) == n + 1
  {
  }

  lemma NewDateShifts(y: int, m: int, d: int, k: int)
    ensures NewDate(y, m, d + k) == NewDate(y, m, d) + k
  {
    hide YearStart, MonthStart;
  }

  /** The weekday of a cell is that of its column header. */
  lemma CellWeekday(year: int, month: int, firstDay: int, row: int, dow: int)
    requires 0 <= firstDay <= 6 && 0 <= dow < 7
    ensures Weekday(NewDate(year, month, 1 - LeadDays(year, month, firstDay)) + (7 * row + dow)) == (dow + firstDay) % 7
  {
    var lead := LeadDays(year, month, firstDay);
    NewDateShifts(year, month, 1, -lead);
    hide NewDate;
    var first := NewDate(year, month, 1);
    assert lead == (Weekday(first) - firstDay + 7) % 7;
    hide LeadDays;
    WeekdayShift(first, lead, firstDay, row, dow);
  }

  lemma WeekdayShift(first: int, lead: int, firstDay: int, row: int, dow: int)
    requires lead == (Weekday(first) - firstDay + 7) % 7
    ensures Weekday(first - lead + (7 * row + dow)) == (dow + firstDay) % 7
  {
    var q := (Weekday(first) - firstDay + 7) / 7;
    var p := (first + 4) / 7;
    assert first + 4 == 7 * p + Weekday(first);
    assert Weekday(first) - firstDay + 7 == 7 * q + lead;
    assert first - lead + (7 * row + dow) + 4 == 7 * (p + row + q - 1) + (dow + firstDay);
    SameRemainder(p + row + q - 1, dow + firstDay);
  }

  lemma SameRemainder(k: int, x: int)
    ensures (7 * k + x) % 7 == x % 7
  {
  }

  /** Days up to four weeks out of a month fall in its neighbours. */
  lemma DayOutOfMonth(year: int, month: int, d: int)
    requires -27 <= d <= 56 && 0 <= month < 12
    ensures Month(NewDate(year, month, d)) == month <==> 1 <= d <= DaysInMonth(year, month)
  {
    hide *;
    var dim := DaysInMonth(year, month);
    DaysInMonthInRange(year, month);
    if d < 1 {
      DaysInMonthInRange(year, month - 1);
      MonthCarry(year, month - 1, d);
      NewDateParts(year, month - 1, d + DaysInMonth(year, month - 1));
    } else if d <= dim {
      NewDateParts(year, month, d);
    } else {
      MonthCarry(year, month, d - dim);
      DaysInMonthInRange(year, month + 1);
      NewDateParts(year, month + 1, d - dim);
    }
  }

  /** The cells of the month are exactly those the lead and the length say, each day once and in
      order; every other cell belongs to a neighbouring month. */
  lemma CellMonth(year: int, month: int, firstDay: int, rows: int, k: int)
    requires 0 <= month < 12 && rows <= 6 && 0 <= k < 7 * rows
    ensures var lead, dim := LeadDays(year, month, firstDay), DaysInMonth(year, month);
      var n := NewDate(year, month, 1 - lead) + k;
      && (Month(n) == month <==> lead <= k < lead + dim)
      && (lead <= k < lead + dim ==> Year(n) == FullYear(year) && DayOfMonth(n) == k - lead + 1)
  {
    hide *;
    var lead, dim := LeadDays(year, month, firstDay), DaysInMonth(year, month);
    NewDateShifts(year, month, 1 - lead, k);
    DayOutOfMonth(year, month, 1 - lead + k);
    if lead <= k < lead + dim {
      NewDateParts(year, month, 1 - lead + k);
    }
  }

  /** Every day of the month has exactly one cell of the grid drawn. */
  lemma EachDayHasOneCell(year: int, month: int, firstDay: int, cells: seq<int>, d: int)
    requires 0 <= month < 12 && |cells| >= 7 * RowsNeeded(year, month, firstDay)
    requires forall k | 0 <= k < |cells| :: cells[k] == NewDate(year, month, 1 - LeadDays(year, month, firstDay)) + k
    requires 1 <= d <= DaysInMonth(year, month)
    ensures var at := LeadDays(year, month, firstDay) + d - 1;
      && 0 <= at < |cells| && cells[at] == NewDate(year, month, d)
      && forall k | 0 <= k < |cells| && cells[k] == NewDate(year, month, d) :: k == at
  {
    RowsInRange(year, month, firstDay);
    var lead := LeadDays(year, month, firstDay);
    hide LeadDays, DaysInMonth, NewDate, RowsNeeded;
    NewDateShifts(year, month, 1 - lead, lead + d - 1);
  }

  // ---- The month drawn ----

  /** Months counted through the years. */
  function FirstOfMonth(index: int): int {
    NewDate(index / 12, index % 12, 1)
  }

  /** `new Date( max.getFullYear(), max.getMonth() - months + 1, max.getDate() )`, but not
      before the minimum. */
  function MaxDraw(maxDate: int, minDate: Option<int>, months: int): int {
    var d := NewDate(Year(maxDate), Month(maxDate) - months + 1, DayOfMonth(maxDate));
    if minDate.Some? && d < minDate.value then minDate.value else d
  }

  /** A month that certainly starts by day `limit`: no later ones below the year 0, where
      two-digit years cannot mislead the constructor. */
  function EarlyMonth(limit: int): int {
    12 * (if Year(limit) < -1 then Year(limit) else -1)
  }

  lemma MonthStartsInYear(y: int, m: int)
    requires 0 <= m < 12
    ensures YearStart(y) <= DayNumber(y, m, 1) <= YearStart(y + 1)
    ensures DayNumber(y, 0, 1) == YearStart(y)
  {
    hide IsLeap, MonthLength;
    MonthStarts(y);
    MonthStartsGrow(y, 0, m);
    MonthStartsGrow(y, m, 12);
    NextYearStart(y);
    hide YearStart, YearLength;
  }

  lemma EarlyMonthsStart(index: int, limit: int)
    requires index <= EarlyMonth(limit)
    ensures FirstOfMonth(index) <= limit
  {
    hide YearStart, MonthStart, Year, DayNumber;
    var y, m := index / 12, index % 12;
    var z := if Year(limit) < -1 then Year(limit) else -1;
    YearStartsGrow(z, Year(limit));
    MonthStartsInYear(y, m);
    if y < z {
      YearStartsGrow(y + 1, z);
    } else {
      assert y == z && m == 0;
    }
    assert FirstOfMonth(index) == DayNumber(y, m, 1);
  }

  /** The loop that pulls the drawn month back: it ends on the latest month, not after the
      one asked for, that starts no later than the limit. */
  method PullBack(year: int, month: int, limit: int) returns (drawYear: int, drawMonth: int)
    requires 0 <= month < 12
    ensures 0 <= drawMonth < 12 && 12 * drawYear + drawMonth <= 12 * year + month
    ensures FirstOfMonth(12 * drawYear + drawMonth) <= limit
    ensures forall index | 12 * drawYear + drawMonth < index <= 12 * year + month :: FirstOfMonth(index) > limit
  {
    hide NewDate, Year;
    drawYear, drawMonth := year, month;
    MonthIndex(drawYear, drawMonth);
    while NewDate(drawYear, drawMonth, 1) > limit
      invariant 0 <= drawMonth < 12 && 12 * drawYear + drawMonth <= 12 * year + month
      invariant FirstOfMonth(12 * drawYear + drawMonth) == NewDate(drawYear, drawMonth, 1)
      invariant forall index | 12 * drawYear + drawMonth < index <= 12 * year + month :: FirstOfMonth(index) > limit
      decreases 12 * drawYear + drawMonth - EarlyMonth(limit)
    {
      ghost var here := 12 * drawYear + drawMonth;
      if here <= EarlyMonth(limit) {
        EarlyMonthsStart(here, limit);
      }
      drawMonth := drawMonth - 1;
      if drawMonth < 0 {
        drawMonth := 11;
        drawYear := drawYear - 1;
      }
      MonthIndex(drawYear, drawMonth);
    }
  }

  lemma MonthIndex(y: int, m: int)
    requires 0 <= m < 12
    ensures (12 * y + m) / 12 == y && (12 * y + m) % 12 == m
  {
  }

  function MonthIndexOf(n: int): int {
    12 * Year(n) + Month(n)
  }

  lemma IndexOfParts(y: int, m: int, n: int)
    requires Year(n) == FullYear(y) + m / 12 && Month(n) == m % 12
    ensures MonthIndexOf(n) == 12 * FullYear(y) + m
  {
    hide Year, Month, FullYear;
  }

  lemma NewDateIndex(y: int, m: int, d: int)
    requires 1 <= d <= 31
    ensures MonthIndexOf(NewDate(y, m, d)) == 12 * FullYear(y) + m + (if d <= DaysInMonth(y, m) then 0 else 1)
  {
    hide *;
    var dim := DaysInMonth(y, m);
    DaysInMonthInRange(y, m);
    if d <= dim {
      NewDateParts(y, m, d);
      IndexOfParts(y, m, NewDate(y, m, d));
    } else {
      DaysInMonthInRange(y, m + 1);
      MonthCarry(y, m, d - dim);
      NewDateParts(y, m + 1, d - dim);
      IndexOfParts(y, m + 1, NewDate(y, m + 1, d - dim));
    }
  }

  /** A month starts by a day exactly when it is not later than the month of that day. */
  lemma MonthStartsBy(index: int, limit: int)
    requires !(0 <= index / 12 <= 99)
    ensures FirstOfMonth(index) <= limit <==> index <= MonthIndexOf(limit)
  {
    hide YearStart, NewDate, DaysInMonth, Year, Month, DayOfMonth, MonthLength, MonthIndexOf;
    DaysInMonthInRange(index / 12, index % 12);
    NewDateIndex(index / 12, index % 12, 1);
    var first := FirstOfMonth(index);
    if first <= limit {
      MonthsFollowDays(first, limit);
    } else {
      DayBefore(index);
      MonthsFollowDays(limit, first - 1);
    }
  }

  lemma DayBefore(index: int)
    requires !(0 <= index / 12 <= 99)
    ensures MonthIndexOf(FirstOfMonth(index) - 1) == index - 1
  {
    hide YearStart, NewDate, DaysInMonth, Year, Month, DayOfMonth, MonthLength, MonthIndexOf;
    var y, m := index / 12, index % 12;
    var dim := DaysInMonth(y, m - 1);
    DaysInMonthInRange(y, m - 1);
    MonthCarry(y, m - 1, 0);
    NewDateIndex(y, m - 1, dim);
    NewDateShifts(y, m - 1, dim, 0);
    assert NewDate(y, m, 0) == NewDate(y, m, 1) - 1 by { NewDateShifts(y, m, 0, 1); }
  }

  /** What the loop ends on, for years of three digits and more: the month asked for, or that of
      the limit if it is earlier. */
  lemma PulledBackTo(drawn: int, asked: int, limit: int)
    requires 1200 <= asked && 1200 <= MonthIndexOf(limit)
    requires drawn <= asked && FirstOfMonth(drawn) <= limit
    requires forall index | drawn < index <= asked :: FirstOfMonth(index) > limit
    ensures drawn == if asked <= MonthIndexOf(limit) then asked else MonthIndexOf(limit)
  {
    hide FirstOfMonth, MonthIndexOf;
    var month := if asked <= MonthIndexOf(limit) then asked else MonthIndexOf(limit);
    MonthStartsBy(month, limit);
    if drawn > month {
      MonthStartsBy(drawn, limit);
    }
  }

  /** With several months side by side the limit is meant to lie `months - 1` before that of
      the maximum.  It does so exactly when that earlier month has the maximum's day of the month
      and the year of the maximum has not one or two digits; otherwise the date overflows into a
      later month, or into the twentieth century. */
  lemma LimitMonth(maxDate: int, months: int)
    ensures MonthIndexOf(MaxDraw(maxDate, None, months)) == MonthIndexOf(maxDate) - (months - 1)
       <==> && FullYear(Year(maxDate)) == Year(maxDate)
            && DayOfMonth(maxDate) <= DaysInMonth(Year(maxDate), Month(maxDate) - months + 1)
  {
    hide YearStart, NewDate, DaysInMonth, Year, Month, DayOfMonth, MonthLength;
    LengthsInRange(Year(maxDate), Month(maxDate));
    NewDateIndex(Year(maxDate), Month(maxDate) - months + 1, DayOfMonth(maxDate));
  }

  lemma MonthsFollowDays(a: int, b: int)
    requires a <= b
    ensures MonthIndexOf(a) <= MonthIndexOf(b)
  {
    hide YearStart, MonthStart;
    if Year(b) < Year(a) {
      YearStartsGrow(Year(b) + 1, Year(a));
    } else if Year(a) == Year(b) && Month(b) < Month(a) {
      MonthStartsGrow(Year(a), Month(b) + 1, Month(a));
    }
  }

  /** A minimum holds the limit up: its month is the later one of that of the minimum and the one
      meant without a minimum, a month further when that has too few days. */
  lemma MinimumHolds(maxDate: int, minDate: int, months: int)
    ensures var index := 12 * FullYear(Year(maxDate)) + Month(maxDate) - months + 1
        + (if DayOfMonth(maxDate) <= DaysInMonth(Year(maxDate), Month(maxDate) - months + 1) then 0 else 1);
      && MonthIndexOf(MaxDraw(maxDate, Some(minDate), months)) ==
           (if index < MonthIndexOf(minDate) then MonthIndexOf(minDate) else index)
      && minDate <= MaxDraw(maxDate, Some(minDate), months)
  {
    hide YearStart, NewDate, DaysInMonth, Year, Month, DayOfMonth, MonthLength, MonthIndexOf;
    LengthsInRange(Year(maxDate), Month(maxDate));
    NewDateIndex(Year(maxDate), Month(maxDate) - months + 1, DayOfMonth(maxDate));
    var limit := MaxDraw(maxDate, None, months);
    if limit < minDate {
      MonthsFollowDays(limit, minDate);
    } else {
      MonthsFollowDays(minDate, limit);
    }
  }

  /** With two months up to 31 March 2015 the limit is in March, not in February. */
  lemma EndOfMarchOverflows()
    ensures var maxDate := DayNumber(2015, 2, 31);
      Month(maxDate) == 2 && MonthIndexOf(MaxDraw(maxDate, None, 2)) == MonthIndexOf(maxDate)
  {
    hide YearStart, NewDate, DaysInMonth, Year, Month, DayOfMonth, MonthLength, DayNumber;
    var maxDate := DayNumber(2015, 2, 31);
    Spring2015();
    DateParts(2015, 2, 31);
    NewDateIndex(2015, 1, 31);
  }

  lemma Spring2015()
    ensures ValidDate(2015, 2, 31) && DaysInMonth(2015, 1) == 28
  {
    DaysInMonthIsLength(2015, 1);
    hide DaysInMonth;
  }
}
