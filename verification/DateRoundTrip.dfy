/** Parsing what was printed: which dates come back, for which formats. */
module DateRoundTrip {
  import opened Numbers
  import opened Optional
  import opened Calendar
  import opened Datepicker
  import opened DateFormat

  /** No name of the table starts another, letters compared without case. */
  predicate PrefixFree(lower: char -> char, names: seq<string>) {
    forall i, j | 0 <= i < |names| && 0 <= j < |names| && i != j :: !StartsWith(lower, names[j], names[i])
  }

  predicate Legible(t: Settings) {
    && Complete(t)
    && PrefixFree(t.lower, t.dayNames) && PrefixFree(t.lower, t.dayNamesShort)
    && PrefixFree(t.lower, t.monthNames) && PrefixFree(t.lower, t.monthNamesShort)
  }

  /** The years that a year field prints legibly: those of four digits; with two digits,
      centuries and the years from 1900, as the others come out with a sign. */
  predicate PrintableYear(doubled: bool, y: int) {
    if doubled then 1000 <= y <= 9999 else 1900 <= y || y % 100 == 0
  }

  predicate Printable(item: Item, y: int) {
    item.YearField? ==> PrintableYear(item.doubled, y)
  }

  /** How many digits the parser takes at most. */
  function MaxDigits(item: Item): nat {
    if item.YearDayField? then 3 else if item.YearField? && item.doubled then 4 else 2
  }

  predicate Numeric(item: Item) {
    item.DayField? || item.MonthField? || item.YearDayField? || item.YearField?
  }

  predicate StartsWithDigit(s: string) {
    s != "" && IsDigit(s[0])
  }

  /** No number shorter than it could be is followed by another digit.  Doubled fields are as
      long as they can be. */
  predicate Separated(t: Settings, items: seq<Item>, date: int, shift: int, tail: string)
    requires Complete(t)
  {
    items == [] ||
    (&& (Numeric(items[0]) && |RenderItem(t, items[0], date, shift)| < MaxDigits(items[0]) ==>
           !StartsWithDigit(Render(t, items[1..], date, shift) + tail))
     && Separated(t, items[1..], date, shift, tail))
  }

  /** The number that a field stands for. */
  function FieldValue(item: Item, date: int): int {
    match item
    case DayField(_) => DayOfMonth(date)
    case MonthField(_) => Month(date) + 1
    case YearDayField(_) => DayOfYear(date)
    case YearField(doubled) => if doubled then Year(date) else Year(date) % 100
    case DayName(_) => Weekday(date) + 1
    case MonthName(_) => Month(date) + 1
    case Literal(_) => 0
  }

  function Recorded(items: seq<Item>, date: int, parts: Parts): Parts {
    if items == [] then parts else Recorded(items[1..], date, Record(parts, items[0], FieldValue(items[0], date)))
  }

  // ---- Reading one item ----

  lemma {:induction false} DigitsRun(text: string, rest: string, size: nat)
    requires AllDigits(text) && |text| <= size && (|text| == size || !StartsWithDigit(rest))
    ensures DigitRun(text + rest, size) == |text|
  {
    if text == "" {
      assert text + rest == rest;
    } else {
      assert (text + rest)[1..] == text[1..] + rest;
      DigitsRun(text[1..], rest, size - 1);
    }
  }

  lemma NumberIsRead(value: string, at: nat, text: string, rest: string, minSize: nat, size: nat)
    requires at <= |value| && value[at..] == text + rest
    requires AllDigits(text) && minSize <= |text| <= size && (|text| == size || !StartsWithDigit(rest))
    ensures ReadNumber(value, at, minSize, size) == Read(Number(text), at + |text|)
  {
    DigitsRun(text, rest, size);
    assert (text + rest)[..|text|] == text;
  }

  /** A name is read as itself, whatever follows. */
  lemma NameIsRead(lower: char -> char, names: seq<string>, k: nat, value: string, at: nat, rest: string)
    requires PrefixFree(lower, names) && k < |names|
    requires at <= |value| && value[at..] == names[k] + rest
    ensures ReadName(lower, names, value, at) == Read(k + 1, at + |names[k]|)
  {
    var text := names[k] + rest;
    assert text[..|names[k]|] == names[k];
    assert StartsWith(lower, text, names[k]);
    var found := FindName(lower, names, 0, text);
    OwnPrefix(lower, text, names[k], names[found.value]);
  }

  /** Of two names that a text starts with, the longer starts with the shorter. */
  lemma OwnPrefix(lower: char -> char, text: string, short: string, long: string)
    requires StartsWith(lower, text, short) && StartsWith(lower, text, long) && |short| <= |long|
    ensures StartsWith(lower, long, short)
  {
    forall i | 0 <= i < |short|
      ensures lower(long[..|short|][i]) == lower(short[i])
    {
      assert lower(text[..|short|][i]) == lower(short[i]);
      assert lower(text[..|long|][i]) == lower(long[i]);
    }
  }

  lemma SmallNumber(v: nat, doubled: bool, len: nat)
    requires 1 <= v && ((len == 2 && v < 100) || (len == 3 && v < 1000))
    ensures var s := FormatNumber(v, doubled, len);
      AllDigits(s) && Number(s) == v && 1 <= |s| <= len && (doubled ==> |s| == len)
  {
    DecimalReads(v);
    DecimalLength(v);
    PaddingReads(Decimal(v), len);
  }

  lemma YearText(y: int, doubled: bool)
    requires PrintableYear(doubled, y)
    ensures var s := FormatYear(y, doubled);
      AllDigits(s) && |s| == (if doubled then 4 else 2) && Number(s) == if doubled then y else y % 100
  {
    var r := if doubled then y else y % 100;
    DecimalReads(r);
    DecimalLength(r);
    if !doubled {
      assert Remainder(y - 1900, 100) == r;
      LeadingZero(Decimal(r));
      assert "" + Decimal(r) == Decimal(r);
    }
  }

  /** A year field is read as what it stands for exactly when the year is printable in it. */
  lemma YearIsRead(doubled: bool, y: int, rest: string)
    ensures var size := if doubled then 4 else 2;
      ReadNumber(FormatYear(y, doubled) + rest, 0, size, size) == Read(if doubled then y else y % 100, |FormatYear(y, doubled)|)
      <==> PrintableYear(doubled, y)
  {
    var text := FormatYear(y, doubled);
    var size := if doubled then 4 else 2;
    var value := text + rest;
    assert value[0..] == value;
    if PrintableYear(doubled, y) {
      YearText(y, doubled);
      NumberIsRead(value, 0, text, rest, size, size);
    } else if doubled {
      DecimalLength(if y < 0 then -y else y);
      if y < 0 {
        assert value[0] == '-';
      } else {
        LongDecimal(y);
      }
    } else {
      SignedRemainder(y);
      assert value[1] == '-';
    }
  }

  lemma LongDecimal(n: nat)
    ensures n >= 10000 ==> |Decimal(n)| >= 5
  {
    if n >= 10000 {
      DecimalLength(n / 10);
      if n / 10 >= 10000 {
        LongDecimal(n / 10);
      }
    }
  }

  lemma SignedRemainder(y: int)
    requires y < 1900 && y % 100 != 0
    ensures Remainder(y - 1900, 100) < 0
  {
  }

  predicate InPlace(t: Settings, item: Item, date: int, shift: int, value: string, at: nat, rest: string)
    requires Complete(t)
  {
    && at <= |value| && value[at..] == RenderItem(t, item, date, shift) + rest
    && (Numeric(item) && |RenderItem(t, item, date, shift)| < MaxDigits(item) ==> !StartsWithDigit(rest))
  }

  predicate ClockHolds(date: int, shift: int) {
    -43200000 <= shift < 43200000 && Year(date) >= 100
  }

  lemma NumberFieldIsRead(t: Settings, item: Item, date: int, shift: int, value: string, at: nat, rest: string)
    requires Complete(t) && Numeric(item) && !item.YearField?
    requires ClockHolds(date, shift) && InPlace(t, item, date, shift, value, at, rest)
    ensures ReadItem(t, item, value, at) == Read(FieldValue(item, date), at + |RenderItem(t, item, date, shift)|)
  {
    hide Month, DayOfMonth, Year, FormattedDayOfYear, DayOfYear, ReadNumber, FormatNumber, Number, MonthLength;
    LengthsInRange(Year(date), Month(date));
    FormattedDayOfYearIs(date, shift);
    var v := FieldValue(item, date);
    assert 1 <= v <= 366;
    var len := MaxDigits(item);
    SmallNumber(v, item.doubled, len);
    NumberIsRead(value, at, RenderItem(t, item, date, shift), rest, 1, len);
  }

  lemma ItemIsRead(t: Settings, item: Item, date: int, shift: int, value: string, at: nat, rest: string)
    requires Legible(t) && Printable(item, Year(date))
    requires ClockHolds(date, shift) && InPlace(t, item, date, shift, value, at, rest)
    ensures ReadItem(t, item, value, at) == Read(FieldValue(item, date), at + |RenderItem(t, item, date, shift)|)
  {
    hide Month, DayOfMonth, Year, Weekday, ReadNumber, ReadName, FormatNumber, FormatYear, PrefixFree, Number;
    match item {
      case YearField(doubled) =>
        YearText(Year(date), doubled);
        NumberIsRead(value, at, FormatYear(Year(date), doubled), rest, if doubled then 4 else 2, if doubled then 4 else 2);
      case DayName(doubled) =>
        NameIsRead(t.lower, if doubled then t.dayNames else t.dayNamesShort, Weekday(date), value, at, rest);
      case MonthName(doubled) =>
        NameIsRead(t.lower, if doubled then t.monthNames else t.monthNamesShort, Month(date), value, at, rest);
      case Literal(c) =>
        assert value[at] == value[at..][0];
      case _ =>
        NumberFieldIsRead(t, item, date, shift, value, at, rest);
    }
  }

  /** The fields are found where they were printed, with the values they had. */
  lemma {:induction false} ScanRecovers(t: Settings, items: seq<Item>, date: int, shift: int,
                                        value: string, at: nat, parts: Parts, tail: string)
    requires Legible(t) && ClockHolds(date, shift)
    requires forall item | item in items :: Printable(item, Year(date))
    requires Separated(t, items, date, shift, tail)
    requires at <= |value| && value[at..] == Render(t, items, date, shift) + tail
    ensures ReadItems(t, items, value, at, parts) == Done(Recorded(items, date, parts), |value| - |tail|)
    decreases |items|
  {
    hide PrefixFree, RenderItem, ReadItem, FieldValue, Record, ClockHolds, Printable;
    if items == [] {
      assert "" + tail == tail;
      assert |value[at..]| == |value| - at;
    } else {
      var text := RenderItem(t, items[0], date, shift);
      var rest := Render(t, items[1..], date, shift) + tail;
      assert Render(t, items, date, shift) + tail == text + rest;
      ItemIsRead(t, items[0], date, shift, value, at, rest);
      var next := at + |text|;
      assert |value[at..]| == |text| + |rest|;
      assert value[next..] == value[at..][|text|..] == rest;
      ScanRecovers(t, items[1..], date, shift, value, next, Record(parts, items[0], FieldValue(items[0], date)), tail);
    }
  }

  // ---- Making the date of the fields ----

  predicate NamesDay(item: Item) {
    item.DayField?
  }

  predicate NamesMonth(item: Item) {
    item.MonthField? || item.MonthName?
  }

  predicate NamesYearDay(item: Item) {
    item.YearDayField?
  }

  predicate Has(items: seq<Item>, p: Item -> bool) {
    items != [] && (p(items[0]) || Has(items[1..], p))
  }

  /** Is there a day of the year, or a day and a month? */
  predicate Determines(items: seq<Item>) {
    Has(items, NamesYearDay) || (Has(items, NamesDay) && Has(items, NamesMonth))
  }

  /** The last year field counts: is it one of four digits? */
  function LastYear(items: seq<Item>): Option<bool> {
    if items == [] then None
    else
      var later := LastYear(items[1..]);
      if later.Some? then later else if items[0].YearField? then Some(items[0].doubled) else None
  }

  lemma {:induction false} LastYearIsRecorded(items: seq<Item>, date: int, parts: Parts)
    ensures Recorded(items, date, parts).year ==
      match LastYear(items)
      case None => parts.year
      case Some(full) => FieldValue(YearField(full), date)
  {
    if items != [] {
      LastYearIsRecorded(items[1..], date, Record(parts, items[0], FieldValue(items[0], date)));
    }
  }

  lemma {:induction false} PartsAreRecorded(items: seq<Item>, date: int, parts: Parts)
    ensures var r := Recorded(items, date, parts);
      && (r.day == if Has(items, NamesDay) then DayOfMonth(date) else parts.day)
      && (r.month == if Has(items, NamesMonth) then Month(date) + 1 else parts.month)
      && (r.doy == if Has(items, NamesYearDay) then DayOfYear(date) else parts.doy)
  {
    if items != [] {
      PartsAreRecorded(items[1..], date, Record(parts, items[0], FieldValue(items[0], date)));
    }
  }

  /** The 100 years that a year of two digits can mean. */
  predicate InWindow(y: int, now: nat, cutoff: int) {
    var last := now - now % 100 + (if cutoff < -1 then -1 else if cutoff > 99 then 99 else cutoff);
    last - 99 <= y <= last
  }

  lemma WindowIsMeant(y: int, now: nat, cutoff: int)
    ensures MeantYear(y % 100, now, cutoff) == y <==> InWindow(y, now, cutoff)
  {
    var q, b := y / 100, now / 100;
    assert y == 100 * q + y % 100 && now == 100 * b + now % 100;
  }

  /** Does the format, read in the year `now`, say which year was meant? */
  predicate YearComesBack(items: seq<Item>, y: int, now: nat, cutoff: int) {
    match LastYear(items)
    case None => y == now
    case Some(full) => full || InWindow(y, now, cutoff)
  }

  lemma MeantYearIs(items: seq<Item>, date: int, now: nat, cutoff: int)
    requires Year(date) >= 100
    ensures MeantYear(Recorded(items, date, Parts(-1, -1, -1, -1)).year, now, cutoff) == Year(date)
       <==> YearComesBack(items, Year(date), now, cutoff)
  {
    hide Year, LastYear, Recorded, InWindow;
    LastYearIsRecorded(items, date, Parts(-1, -1, -1, -1));
    WindowIsMeant(Year(date), now, cutoff);
  }

  /** With the right year, month and day, or the right day of the year, the date is right; with
      a wrong year it is not. */
  lemma ResolveIs(parts: Parts, date: int, now: nat, cutoff: int)
    requires Year(date) >= 100
    requires if parts.doy > -1 then parts.doy == DayOfYear(date)
             else parts.month == Month(date) + 1 && parts.day == DayOfMonth(date)
    ensures Resolve(parts, now, cutoff) == Date(date) <==> MeantYear(parts.year, now, cutoff) == Year(date)
  {
    var year := MeantYear(parts.year, now, cutoff);
    PartsDate(date);
    hide Year, Month, DayOfMonth, YearStart, MeantYear, MonthStart, MonthLength, YearLength;
    assert DayOfYear(date) == date - YearStart(Year(date)) + 1;
    if parts.doy > -1 {
      if year != Year(date) && 1 <= parts.doy <= YearLength(year) {
        NextYearStart(year);
        YearIsUnique(YearStart(year) + parts.doy - 1, year);
      }
    } else {
      if year == Year(date) {
        assert NewDate(year, Month(date), DayOfMonth(date)) == date;
      }
    }
  }

  lemma {:induction false} PaddingGrows(num: string, len: nat)
    ensures |Padded(num, len)| >= |num|
    decreases len - |num|
  {
    if |num| < len {
      PaddingGrows("0" + num, len);
    }
  }

  lemma NumbersShow(v: int, doubled: bool, len: nat)
    ensures FormatNumber(v, doubled, len) != ""
  {
    if v >= 0 {
      DecimalReads(v);
    }
    PaddingGrows(Shown(v), len);
  }

  /** A format with a field to read prints something. */
  lemma {:induction false} FieldsShow(t: Settings, items: seq<Item>, date: int, shift: int)
    requires Complete(t) && (Has(items, NamesYearDay) || Has(items, NamesDay))
    ensures Render(t, items, date, shift) != ""
  {
    hide FormatNumber, FormattedDayOfYear, DayOfMonth;
    if items[0].YearDayField? {
      NumbersShow(FormattedDayOfYear(date, shift), items[0].doubled, 3);
    } else if items[0].DayField? {
      NumbersShow(DayOfMonth(date), items[0].doubled, 2);
    } else {
      FieldsShow(t, items[1..], date, shift);
    }
  }

  /** Parsing a printed date, followed by nothing or white space, gives it back exactly when the
      format says the year: with four digits, with two and the year in the window of the cutoff,
      or not at all in that year itself. */
  lemma RoundTrip(t: Settings, format: string, date: int, shift: int, now: nat, tail: string)
    requires Legible(t) && ClockHolds(date, shift) && Dated(format, 0, false)
    requires var items := Items(format, 0, false);
      && Determines(items) && Separated(t, items, date, shift, tail)
      && forall item | item in items :: Printable(item, Year(date))
    requires tail == "" || Space(tail[0])
    ensures var items := Items(format, 0, false);
      Parse(t, items, Render(t, items, date, shift) + tail, now) == Date(date)
      <==> YearComesBack(items, Year(date), now, t.shortYearCutoff)
  {
    hide PrefixFree, Items, Dated, Render, Separated, ReadItems, Recorded, Has, YearComesBack, Resolve;
    hide DayOfYear, Year, Month, DayOfMonth, Space, Printable, MeantYear;
    var items := Items(format, 0, false);
    var value := Render(t, items, date, shift) + tail;
    var start := Parts(-1, -1, -1, -1);
    assert value[0..] == value;
    ScanRecovers(t, items, date, shift, value, 0, start, tail);
    PartsAreRecorded(items, date, start);
    MeantYearIs(items, date, now, t.shortYearCutoff);
    ResolveIs(Recorded(items, date, start), date, now, t.shortYearCutoff);
    FieldsShow(t, items, date, shift);
    var at := |value| - |tail|;
    assert value[at..] == tail;
  }

  // ---- Formats of doubled letters ----

  /** All numbers are doubled letters, or years. */
  predicate FixedWidth(items: seq<Item>) {
    forall item | item in items && Numeric(item) :: item.doubled || item.YearField?
  }

  /** A doubled letter is printed as wide as it is read. */
  lemma FixedWidthItem(t: Settings, item: Item, date: int, shift: int)
    requires Complete(t) && ClockHolds(date, shift) && Printable(item, Year(date))
    requires Numeric(item) && (item.doubled || item.YearField?)
    ensures |RenderItem(t, item, date, shift)| == MaxDigits(item)
  {
    hide Month, DayOfMonth, Year, FormattedDayOfYear, DayOfYear, FormatNumber, FormatYear, Number, MonthLength;
    if item.YearField? {
      YearText(Year(date), item.doubled);
    } else {
      LengthsInRange(Year(date), Month(date));
      FormattedDayOfYearIs(date, shift);
      SmallNumber(FieldValue(item, date), item.doubled, MaxDigits(item));
    }
  }

  /** Formats of dd, mm, oo, yy and y, names and literals are separated whatever the date. */
  lemma {:induction false} FixedWidthIsSeparated(t: Settings, items: seq<Item>, date: int, shift: int, tail: string)
    requires Complete(t) && ClockHolds(date, shift) && FixedWidth(items)
    requires forall item | item in items :: Printable(item, Year(date))
    ensures Separated(t, items, date, shift, tail)
  {
    hide RenderItem, Render, Printable, ClockHolds, Year;
    if items != [] {
      if Numeric(items[0]) {
        FixedWidthItem(t, items[0], date, shift);
      }
      FixedWidthIsSeparated(t, items[1..], date, shift, tail);
    }
  }

  /** For these formats the date comes back exactly when the format says the year. */
  lemma FixedWidthRoundTrip(t: Settings, format: string, date: int, shift: int, now: nat, tail: string)
    requires Legible(t) && ClockHolds(date, shift) && Dated(format, 0, false)
    requires var items := Items(format, 0, false);
      Determines(items) && FixedWidth(items) && forall item | item in items :: Printable(item, Year(date))
    requires tail == "" || Space(tail[0])
    ensures var items := Items(format, 0, false);
      Parse(t, items, Render(t, items, date, shift) + tail, now) == Date(date)
      <==> YearComesBack(items, Year(date), now, t.shortYearCutoff)
  {
    hide Items, Dated, Render, Separated, Parse, Printable, ClockHolds, FixedWidth, Determines, PrefixFree, Space, Year;
    FixedWidthIsSeparated(t, Items(format, 0, false), date, shift, tail);
    RoundTrip(t, format, date, shift, now, tail);
  }

  /** The year 1899 is printed as "0-1", which is no number of two digits. */
  lemma Year1899IsNotRead(rest: string)
    ensures FormatYear(1899, false) == "0-1"
    ensures ReadNumber("0-1" + rest, 0, 2, 2) == Failed(MissingNumber(0))
  {
    var value := "0-1" + rest;
    assert value[0..] == value && value[0] == '0' && value[1] == '-';
    assert value[1..][0] == '-';
  }
}
