/** What a format prints, letter by letter, and what texts the parser takes for it. */
module DateParsing {
  import opened Numbers
  import opened Optional
  import opened Calendar
  import opened Datepicker
  import opened DateFormat
  import opened DateRoundTrip

  // ---- What a format prints ----

  function Printed(t: Settings, format: string, date: int, shift: int): string
    requires Complete(t)
  {
    Render(t, Items(format, 0, false), date, shift)
  }

  /** The rest of a format says the same whatever came before it. */
  lemma {:induction false} ItemsOfRest(before: string, rest: string, i: nat, literal: bool)
    requires i <= |rest|
    ensures Items(before + rest, |before| + i, literal) == Items(rest, i, literal)
    decreases |rest| - i
  {
    hide StepAt;
    if i < |rest| {
      var s, s' := StepAt(rest, i, literal), StepAt(before + rest, |before| + i, literal);
      StepOfRest(before, rest, i, literal);
      ItemsOfRest(before, rest, s.next, s.literal);
    }
  }

  lemma StepOfRest(before: string, rest: string, i: nat, literal: bool)
    requires i < |rest|
    ensures var s := StepAt(rest, i, literal);
      StepAt(before + rest, |before| + i, literal) == s.(next := |before| + s.next)
  {
    var all := before + rest;
    assert all[|before| + i] == rest[i];
    if i + 1 < |rest| {
      assert all[|before| + (i + 1)] == rest[i + 1];
    }
  }

  /** A character that is not a doubled letter. */
  lemma SingleLetter(t: Settings, c: char, rest: string, date: int, shift: int)
    requires Complete(t) && c !in {'\'', '@', '!'} && (c in "dmoyDM" ==> rest == "" || rest[0] != c)
    ensures Printed(t, [c] + rest, date, shift) ==
      (if c == 'd' then Shown(DayOfMonth(date))
       else if c == 'm' then Shown(Month(date) + 1)
       else if c == 'o' then Shown(FormattedDayOfYear(date, shift))
       else if c == 'y' then
         (if Remainder(Year(date) - 1900, 100) < 10 then "0" else "") + Shown(Remainder(Year(date) - 1900, 100))
       else if c == 'D' then t.dayNamesShort[Weekday(date)]
       else if c == 'M' then t.monthNamesShort[Month(date)]
       else [c]) + Printed(t, rest, date, shift)
  {
    hide Year, Month, DayOfMonth, Weekday, FormattedDayOfYear, Shown, Remainder, Items, Render;
    RenderStep(t, [c] + rest, 0, false, date, shift);
    ItemsOfRest([c], rest, 0, false);
  }

  /** A letter that is doubled. */
  lemma DoubledLetter(t: Settings, c: char, rest: string, date: int, shift: int)
    requires Complete(t) && c in "dmoyDM"
    ensures Printed(t, [c, c] + rest, date, shift) ==
      (if c == 'd' then Padded(Shown(DayOfMonth(date)), 2)
       else if c == 'm' then Padded(Shown(Month(date) + 1), 2)
       else if c == 'o' then Padded(Shown(FormattedDayOfYear(date, shift)), 3)
       else if c == 'y' then Shown(Year(date))
       else if c == 'D' then t.dayNames[Weekday(date)]
       else t.monthNames[Month(date)]) + Printed(t, rest, date, shift)
  {
    hide Year, Month, DayOfMonth, Weekday, FormattedDayOfYear, Shown, Remainder, Items, Render, Padded;
    var format := [c, c] + rest;
    RenderStep(t, format, 0, false, date, shift);
    ItemsOfRest([c, c], rest, 0, false);
    assert StepAt(format, 0, false).next == 2;
  }

  /** A doubled quote stands for a quote, in quotes and outside. */
  lemma DoubledQuote(t: Settings, rest: string, date: int, shift: int)
    requires Complete(t)
    ensures Printed(t, "''" + rest, date, shift) == "'" + Printed(t, rest, date, shift)
  {
    hide Items, Render;
    RenderStep(t, "''" + rest, 0, false, date, shift);
    ItemsOfRest("''", rest, 0, false);
  }

  /** Text in quotes stands for itself. */
  lemma QuotedText(t: Settings, text: string, rest: string, date: int, shift: int)
    requires Complete(t) && text != "" && '\'' !in text && (rest == "" || rest[0] != '\'')
    ensures Printed(t, "'" + text + "'" + rest, date, shift) == text + Printed(t, rest, date, shift)
  {
    hide Items, Render;
    var inside := text + "'" + rest;
    assert "'" + text + "'" + rest == "'" + inside;
    RenderStep(t, "'" + inside, 0, false, date, shift);
    ItemsOfRest("'", inside, 0, true);
    InsideQuotes(t, text, rest, date, shift);
  }

  lemma {:induction false} InsideQuotes(t: Settings, text: string, rest: string, date: int, shift: int)
    requires Complete(t) && '\'' !in text && (rest == "" || rest[0] != '\'')
    ensures Render(t, Items(text + "'" + rest, 0, true), date, shift) == text + Printed(t, rest, date, shift)
    decreases |text|
  {
    hide Items, Render;
    var inside := text + "'" + rest;
    RenderStep(t, inside, 0, true, date, shift);
    if text == "" {
      assert inside == "'" + rest;
      ItemsOfRest("'", rest, 0, false);
    } else {
      var after := text[1..] + "'" + rest;
      assert inside == [text[0]] + after;
      ItemsOfRest([text[0]], after, 0, true);
      InsideQuotes(t, text[1..], rest, date, shift);
    }
  }

  const DIGITS := "0123456789"

  /** Numbers in digits, with zeros in front where the letter is doubled. */
  lemma NumbersPrint(v: nat)
    ensures v < 10 ==>
      && Shown(v) == [DIGITS[v]]
      && Padded(Shown(v), 2) == ['0', DIGITS[v]] && Padded(Shown(v), 3) == ['0', '0', DIGITS[v]]
    ensures 10 <= v < 100 ==>
      && Shown(v) == [DIGITS[v / 10], DIGITS[v % 10]] && Padded(Shown(v), 2) == Shown(v)
      && Padded(Shown(v), 3) == ['0', DIGITS[v / 10], DIGITS[v % 10]]
    ensures 100 <= v ==>
      && Shown(v) == Shown(v / 10) + [DIGITS[v % 10]]
      && Padded(Shown(v), 3) == Padded(Shown(v), 2) == Shown(v)
  {
    assert forall d: nat | d < 10 :: Digit(d) == DIGITS[d];
    var num := Decimal(v);
    if v < 10 {
      assert "0" + num == ['0', DIGITS[v]];
      assert "0" + ['0', DIGITS[v]] == ['0', '0', DIGITS[v]];
      assert Padded("0" + num, 3) == Padded("0" + ("0" + num), 3);
    } else if v < 100 {
      assert num == Decimal(v / 10) + [Digit(v % 10)];
      assert Decimal(v / 10) == [Digit(v / 10)];
      assert num == [DIGITS[v / 10], DIGITS[v % 10]];
      assert "0" + num == ['0', DIGITS[v / 10], DIGITS[v % 10]];
    } else {
      AtLeastThree(v);
    }
  }

  lemma {:induction false} AtLeastThree(v: nat)
    requires v >= 100
    ensures |Decimal(v)| >= 3
  {
    if v >= 1000 {
      AtLeastThree(v / 10);
    } else {
      DecimalLength(v);
    }
  }

  /** 1 January 2000 was a Saturday. */
  lemma FirstOf2000(t: Settings, shift: int)
    requires Complete(t)
    ensures Printed(t, "DD", DayNumber(2000, 0, 1), shift) == t.dayNames[6]
  {
    var date := DayNumber(2000, 0, 1);
    assert Weekday(date) == 6 by { assert MonthStart(2000, 0) == 0; }
    hide Weekday, DayNumber;
    DoubledLetter(t, 'D', "", date, shift);
    assert ['D', 'D'] + "" == "DD";
    NothingPrinted(t, date, shift);
  }

  lemma NothingPrinted(t: Settings, date: int, shift: int)
    requires Complete(t)
    ensures Printed(t, "", date, shift) == ""
  {
  }

  // ---- Which texts the parser takes ----

  function NamesFor(t: Settings, item: Item): seq<string>
    requires item.DayName? || item.MonthName?
  {
    if item.DayName? then (if item.doubled then t.dayNames else t.dayNamesShort)
    else (if item.doubled then t.monthNames else t.monthNamesShort)
  }

  /** `piece` can stand for the item with value `v`: one or two digits for a day or month, one to
      three for a day of the year, exactly four or two for a year, a name in any letter case. */
  predicate Fits(t: Settings, item: Item, piece: string, v: int) {
    match item
    case DayField(_) => 1 <= |piece| <= 2 && AllDigits(piece) && v == Number(piece)
    case MonthField(_) => 1 <= |piece| <= 2 && AllDigits(piece) && v == Number(piece)
    case YearDayField(_) => 1 <= |piece| <= 3 && AllDigits(piece) && v == Number(piece)
    case YearField(doubled) => |piece| == (if doubled then 4 else 2) && AllDigits(piece) && v == Number(piece)
    case DayName(_) => IsName(t, item, piece, v)
    case MonthName(_) => IsName(t, item, piece, v)
    case Literal(c) => piece == [c] && v == 0
  }

  predicate IsName(t: Settings, item: Item, piece: string, v: int)
    requires item.DayName? || item.MonthName?
  {
    && 1 <= v <= |NamesFor(t, item)| && |piece| == |NamesFor(t, item)[v - 1]|
    && forall i | 0 <= i < |piece| :: t.lower(piece[i]) == t.lower(NamesFor(t, item)[v - 1][i])
  }

  /** An item is read as the longest piece at the front of the text that fits, and refused exactly
      when none does, at the place where it was expected. */
  lemma ItemReads(t: Settings, item: Item, value: string, at: nat)
    requires at <= |value|
    ensures var r := ReadItem(t, item, value, at);
      && (r.Read? ==> Fits(t, item, value[at..r.next], r.value))
      && (forall k, v | at <= k <= |value| && Fits(t, item, value[at..k], v) :: r.Read? && k <= r.next)
      && (r.Failed? ==> r.error == (if item.Literal? then UnexpectedLiteral(at)
                                    else if item.DayName? || item.MonthName? then UnknownName(at)
                                    else MissingNumber(at)))
  {
    if item.DayName? || item.MonthName? {
      NameReads(t, item, value, at);
    } else if !item.Literal? {
      NumberReads(value, at, if item.YearField? then MaxDigits(item) else 1, MaxDigits(item));
    }
    hide Number, AllDigits;
  }

  lemma NumberReads(value: string, at: nat, minSize: nat, size: nat)
    requires at <= |value| && minSize <= size
    ensures var r := ReadNumber(value, at, minSize, size);
      && (r.Read? ==>
            minSize <= r.next - at <= size && AllDigits(value[at..r.next]) && r.value == Number(value[at..r.next]))
      && (forall k | at + minSize <= k <= |value| && k <= at + size && AllDigits(value[at..k]) :: r.Read? && k <= r.next)
      && (r.Failed? ==> r.error == MissingNumber(at))
  {
    var text := value[at..];
    var n := DigitRun(text, size);
    assert text[..n] == value[at..at + n];
    forall k | at + minSize <= k <= |value| && k <= at + size && AllDigits(value[at..k])
      ensures k - at <= n
    {
      assert forall j | 0 <= j < k - at :: value[at..k][j] == text[j];
    }
  }

  lemma NameReads(t: Settings, item: Item, value: string, at: nat)
    requires at <= |value| && (item.DayName? || item.MonthName?)
    ensures var r := ReadItem(t, item, value, at);
      && r == ReadName(t.lower, NamesFor(t, item), value, at)
      && (r.Read? ==> IsName(t, item, value[at..r.next], r.value))
      && (forall k, v | at <= k <= |value| && IsName(t, item, value[at..k], v) :: r.Read? && k <= r.next)
      && (r.Failed? ==> r.error == UnknownName(at))
  {
    var names, text := NamesFor(t, item), value[at..];
    var found := FindName(t.lower, names, 0, text);
    forall j: nat | j < |names| && |names[j]| <= |text|
      ensures text[..|names[j]|] == value[at..at + |names[j]|]
    {
    }
    forall k, v | at <= k <= |value| && IsName(t, item, value[at..k], v)
      ensures found.Some? && k <= at + |names[found.value]|
    {
      assert value[at..k] == text[..|names[v - 1]|];
      assert StartsWith(t.lower, text, names[v - 1]);
    }
  }

  function Joined(pieces: seq<string>): string {
    if pieces == [] then "" else pieces[0] + Joined(pieces[1..])
  }

  /** The pieces fit the items, one by one. */
  predicate AllFit(t: Settings, items: seq<Item>, pieces: seq<string>, values: seq<int>) {
    && |pieces| == |values| == |items|
    && forall i | 0 <= i < |items| :: Fits(t, items[i], pieces[i], values[i])
  }

  /** Whatever is read is made of pieces that fit the items, side by side. */
  lemma {:induction false} ReadTextFits(t: Settings, items: seq<Item>, value: string, at: nat, parts: Parts)
    returns (pieces: seq<string>, values: seq<int>)
    requires at <= |value| && ReadItems(t, items, value, at, parts).Done?
    ensures var next := ReadItems(t, items, value, at, parts).next;
      AllFit(t, items, pieces, values) && value[at..next] == Joined(pieces)
    ensures ReadItems(t, items, value, at, parts).parts == FieldsOf(items, values, parts)
  {
    hide Fits, ReadItem;
    if items == [] {
      pieces, values := [], [];
    } else {
      ItemReads(t, items[0], value, at);
      var r := ReadItem(t, items[0], value, at);
      var rest, more := ReadTextFits(t, items[1..], value, r.next, Record(parts, items[0], r.value));
      pieces, values := [value[at..r.next]] + rest, [r.value] + more;
      var next := ReadItems(t, items, value, at, parts).next;
      assert value[at..next] == value[at..r.next] + value[r.next..next];
      assert pieces[1..] == rest && values[1..] == more;
      FirstField(items, values, parts);
    }
  }

  /** The fields as last read. */
  function FieldsOf(items: seq<Item>, values: seq<int>, parts: Parts): Parts
    requires |items| == |values|
  {
    Parts(LastOf(items, values, NamesYear, parts.year), LastOf(items, values, NamesMonth, parts.month),
          LastOf(items, values, NamesDay, parts.day), LastOf(items, values, NamesYearDay, parts.doy))
  }

  predicate NamesYear(item: Item) {
    item.YearField?
  }

  /** The value of the last item of a kind. */
  function LastOf(items: seq<Item>, values: seq<int>, kind: Item -> bool, otherwise: int): int
    requires |items| == |values|
  {
    if items == [] then otherwise
    else if kind(items[|items| - 1]) then values[|items| - 1]
    else LastOf(items[..|items| - 1], values[..|items| - 1], kind, otherwise)
  }

  lemma FirstField(items: seq<Item>, values: seq<int>, parts: Parts)
    requires |items| == |values| > 0
    ensures FieldsOf(items, values, parts) == FieldsOf(items[1..], values[1..], Record(parts, items[0], values[0]))
  {
    hide LastOf;
    FirstOfKind(items, values, NamesYear, parts.year);
    FirstOfKind(items, values, NamesMonth, parts.month);
    FirstOfKind(items, values, NamesDay, parts.day);
    FirstOfKind(items, values, NamesYearDay, parts.doy);
  }

  lemma {:induction false} FirstOfKind(items: seq<Item>, values: seq<int>, kind: Item -> bool, otherwise: int)
    requires |items| == |values| > 0
    ensures LastOf(items, values, kind, otherwise)
         == LastOf(items[1..], values[1..], kind, if kind(items[0]) then values[0] else otherwise)
    decreases |items|
  {
    if |items| > 1 {
      var k := |items| - 1;
      assert items[..k][1..] == items[1..][..k - 1] && values[..k][1..] == values[1..][..k - 1];
      FirstOfKind(items[..k], values[..k], kind, otherwise);
    }
  }

  // ---- Which dates the parser accepts ----

  /** The end of the text is reached, or white space. */
  predicate EndsAt(value: string, next: nat) {
    next >= |value| || Space(value[next])
  }

  /** When no day of the year has been read, exactly the days that exist are accepted, in years
      that the constructor takes as they are. */
  lemma MonthAndDay(t: Settings, items: seq<Item>, value: string, now: nat, n: int)
    requires value != "" && var scan := ReadItems(t, items, value, 0, Parts(-1, -1, -1, -1));
      scan.Done? && EndsAt(value, scan.next) && scan.parts.doy == -1
    ensures var parts := ReadItems(t, items, value, 0, Parts(-1, -1, -1, -1)).parts;
      var y := MeantYear(parts.year, now, t.shortYearCutoff);
      && (Parse(t, items, value, now) == Date(n) <==>
            && !(0 <= y <= 99) && 1 <= parts.month <= 12 && 1 <= parts.day <= MonthLength(y, parts.month - 1)
            && n == DayNumber(y, parts.month - 1, parts.day))
      && (Parse(t, items, value, now).Date? || Parse(t, items, value, now) == Bad(InvalidDate))
  {
    hide ReadItems, Space, MeantYear, NewDate, Year, Month, DayOfMonth, DayNumber, MonthLength;
    var parts := ReadItems(t, items, value, 0, Parts(-1, -1, -1, -1)).parts;
    MonthAndDayExist(MeantYear(parts.year, now, t.shortYearCutoff), parts.month, parts.day);
  }

  lemma MonthAndDayExist(y: int, month: int, day: int)
    ensures var date := NewDate(y, month - 1, day);
      && (Year(date) == y && Month(date) + 1 == month && DayOfMonth(date) == day <==>
            !(0 <= y <= 99) && 1 <= month <= 12 && 1 <= day <= MonthLength(y, month - 1))
      && (!(0 <= y <= 99) && 1 <= month <= 12 ==> date == DayNumber(y, month - 1, day))
  {
    var date := NewDate(y, month - 1, day);
    PartsDate(date);
    hide YearStart, Year, Month, DayOfMonth, MonthStart, MonthLength, YearLength;
    if 1 <= month <= 12 {
      assert (month - 1) / 12 == 0 && (month - 1) % 12 == month - 1;
      if 0 <= y <= 99 {
        if day >= 1 {
          LaterYear(1900 + y, month - 1, day, date);
        }
      } else if 1 <= day <= MonthLength(y, month - 1) {
        DateParts(y, month - 1, day);
      }
    }
  }

  lemma LaterYear(y: int, m: int, d: int, date: int)
    requires 0 <= m < 12 && d >= 1 && date == DayNumber(y, m, d)
    ensures Year(date) >= y
  {
    MonthStartsGrow(y, 0, m);
    assert YearStart(y) <= date by { assert MonthStart(y, 0) == 0; }
    if Year(date) < y {
      YearStartsGrow(Year(date) + 1, y);
    }
  }

  /** A day of the year wins over month and day, and is accepted when the year has it. */
  lemma DayInYear(t: Settings, items: seq<Item>, value: string, now: nat, n: int)
    requires value != "" && var scan := ReadItems(t, items, value, 0, Parts(-1, -1, -1, -1));
      scan.Done? && EndsAt(value, scan.next) && scan.parts.doy >= 0
    ensures var parts := ReadItems(t, items, value, 0, Parts(-1, -1, -1, -1)).parts;
      var y := MeantYear(parts.year, now, t.shortYearCutoff);
      && (Parse(t, items, value, now) == Date(n) <==>
            !(0 <= y <= 99) && 1 <= parts.doy <= (if IsLeap(y) then 366 else 365) && n == DayNumber(y, 0, 1) + parts.doy - 1)
      && (Parse(t, items, value, now).Date? || Parse(t, items, value, now) == Bad(InvalidDate))
  {
    hide ReadItems, Space, MeantYear, NewDate, Year, Month, DayOfMonth, IsLeap, YearStart;
  }

  /** A visible character of ASCII behind the date is refused, white space is not; of an empty
      text no date is made. */
  lemma CharactersBehind(t: Settings, items: seq<Item>, value: string, now: nat)
    requires value != "" && var scan := ReadItems(t, items, value, 0, Parts(-1, -1, -1, -1));
      scan.Done? && scan.next < |value|
    ensures var scan := ReadItems(t, items, value, 0, Parts(-1, -1, -1, -1));
      && ('!' <= value[scan.next] <= '~' ==> Parse(t, items, value, now) == Bad(ExtraCharacters(scan.next)))
      && (value[scan.next] in " \t\n\r\U{0B}\U{0C}\U{A0}\U{2028}\U{2029}\U{FEFF}" ==>
            Parse(t, items, value, now).Date? || Parse(t, items, value, now) == Bad(InvalidDate))
      && Parse(t, items, "", now) == Blank
  {
    hide ReadItems, NewDate, YearStart, MeantYear;
  }
}
