/** Dates as text: the format language of the datepicker, its printer and its parser. */
module DateFormat {
  import opened Numbers
  import opened Optional
  import opened Calendar
  import opened Datepicker

  /** The name tables, the cutoff year as a number, and lower-casing of a character. */
  datatype Settings = Settings(dayNamesShort: seq<string>, dayNames: seq<string>,
                               monthNamesShort: seq<string>, monthNames: seq<string>,
                               shortYearCutoff: int, lower: char -> char)

  predicate Complete(t: Settings) {
    |t.dayNamesShort| == 7 && |t.dayNames| == 7 && |t.monthNamesShort| == 12 && |t.monthNames| == 12
  }

  /** What a format is made of. */
  datatype Item =
    | DayField(doubled: bool)
    | MonthField(doubled: bool)
    | YearDayField(doubled: bool)
    | YearField(doubled: bool)
    | DayName(doubled: bool)
    | MonthName(doubled: bool)
    | Literal(c: char)

  // ---- Reading the format ----

  /** `lookAhead` */
  predicate Doubled(format: string, i: nat)
    requires i < |format|
  {
    i + 1 < |format| && format[i + 1] == format[i]
  }

  datatype Step = Step(item: Option<Item>, next: nat, literal: bool)

  /** One turn of the loop over the format. */
  function StepAt(format: string, i: nat, literal: bool): (s: Step)
    requires i < |format|
    ensures i < s.next <= |format|
  {
    var c := format[i];
    var doubled := Doubled(format, i);
    var past := if doubled then i + 2 else i + 1;
    if c == '\'' then
      if doubled then Step(Some(Literal(c)), past, literal) else Step(None, past, !literal)
    else if literal then Step(Some(Literal(c)), i + 1, true)
    else match c
      case 'd' => Step(Some(DayField(doubled)), past, false)
      case 'm' => Step(Some(MonthField(doubled)), past, false)
      case 'o' => Step(Some(YearDayField(doubled)), past, false)
      case 'y' => Step(Some(YearField(doubled)), past, false)
      case 'D' => Step(Some(DayName(doubled)), past, false)
      case 'M' => Step(Some(MonthName(doubled)), past, false)
      case _ => Step(Some(Literal(c)), i + 1, false)
  }

  /** No time stamps: no "@" and no "!" outside quotes. */
  predicate Dated(format: string, i: nat, literal: bool)
    requires i <= |format|
    decreases |format| - i
  {
    i == |format| ||
    (&& (literal || (format[i] != '@' && format[i] != '!'))
     && Dated(format, StepAt(format, i, literal).next, StepAt(format, i, literal).literal))
  }

  function Items(format: string, i: nat, literal: bool): seq<Item>
    requires i <= |format|
    decreases |format| - i
  {
    if i == |format| then []
    else
      var s := StepAt(format, i, literal);
      (if s.item.Some? then [s.item.value] else []) + Items(format, s.next, s.literal)
  }

  // ---- Numbers as text ----

  predicate IsDigit(c: char) {
    '0' <= c <= '9'
  }

  predicate AllDigits(s: string) {
    forall i | 0 <= i < |s| :: IsDigit(s[i])
  }

  function Digit(d: nat): (c: char)
    requires d < 10
    ensures IsDigit(c)
  {
    (d + '0' as int) as char
  }

  function Decimal(n: nat): string {
    if n < 10 then [Digit(n)] else Decimal(n / 10) + [Digit(n % 10)]
  }

  /** `"" + n` */
  function Shown(n: int): string {
    if n < 0 then "-" + Decimal(-n) else Decimal(n)
  }

  function Padded(num: string, len: nat): string
    decreases len - |num|
  {
    if |num| < len then Padded("0" + num, len) else num
  }

  /** `parseInt( s, 10 )` */
  function Number(s: string): nat
    requires AllDigits(s)
  {
    if s == "" then 0 else 10 * Number(s[..|s| - 1]) + (s[|s| - 1] as int - '0' as int)
  }

  lemma {:induction false} DecimalReads(n: nat)
    ensures AllDigits(Decimal(n)) && Number(Decimal(n)) == n
    ensures |Decimal(n)| >= 1
  {
    if n >= 10 {
      DecimalReads(n / 10);
      var s := Decimal(n / 10) + [Digit(n % 10)];
      assert s[..|s| - 1] == Decimal(n / 10);
    } else {
      assert [Digit(n)][..0] == "";
    }
  }

  lemma DecimalLength(n: nat)
    ensures n < 10 ==> |Decimal(n)| == 1
    ensures 10 <= n < 100 ==> |Decimal(n)| == 2
    ensures 100 <= n < 1000 ==> |Decimal(n)| == 3
    ensures 1000 <= n < 10000 ==> |Decimal(n)| == 4
  {
    if 10 <= n < 10000 {
      assert |Decimal(n)| == |Decimal(n / 10)| + 1;
      if 100 <= n {
        assert |Decimal(n / 10)| == |Decimal(n / 10 / 10)| + 1;
        if 1000 <= n {
          assert |Decimal(n / 10 / 10)| == |Decimal(n / 10 / 10 / 10)| + 1;
        }
      }
    }
  }

  lemma {:induction false} LeadingZero(s: string)
    requires AllDigits(s)
    ensures AllDigits("0" + s) && Number("0" + s) == Number(s)
  {
    if s == "" {
      assert ("0" + s)[..0] == "";
    } else {
      LeadingZero(s[..|s| - 1]);
      assert ("0" + s)[..|s|] == "0" + s[..|s| - 1];
    }
  }

  lemma {:induction false} PaddingReads(num: string, len: nat)
    requires AllDigits(num)
    ensures var p := Padded(num, len);
      AllDigits(p) && Number(p) == Number(num) && |p| == if |num| < len then len else |num|
    decreases len - |num|
  {
    if |num| < len {
      LeadingZero(num);
      PaddingReads("0" + num, len);
    }
  }

  // ---- Printing ----

  function FormatNumber(v: int, doubled: bool, len: nat): string {
    if doubled then Padded(Shown(v), len) else Shown(v)
  }

  /** `getYear()` counts from 1900. */
  function FormatYear(y: int, doubled: bool): string {
    if doubled then Shown(y)
    else (if Remainder(y - 1900, 100) < 10 then "0" else "") + Shown(Remainder(y - 1900, 100))
  }

  function RenderItem(t: Settings, item: Item, date: int, shift: int): string
    requires Complete(t)
  {
    match item
    case DayField(doubled) => FormatNumber(DayOfMonth(date), doubled, 2)
    case MonthField(doubled) => FormatNumber(Month(date) + 1, doubled, 2)
    case YearDayField(doubled) => FormatNumber(FormattedDayOfYear(date, shift), doubled, 3)
    case YearField(doubled) => FormatYear(Year(date), doubled)
    case DayName(doubled) => (if doubled then t.dayNames else t.dayNamesShort)[Weekday(date)]
    case MonthName(doubled) => (if doubled then t.monthNames else t.monthNamesShort)[Month(date)]
    case Literal(c) => [c]
  }

  /** What a format stands for: its items side by side. */
  function Render(t: Settings, items: seq<Item>, date: int, shift: int): string
    requires Complete(t)
  {
    if items == [] then "" else RenderItem(t, items[0], date, shift) + Render(t, items[1..], date, shift)
  }

  function RenderOption(t: Settings, item: Option<Item>, date: int, shift: int): string
    requires Complete(t)
  {
    if item.Some? then RenderItem(t, item.value, date, shift) else ""
  }

  lemma RenderStep(t: Settings, format: string, i: nat, literal: bool, date: int, shift: int)
    requires Complete(t) && i < |format|
    ensures var s := StepAt(format, i, literal);
      Render(t, Items(format, i, literal), date, shift) ==
      RenderOption(t, s.item, date, shift) + Render(t, Items(format, s.next, s.literal), date, shift)
  {
    hide RenderItem, StepAt;
    var s := StepAt(format, i, literal);
    var rest := Items(format, s.next, s.literal);
    if s.item.Some? {
      assert ([s.item.value] + rest)[1..] == rest;
    } else {
      assert [] + rest == rest;
    }
  }

  /** `formatNumber` */
  method WriteNumber(v: int, doubled: bool, len: nat) returns (num: string)
    ensures num == FormatNumber(v, doubled, len)
  {
    num := Shown(v);
    if doubled {
      while |num| < len
        invariant Padded(num, len) == Padded(Shown(v), len)
        decreases len - |num|
      {
        num := "0" + num;
      }
    }
  }

  /** One turn of the loop of `formatDate`. */
  method WriteItem(t: Settings, format: string, i: nat, literal: bool, date: int, shift: int)
    returns (text: string, next: nat, literal': bool)
    requires Complete(t) && i < |format| && (literal || (format[i] != '@' && format[i] != '!'))
    ensures var s := StepAt(format, i, literal);
      text == RenderOption(t, s.item, date, shift) && next == s.next && literal' == s.literal
  {
    hide Year, Month, DayOfMonth, Weekday, FormattedDayOfYear, FormatNumber, Shown, FormatYear;
    var c := format[i];
    var doubled := Doubled(format, i);
    text, next, literal' := [c], i + 1, literal;
    if c == '\'' {
      if doubled {
        next := i + 2;
      } else {
        text := "";
        literal' := !literal;
      }
    } else if !literal {
      var past := if doubled then i + 2 else i + 1;
      match c {
        case 'd' => text := WriteNumber(DayOfMonth(date), doubled, 2); next := past;
        case 'D' => text := (if doubled then t.dayNames else t.dayNamesShort)[Weekday(date)]; next := past;
        case 'o' => text := WriteNumber(FormattedDayOfYear(date, shift), doubled, 3); next := past;
        case 'm' => text := WriteNumber(Month(date) + 1, doubled, 2); next := past;
        case 'M' => text := (if doubled then t.monthNames else t.monthNamesShort)[Month(date)]; next := past;
        case 'y' => text := FormatYear(Year(date), doubled); next := past;
        case _ =>
      }
    }
  }

  lemma NothingLeft(t: Settings, format: string, literal: bool, date: int, shift: int)
    requires Complete(t)
    ensures Render(t, Items(format, |format|, literal), date, shift) == ""
  {
  }

  /** `formatDate` of day `date`; `shift` is how far the clock has been moved since the first
      of January. */
  method FormatDate(t: Settings, format: string, date: int, shift: int) returns (output: string)
    requires Complete(t) && Dated(format, 0, false)
    ensures output == Render(t, Items(format, 0, false), date, shift)
  {
    hide Year, Month, DayOfMonth, Weekday, FormattedDayOfYear, FormatNumber, Shown, FormatYear, Items, Render;
    output := "";
    var iFormat, literal := 0, false;
    while iFormat < |format|
      invariant iFormat <= |format| && Dated(format, iFormat, literal)
      invariant output + Render(t, Items(format, iFormat, literal), date, shift)
             == Render(t, Items(format, 0, false), date, shift)
    {
      RenderStep(t, format, iFormat, literal, date, shift);
      var text: string;
      text, iFormat, literal := WriteItem(t, format, iFormat, literal, date, shift);
      output := output + text;
    }
    NothingLeft(t, format, literal, date, shift);
  }

  // ---- Parsing ----

  datatype Error =
    | MissingNumber(at: nat)
    | UnknownName(at: nat)
    | UnexpectedLiteral(at: nat)
    | ExtraCharacters(at: nat)
    | InvalidDate

  datatype Parsed = Date(date: int) | Blank | Bad(error: Error)

  /** A value read and where the text goes on. */
  datatype Reading = Read(value: int, next: nat) | Failed(error: Error)

  /** The digits at the front of `s`, `size` of them at most. */
  function DigitRun(s: string, size: nat): (r: nat)
    ensures r <= size && r <= |s| && AllDigits(s[..r])
    ensures r == size || r == |s| || !IsDigit(s[r])
  {
    if size == 0 || s == "" || !IsDigit(s[0]) then 0 else DigitRun(s[1..], size - 1) + 1
  }

  function ReadNumber(value: string, at: nat, minSize: nat, size: nat): (r: Reading)
    requires at <= |value|
    ensures r.Read? ==> at <= r.next <= |value| && r.value >= 0
  {
    var k := DigitRun(value[at..], size);
    if k < minSize then Failed(MissingNumber(at)) else Read(Number(value[at..][..k]), at + k)
  }

  /** Equal when lower-cased. */
  predicate Same(lower: char -> char, a: string, b: string) {
    |a| == |b| && forall i | 0 <= i < |a| :: lower(a[i]) == lower(b[i])
  }

  predicate StartsWith(lower: char -> char, text: string, name: string) {
    |name| <= |text| && Same(lower, text[..|name|], name)
  }

  /** The longest of the names from `k` on that the text starts with, the first one of those. */
  function FindName(lower: char -> char, names: seq<string>, k: nat, text: string): (r: Option<nat>)
    requires k <= |names|
    ensures r.Some? ==> k <= r.value < |names| && StartsWith(lower, text, names[r.value])
    ensures r.Some? ==> forall j | k <= j < |names| && StartsWith(lower, text, names[j]) ::
      |names[j]| < |names[r.value]| || (|names[j]| == |names[r.value]| && r.value <= j)
    ensures r.None? ==> forall j | k <= j < |names| :: !StartsWith(lower, text, names[j])
    decreases |names| - k
  {
    if k == |names| then None
    else
      var later := FindName(lower, names, k + 1, text);
      if StartsWith(lower, text, names[k]) && (later.None? || |names[later.value]| <= |names[k]|) then Some(k) else later
  }

  function ReadName(lower: char -> char, names: seq<string>, value: string, at: nat): (r: Reading)
    requires at <= |value|
    ensures r.Read? ==> at <= r.next <= |value| && r.value >= 0
  {
    var found := FindName(lower, names, 0, value[at..]);
    if found.None? then Failed(UnknownName(at)) else Read(found.value + 1, at + |names[found.value]|)
  }

  function ReadItem(t: Settings, item: Item, value: string, at: nat): (r: Reading)
    requires at <= |value|
    ensures r.Read? ==> at <= r.next <= |value|
  {
    match item
    case DayField(_) => ReadNumber(value, at, 1, 2)
    case MonthField(_) => ReadNumber(value, at, 1, 2)
    case YearDayField(_) => ReadNumber(value, at, 1, 3)
    case YearField(doubled) => ReadNumber(value, at, if doubled then 4 else 2, if doubled then 4 else 2)
    case DayName(doubled) => ReadName(t.lower, if doubled then t.dayNames else t.dayNamesShort, value, at)
    case MonthName(doubled) => ReadName(t.lower, if doubled then t.monthNames else t.monthNamesShort, value, at)
    case Literal(c) =>
      if at < |value| && value[at] == c then Read(0, at + 1) else Failed(UnexpectedLiteral(at))
  }

  /** The parts of a date read so far; -1 for the missing ones. */
  datatype Parts = Parts(year: int, month: int, day: int, doy: int)

  function Record(parts: Parts, item: Item, v: int): Parts {
    match item
    case DayField(_) => parts.(day := v)
    case MonthField(_) => parts.(month := v)
    case YearDayField(_) => parts.(doy := v)
    case YearField(_) => parts.(year := v)
    case MonthName(_) => parts.(month := v)
    case _ => parts
  }

  datatype Scan = Done(parts: Parts, next: nat) | Stuck(error: Error)

  function ReadItems(t: Settings, items: seq<Item>, value: string, at: nat, parts: Parts): (r: Scan)
    requires at <= |value|
    ensures r.Done? ==> at <= r.next <= |value|
  {
    if items == [] then Done(parts, at)
    else
      match ReadItem(t, items[0], value, at)
      case Read(v, next) => ReadItems(t, items[1..], value, next, Record(parts, items[0], v))
      case Failed(e) => Stuck(e)
  }

  /** `\\s` of a regular expression. */
  predicate Space(c: char) {
    || c == ' ' || '\t' <= c <= '\r' || c == '\U{00A0}' || c == '\U{1680}' || '\U{2000}' <= c <= '\U{200A}'
    || c == '\U{2028}' || c == '\U{2029}' || c == '\U{202F}' || c == '\U{205F}' || c == '\U{3000}' || c == '\U{FEFF}'
  }

  /** The year meant, when the current year is `now`. */
  function MeantYear(year: int, now: nat, cutoff: int): int {
    if year == -1 then now
    else if year < 100 then year + now - now % 100 + (if year <= cutoff then 0 else -100)
    else year
  }

  /** The date that the parts name, if there is one.  The day of the year wins. */
  function Resolve(parts: Parts, now: nat, cutoff: int): Parsed {
    var year := MeantYear(parts.year, now, cutoff);
    if parts.doy > -1 then
      if FullYear(year) == year && 1 <= parts.doy <= YearLength(year) then Date(YearStart(year) + parts.doy - 1)
      else Bad(InvalidDate)
    else
      var date := NewDate(year, parts.month - 1, parts.day);
      if Year(date) == year && Month(date) + 1 == parts.month && DayOfMonth(date) == parts.day then Date(date)
      else Bad(InvalidDate)
  }

  function Parse(t: Settings, items: seq<Item>, value: string, now: nat): Parsed {
    if value == "" then Blank
    else
      match ReadItems(t, items, value, 0, Parts(-1, -1, -1, -1))
      case Stuck(e) => Bad(e)
      case Done(parts, next) =>
        if next < |value| && !Space(value[next]) then Bad(ExtraCharacters(next))
        else Resolve(parts, now, t.shortYearCutoff)
  }

  // ---- The parser's loops ----

  /** `getNumber` after looking ahead; the digits are scanned by hand. */
  method GetNumber(value: string, iValue: nat, minSize: nat, size: nat) returns (r: Reading)
    requires iValue <= |value|
    ensures r == ReadNumber(value, iValue, minSize, size)
  {
    var text := value[iValue..];
    var k := 0;
    while k < size && k < |text| && IsDigit(text[k])
      invariant k <= size && k <= |text|
      invariant DigitRun(text, size) == k + DigitRun(text[k..], size - k)
    {
      assert text[k..][1..] == text[k + 1..];
      k := k + 1;
    }
    r := if k < minSize then Failed(MissingNumber(iValue)) else Read(Number(text[..k]), iValue + k);
  }

  /** Sorted by decreasing length, those of equal length as they were. */
  predicate LongestFirst(names: seq<string>, order: seq<nat>) {
    && (forall i | 0 <= i < |order| :: order[i] < |names|)
    && (forall i, j | 0 <= i < j < |order| :: Precedes(names, order[i], order[j]))
  }

  predicate Precedes(names: seq<string>, a: nat, b: nat) {
    a < |names| && b < |names| && (|names[a]| > |names[b]| || (|names[a]| == |names[b]| && a < b))
  }

  /** The stable `sort` of the indices. */
  method SortByLength(names: seq<string>) returns (order: seq<nat>)
    ensures LongestFirst(names, order)
    ensures forall k: nat | k < |names| :: k in order
  {
    order := [];
    for k := 0 to |names|
      invariant LongestFirst(names, order)
      invariant forall i | 0 <= i < |order| :: order[i] < k
      invariant forall i: nat | i < k :: i in order
    {
      var p := 0;
      while p < |order| && |names[order[p]]| >= |names[k]|
        invariant p <= |order|
        invariant forall i | 0 <= i < p :: Precedes(names, order[i], k)
      {
        p := p + 1;
      }
      ghost var before := order;
      order := order[..p] + [k] + order[p..];
      forall i: nat | i < k + 1
        ensures i in order
      {
        if i < k {
          assert i in before;
          assert before == before[..p] + before[p..];
        } else {
          assert order[p] == k;
        }
      }
    }
  }

  /** `getName` after looking ahead. */
  method GetName(lower: char -> char, names: seq<string>, value: string, iValue: nat) returns (r: Reading)
    requires iValue <= |value|
    ensures r == ReadName(lower, names, value, iValue)
  {
    var order := SortByLength(names);
    var text := value[iValue..];
    for i := 0 to |order|
      invariant forall j | 0 <= j < i :: !StartsWith(lower, text, names[order[j]])
    {
      if StartsWith(lower, text, names[order[i]]) {
        ghost var found := FindName(lower, names, 0, text);
        assert found.Some?;
        assert found.value in order;
        ghost var j :| 0 <= j < |order| && order[j] == found.value;
        assert j > i ==> Precedes(names, order[i], order[j]);
        return Read(order[i] + 1, iValue + |names[order[i]]|);
      }
    }
    forall k: nat | k < |names|
      ensures !StartsWith(lower, text, names[k])
    {
      assert k in order;
    }
    r := Failed(UnknownName(iValue));
  }

  /** One turn of the loop of `parseDate`: the switch. */
  method ParseItem(t: Settings, format: string, i: nat, literal: bool, value: string, iValue: nat, parts: Parts)
    returns (failure: Option<Error>, next: nat, literal': bool, iValue': nat, parts': Parts)
    requires Complete(t) && i < |format| && (literal || (format[i] != '@' && format[i] != '!')) && iValue <= |value|
    ensures var s := StepAt(format, i, literal);
      && next == s.next && literal' == s.literal
      && (s.item.None? ==> failure.None? && iValue' == iValue && parts' == parts)
      && (s.item.Some? ==>
            var r := ReadItem(t, s.item.value, value, iValue);
            if r.Failed? then failure == Some(r.error)
            else failure.None? && iValue' == r.next && parts' == Record(parts, s.item.value, r.value))
  {
    var c := format[i];
    var doubled := Doubled(format, i);
    var past := if doubled then i + 2 else i + 1;
    failure, next, literal', iValue', parts' := None, i + 1, literal, iValue, parts;
    var r: Reading;
    if c == '\'' && !doubled {
      literal' := !literal;
      return;
    } else if !literal && c == 'd' {
      r := GetNumber(value, iValue, 1, 2);
    } else if !literal && c == 'D' {
      r := GetName(t.lower, if doubled then t.dayNames else t.dayNamesShort, value, iValue);
    } else if !literal && c == 'o' {
      r := GetNumber(value, iValue, 1, 3);
    } else if !literal && c == 'm' {
      r := GetNumber(value, iValue, 1, 2);
    } else if !literal && c == 'M' {
      r := GetName(t.lower, if doubled then t.monthNames else t.monthNamesShort, value, iValue);
    } else if !literal && c == 'y' {
      r := GetNumber(value, iValue, if doubled then 4 else 2, if doubled then 4 else 2);
    } else {
      past := if c == '\'' then i + 2 else i + 1;
      r := if iValue < |value| && value[iValue] == c then Read(0, iValue + 1) else Failed(UnexpectedLiteral(iValue));
    }
    next := past;
    match r {
      case Failed(e) => failure := Some(e);
      case Read(v, at) =>
        iValue' := at;
        if !literal {
          match c {
            case 'd' => parts' := parts.(day := v);
            case 'o' => parts' := parts.(doy := v);
            case 'm' => parts' := parts.(month := v);
            case 'M' => parts' := parts.(month := v);
            case 'y' => parts' := parts.(year := v);
            case _ =>
          }
        }
    }
  }

  lemma ReadStep(t: Settings, format: string, i: nat, literal: bool, value: string, at: nat, parts: Parts)
    requires i < |format| && at <= |value|
    ensures var s := StepAt(format, i, literal);
      ReadItems(t, Items(format, i, literal), value, at, parts) ==
      if s.item.None? then ReadItems(t, Items(format, s.next, s.literal), value, at, parts)
      else
        var r := ReadItem(t, s.item.value, value, at);
        if r.Failed? then Stuck(r.error)
        else ReadItems(t, Items(format, s.next, s.literal), value, r.next, Record(parts, s.item.value, r.value))
  {
    hide ReadItem, StepAt, Record;
    var s := StepAt(format, i, literal);
    var rest := Items(format, s.next, s.literal);
    if s.item.Some? {
      assert ([s.item.value] + rest)[1..] == rest;
    } else {
      assert [] + rest == rest;
    }
  }

  lemma AllRead(t: Settings, format: string, literal: bool, value: string, at: nat, parts: Parts)
    requires at <= |value|
    ensures ReadItems(t, Items(format, |format|, literal), value, at, parts) == Done(parts, at)
  {
  }

  /** The parts that the loop over the day of the year finds make a date exactly when the year
      has that many days. */
  lemma YearDayResolves(year: int, doy: int, month: int, day: int)
    requires month >= 1 && day <= DaysInMonth(year, month - 1)
    requires NewDate(year, month - 1, day) == NewDate(year, 0, doy)
    requires doy >= 1 ==> day >= 1
    requires doy < 1 ==> month == 1 && day == doy
    ensures var date := NewDate(year, month - 1, day);
      && (Year(date) == year && Month(date) + 1 == month && DayOfMonth(date) == day
          <==> FullYear(year) == year && 1 <= doy <= YearLength(year))
      && (FullYear(year) == year ==> date == YearStart(year) + doy - 1)
  {
    hide *;
    YearDay(year, doy);
    if doy < 1 {
      assert DayOfMonth(NewDate(year, month - 1, day)) >= 1;
    } else {
      NewDateParts(year, month - 1, day);
      MonthOfYear(month);
      InYear(FullYear(year), doy);
    }
  }

  lemma MonthOfYear(month: int)
    requires month >= 1
    ensures (month - 1) / 12 == 0 <==> month <= 12
    ensures (month - 1) % 12 + 1 == month <==> month <= 12
    ensures (month - 1) / 12 >= 0
  {
  }

  lemma YearDay(year: int, doy: int)
    ensures NewDate(year, 0, doy) == YearStart(FullYear(year)) + doy - 1
  {
    assert MonthStart(FullYear(year), 0) == 0;
    hide YearStart, MonthStart, FullYear;
  }

  lemma InYear(y: int, doy: int)
    requires doy >= 1
    ensures Year(YearStart(y) + doy - 1) == y <==> doy <= YearLength(y)
  {
    hide YearStart, YearLength, Year;
    NextYearStart(y);
    if doy <= YearLength(y) {
      YearIsUnique(YearStart(y) + doy - 1, y);
    }
  }

  /** `parseDate`, in a year `now` of the clock. */
  method ParseDate(t: Settings, format: string, value: string, now: nat) returns (r: Parsed)
    requires Complete(t) && Dated(format, 0, false)
    ensures r == Parse(t, Items(format, 0, false), value, now)
  {
    hide ReadItems, ReadItem, Items, StepAt, Record;
    hide NewDate, DaysInMonth, Year, Month, DayOfMonth, YearStart, YearLength, FullYear;
    if value == "" {
      return Blank;
    }
    var iFormat: nat, literal, iValue: nat, parts := 0, false, 0, Parts(-1, -1, -1, -1);
    while iFormat < |format|
      invariant iFormat <= |format| && iValue <= |value| && Dated(format, iFormat, literal)
      invariant ReadItems(t, Items(format, iFormat, literal), value, iValue, parts)
             == ReadItems(t, Items(format, 0, false), value, 0, Parts(-1, -1, -1, -1))
    {
      ReadStep(t, format, iFormat, literal, value, iValue, parts);
      var failure: Option<Error>;
      failure, iFormat, literal, iValue, parts := ParseItem(t, format, iFormat, literal, value, iValue, parts);
      if failure.Some? {
        return Bad(failure.value);
      }
    }
    AllRead(t, format, literal, value, iValue, parts);
    if iValue < |value| && !Space(value[iValue]) {
      return Bad(ExtraCharacters(iValue));
    }
    var year := parts.year;
    if year == -1 {
      year := now;
    } else if year < 100 {
      year := year + now - now % 100 + (if year <= t.shortYearCutoff then 0 else -100);
    }
    var month, day := parts.month, parts.day;
    if parts.doy > -1 {
      month, day := FromDayOfYear(year, parts.doy);
      YearDayResolves(year, parts.doy, month, day);
    }
    var date := NewDate(year, month - 1, day);
    if Year(date) != year || Month(date) + 1 != month || DayOfMonth(date) != day {
      return Bad(InvalidDate);
    }
    r := Date(date);
  }
}
