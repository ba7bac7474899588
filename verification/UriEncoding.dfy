/** Percent-encoding of text as UTF-8: `encodeURIComponent` and `decodeURIComponent` of section
    15.1.3 of ECMA-262, edition 5.1, and the replacements that js-cookie makes around them. */
module UriEncoding {
  import opened Optional
  import opened Lists

  // ---- UTF-8 ----

  predicate Octets(b: seq<int>) {
    forall i | 0 <= i < |b| :: 0 <= b[i] < 256
  }

  /** The octets of a character, RFC 3629 section 3. */
  function Utf8(c: char): (b: seq<int>)
    ensures 1 <= |b| <= 4 && Octets(b)
    ensures |b| == 1 <==> c as int < 128
    ensures |b| > 1 ==> forall i | 0 <= i < |b| :: b[i] >= 128
  {
    var n := c as int;
    if n < 0x80 then [n]
    else if n < 0x800 then [0xC0 + n / 64, 0x80 + n % 64]
    else if n < 0x1_0000 then [0xE0 + n / 4096, 0x80 + n / 64 % 64, 0x80 + n % 64]
    else [0xF0 + n / 262144, 0x80 + n / 4096 % 64, 0x80 + n / 64 % 64, 0x80 + n % 64]
  }

  /** How many octets a first octet announces; 0 when it cannot come first. */
  function SequenceLength(first: int): (n: nat)
    ensures n <= 4
  {
    if 0 <= first < 0x80 then 1
    else if 0xC0 <= first < 0xE0 then 2
    else if 0xE0 <= first < 0xF0 then 3
    else if 0xF0 <= first < 0xF8 then 4
    else 0
  }

  predicate Continues(b: int) {
    0x80 <= b < 0xC0
  }

  /** The number that the octets of one character make. */
  function CodePoint(b: seq<int>): int
    requires 1 <= |b| <= 4
  {
    if |b| == 1 then b[0]
    else if |b| == 2 then (b[0] - 0xC0) * 64 + (b[1] - 0x80)
    else if |b| == 3 then (b[0] - 0xE0) * 4096 + (b[1] - 0x80) * 64 + (b[2] - 0x80)
    else (b[0] - 0xF0) * 262144 + (b[1] - 0x80) * 4096 + (b[2] - 0x80) * 64 + (b[3] - 0x80)
  }

  /** Too long forms, surrogates and numbers beyond Unicode are refused. */
  predicate Acceptable(v: int, octets: nat) {
    && (octets == 1 ==> 0 <= v < 0x80) && (octets == 2 ==> 0x80 <= v < 0x800)
    && (octets == 3 ==> 0x800 <= v < 0xD800 || 0xE000 <= v < 0x1_0000)
    && (octets == 4 ==> 0x1_0000 <= v < 0x11_0000)
  }

  /** Two texts side by side, when both are there. */
  function Both(a: Option<string>, b: Option<string>): Option<string> {
    if a.None? || b.None? then None else Some(a.value + b.value)
  }

  function DecodeOctets(b: seq<int>): Option<string> {
    if b == [] then Some("")
    else
      var n := SequenceLength(b[0]);
      if n == 0 || n > |b| || exists i | 1 <= i < n :: !Continues(b[i]) then None
      else
        var v := CodePoint(b[..n]);
        if !Acceptable(v, n) then None
        else
          Both(Some([v as char]), DecodeOctets(b[n..]))
  }

  lemma FrontDecodes(c: char, b: seq<int>)
    ensures DecodeOctets(Utf8(c) + b) ==
            Both(Some([c]), DecodeOctets(b))
  {
    var u := Utf8(c);
    var all := u + b;
    assert all[..|u|] == u && all[|u|..] == b;
    Utf8Octets(c);
    assert all[0] == u[0];
    assert forall i | 1 <= i < |u| :: all[i] == u[i];
  }

  lemma Utf8Octets(c: char)
    ensures var u := Utf8(c);
      && SequenceLength(u[0]) == |u| && (forall i | 1 <= i < |u| :: Continues(u[i]))
      && CodePoint(u) == c as int && Acceptable(c as int, |u|)
  {
    var n := c as int;
    assert n / 4096 == n / 64 / 64 && n / 262144 == n / 4096 / 64;
  }

  function Utf8All(s: string): seq<int> {
    if s == "" then [] else Utf8(s[0]) + Utf8All(s[1..])
  }

  /** Digits in base 64 are read off a number by division. */
  lemma Base64(a: int, b: int, c: int, d: int)
    requires 0 <= b < 64 && 0 <= c < 64 && 0 <= d < 64
    ensures var v := ((a * 64 + b) * 64 + c) * 64 + d;
      v % 64 == d && v / 64 % 64 == c && v / 4096 % 64 == b && v / 4096 == a * 64 + b && v / 262144 == a
  {
    var v := ((a * 64 + b) * 64 + c) * 64 + d;
    assert v / 64 == (a * 64 + b) * 64 + c;
    assert v / 4096 == v / 64 / 64 == a * 64 + b;
    assert v / 262144 == v / 4096 / 64 == a;
  }

  lemma AcceptedOctets(b: seq<int>)
    requires 1 <= |b| <= 4 && Octets(b) && SequenceLength(b[0]) == |b| && forall i | 1 <= i < |b| :: Continues(b[i])
    requires Acceptable(CodePoint(b), |b|)
    ensures Utf8(CodePoint(b) as char) == b
  {
    if |b| == 2 {
      Base64(0, 0, b[0] - 0xC0, b[1] - 0x80);
    } else if |b| == 3 {
      Base64(0, b[0] - 0xE0, b[1] - 0x80, b[2] - 0x80);
    } else if |b| == 4 {
      Base64(b[0] - 0xF0, b[1] - 0x80, b[2] - 0x80, b[3] - 0x80);
    }
  }

  lemma {:induction false} TextDecodes(s: string)
    ensures DecodeOctets(Utf8All(s)) == Some(s)
  {
    hide Utf8;
    if s != "" {
      TextDecodes(s[1..]);
      FrontDecodes(s[0], Utf8All(s[1..]));
      assert s == [s[0]] + s[1..];
    }
  }

  lemma {:induction false} DecodedIsText(b: seq<int>)
    requires Octets(b) && DecodeOctets(b).Some?
    ensures b == Utf8All(DecodeOctets(b).value)
  {
    hide Utf8, CodePoint, Acceptable, SequenceLength, Continues;
    if b != [] {
      var n := SequenceLength(b[0]);
      var s := DecodeOctets(b).value;
      AcceptedOctets(b[..n]);
      DecodedIsText(b[n..]);
      assert b == b[..n] + b[n..];
      assert s[1..] == DecodeOctets(b[n..]).value;
    }
  }

  /** The decoder accepts exactly the UTF-8 of texts, and each as the text it is. */
  lemma OctetsOfText(b: seq<int>, s: string)
    requires Octets(b)
    ensures DecodeOctets(b) == Some(s) <==> b == Utf8All(s)
  {
    TextDecodes(s);
    if DecodeOctets(b).Some? {
      DecodedIsText(b);
    }
  }

  // ---- Percent-encoding ----

  function Hex(d: nat): (c: char)
    requires d < 16
    ensures '0' <= c <= '9' || 'A' <= c <= 'F'
  {
    if d < 10 then ('0' as int + d) as char else ('A' as int + d - 10) as char
  }

  function HexValue(c: char): (d: Option<nat>)
    ensures d.Some? ==> d.value < 16
  {
    if '0' <= c <= '9' then Some(c as int - '0' as int)
    else if 'A' <= c <= 'F' then Some(c as int - 'A' as int + 10)
    else None
  }

  function Escape(b: int): (s: string)
    requires 0 <= b < 256
    ensures |s| == 3 && s[0] == '%'
  {
    ['%', Hex(b / 16), Hex(b % 16)]
  }

  function EscapeAll(b: seq<int>): string
    requires Octets(b)
  {
    if b == [] then "" else Escape(b[0]) + EscapeAll(b[1..])
  }

  /** The characters that `encodeURIComponent` leaves alone. */
  predicate Unreserved(c: char) {
    'A' <= c <= 'Z' || 'a' <= c <= 'z' || '0' <= c <= '9' || c in {'-', '_', '.', '!', '~', '*', '\'', '(', ')'}
  }

  /** The text with every character escaped that is not to be kept. */
  function EncodeExcept(kept: char -> bool, s: string): string {
    if s == "" then "" else (if kept(s[0]) then [s[0]] else EscapeAll(Utf8(s[0]))) + EncodeExcept(kept, s[1..])
  }

  /** `encodeURIComponent` of well-formed text */
  function EncodeURIComponent(s: string): string {
    EncodeExcept(Unreserved, s)
  }

  /** Does an escape start here that stands for one of `listed`? */
  predicate EscapeOf(listed: set<char>, text: string) {
    EscapedChar(text).Some? && EscapedChar(text).value in listed
  }

  function EscapedChar(text: string): Option<char> {
    if |text| >= 3 && text[0] == '%' && HexValue(text[1]).Some? && HexValue(text[2]).Some? then
      Some((HexValue(text[1]).value * 16 + HexValue(text[2]).value) as char)
    else None
  }

  /** `replace( /%(…)/g, decodeURIComponent )`, with the escapes of `listed` to choose from. */
  function Unescape(listed: set<char>, text: string): string {
    if text == "" then ""
    else if |text| >= 3 && EscapeOf(listed, text) then
      [EscapedChar(text).value] + Unescape(listed, text[3..])
    else [text[0]] + Unescape(listed, text[1..])
  }

  const PARENTHESES := {'(', ')'}

  /** `replace( /[\(\)]/g, escape )` */
  function EscapeParentheses(text: string): string {
    if text == "" then ""
    else (if text[0] in PARENTHESES then Escape(text[0] as int) else [text[0]]) + EscapeParentheses(text[1..])
  }

  // ---- Decoding the runs of escapes ----

  predicate InClass(c: char) {
    '0' <= c <= '9' || 'A' <= c <= 'Z'
  }

  predicate StartsRun(text: string) {
    |text| >= 3 && text[0] == '%' && InClass(text[1]) && InClass(text[2])
  }

  /** How many escapes `/(%[0-9A-Z]{2})+/` matches at the front. */
  function RunLength(text: string): (r: nat)
    ensures 3 * r <= |text|
    ensures r > 0 <==> StartsRun(text)
  {
    if StartsRun(text) then RunLength(text[3..]) + 1 else 0
  }

  /** The octets of the first `r` escapes, when all have hexadecimal digits. */
  function RunOctets(text: string, r: nat): (b: Option<seq<int>>)
    requires 3 * r <= |text|
  {
    if r == 0 then Some([])
    else
      var rest := RunOctets(text[3..], r - 1);
      if HexValue(text[1]).None? || HexValue(text[2]).None? || rest.None? then None
      else Some([HexValue(text[1]).value * 16 + HexValue(text[2]).value] + rest.value)
  }

  /** `decodeURIComponent` of a run; none when it throws. */
  function DecodeRun(text: string, r: nat): Option<string>
    requires 3 * r <= |text|
  {
    var b := RunOctets(text, r);
    if b.None? then None else DecodeOctets(b.value)
  }

  /** `text.replace( rdecode, decodeURIComponent )`; none when it throws. */
  function Decode(text: string): Option<string> {
    if text == "" then Some("")
    else
      var r := RunLength(text);
      var front := if r > 0 then DecodeRun(text, r) else Some([text[0]]);
      Both(front, Decode(text[if r > 0 then 3 * r else 1..]))
  }

  lemma HexReads(b: int)
    requires 0 <= b < 256
    ensures var e := Escape(b);
      && InClass(e[1]) && InClass(e[2]) && HexValue(e[1]).Some? && HexValue(e[2]).Some?
      && HexValue(e[1]).value * 16 + HexValue(e[2]).value == b
  {
  }

  lemma EscapeRuns(b: int, t: string, r: nat)
    requires 0 <= b < 256 && 3 * r <= |t|
    ensures RunLength(Escape(b) + t) == RunLength(t) + 1
    ensures RunOctets(Escape(b) + t, r + 1) ==
            var octets := RunOctets(t, r); if octets.None? then None else Some([b] + octets.value)
  {
    HexReads(b);
    assert (Escape(b) + t)[3..] == t;
    hide Hex, HexValue;
  }

  lemma {:induction false} EscapesRun(b: seq<int>, t: string)
    requires Octets(b)
    ensures |EscapeAll(b)| == 3 * |b| && RunLength(EscapeAll(b) + t) == |b| + RunLength(t)
    ensures RunOctets(EscapeAll(b) + t, |b| + RunLength(t)) ==
            var octets := RunOctets(t, RunLength(t)); if octets.None? then None else Some(b + octets.value)
  {
    hide RunLength, RunOctets, Escape;
    if b == [] {
      assert EscapeAll(b) + t == t;
      assert forall o: seq<int> :: b + o == o;
    } else {
      var rest := EscapeAll(b[1..]) + t;
      EscapesRun(b[1..], t);
      EscapeRuns(b[0], rest, |b| - 1 + RunLength(t));
      assert EscapeAll(b) + t == Escape(b[0]) + rest;
      assert forall o: seq<int> :: [b[0]] + (b[1..] + o) == b + o;
    }
  }

  /** What a text decodes to is what its first run and the rest do. */
  lemma RunThenRest(t: string)
    ensures var r := RunLength(t); Decode(t) == Both(DecodeRun(t, r), Decode(t[3 * r..]))
  {
    hide RunLength, HexValue;
    if RunLength(t) == 0 {
      assert t[3 * RunLength(t)..] == t;
      var d := Decode(t);
      assert d.Some? ==> "" + d.value == d.value;
    }
  }

  lemma RunWithEscapes(c: char, t: string)
    ensures var text := EscapeAll(Utf8(c)) + t;
      DecodeRun(text, RunLength(text)) == Both(Some([c]), DecodeRun(t, RunLength(t)))
  {
    hide RunOctets, RunLength, EscapeAll, Utf8, DecodeOctets;
    EscapesRun(Utf8(c), t);
    var octets := RunOctets(t, RunLength(t));
    if octets.Some? {
      FrontDecodes(c, octets.value);
    }
  }

  /** An escaped character is decoded on its own, also within a longer run. */
  lemma EscapedFront(c: char, t: string)
    ensures Decode(EscapeAll(Utf8(c)) + t) == Both(Some([c]), Decode(t))
  {
    hide *;
    var u, r := Utf8(c), RunLength(t);
    var text := EscapeAll(u) + t;
    EscapesRun(u, t);
    RunWithEscapes(c, t);
    RunThenRest(t);
    RunThenRest(text);
    assert text[3 * (|u| + r)..] == t[3 * r..];
    BothAssociates(Some([c]), DecodeRun(t, r), Decode(t[3 * r..]));
  }

  lemma BothAssociates(a: Option<string>, b: Option<string>, c: Option<string>)
    ensures Both(Both(a, b), c) == Both(a, Both(b, c))
  {
    if a.Some? && b.Some? && c.Some? {
      assert a.value + b.value + c.value == a.value + (b.value + c.value);
    }
  }

  lemma KeptFront(c: char, t: string)
    requires c != '%'
    ensures Decode([c] + t) == Both(Some([c]), Decode(t))
  {
    assert ([c] + t)[1..] == t;
  }

  /** Decoding gives back whatever was encoded, as long as the percent sign itself was. */
  lemma {:induction false} DecodeEncoded(kept: char -> bool, s: string)
    requires !kept('%')
    ensures Decode(EncodeExcept(kept, s)) == Some(s)
  {
    hide Decode, Utf8, EscapeAll;
    if s == "" {
      assert Decode("") == Some("") by { NothingToDecode(); }
    } else {
      DecodeEncoded(kept, s[1..]);
      var t := EncodeExcept(kept, s[1..]);
      assert s == [s[0]] + s[1..];
      if kept(s[0]) {
        KeptFront(s[0], t);
      } else {
        EscapedFront(s[0], t);
      }
    }
  }

  lemma NothingToDecode()
    ensures Decode("") == Some("")
  {
  }

  lemma {:induction false} EncodeExceptAgrees(kept: char -> bool, other: char -> bool, s: string)
    requires forall c | c in s :: kept(c) == other(c)
    ensures EncodeExcept(kept, s) == EncodeExcept(other, s)
  {
    if s != "" {
      EncodeExceptAgrees(kept, other, s[1..]);
    }
  }

  lemma EncodeFirst(kept: char -> bool, c: char, rest: string)
    ensures EncodeExcept(kept, [c] + rest) == (if kept(c) then [c] else EscapeAll(Utf8(c))) + EncodeExcept(kept, rest)
  {
    hide EscapeAll, Utf8;
    assert ([c] + rest)[1..] == rest;
  }

  lemma {:induction false} EncodeExceptAppend(kept: char -> bool, a: string, b: string)
    ensures EncodeExcept(kept, a + b) == EncodeExcept(kept, a) + EncodeExcept(kept, b)
  {
    if a == "" {
      assert a + b == b;
    } else {
      hide EncodeExcept, EscapeAll, Utf8;
      var c, rest := a[0], a[1..];
      assert a == [c] + rest;
      ConcatAssociates([c], rest, b);
      EncodeFirst(kept, c, rest);
      EncodeFirst(kept, c, rest + b);
      EncodeExceptAppend(kept, rest, b);
      ConcatAssociates(if kept(c) then [c] else EscapeAll(Utf8(c)), EncodeExcept(kept, rest), EncodeExcept(kept, b));
    }
  }

  /** Text without a percent sign before two digits or capitals is left as it is: escapes in small
      letters are not undone. */
  lemma {:induction false} OtherTextStays(text: string)
    requires forall i | 0 <= i < |text| - 2 && text[i] == '%' :: !InClass(text[i + 1]) || !InClass(text[i + 2])
    ensures Decode(text) == Some(text)
  {
    if text != "" {
      assert !StartsRun(text);
      OtherTextStays(text[1..]);
      assert text == [text[0]] + text[1..];
    }
  }

  // ---- The replacements after encoding ----

  function AlsoKeep(kept: char -> bool, listed: set<char>): char -> bool {
    c => kept(c) || c in listed
  }

  function DoNotKeep(kept: char -> bool, dropped: set<char>): char -> bool {
    c => kept(c) && c !in dropped
  }

  /** Printable ASCII without the percent sign. */
  predicate Plain(listed: set<char>) {
    forall c | c in listed :: c as int < 128 && c != '%'
  }

  lemma UnescapeOther(listed: set<char>, c: char, t: string)
    requires c != '%'
    ensures Unescape(listed, [c] + t) == [c] + Unescape(listed, t)
  {
    hide HexValue;
    assert ([c] + t)[1..] == t;
  }

  lemma UnescapeOne(listed: set<char>, b: int, t: string)
    requires Plain(listed) && 0 <= b < 256
    ensures Unescape(listed, Escape(b) + t) == (if b as char in listed then [b as char] else Escape(b)) + Unescape(listed, t)
  {
    hide Escape, EscapedChar;
    var e := Escape(b);
    var text := e + t;
    EscapeStarts(b, t);
    assert text[3..] == t && text[1..] == [e[1]] + ([e[2]] + t);
    UnescapeOther(listed, e[1], [e[2]] + t);
    UnescapeOther(listed, e[2], t);
    assert e == [e[0]] + [e[1]] + [e[2]];
  }

  lemma EscapeStarts(b: int, t: string)
    requires 0 <= b < 256
    ensures EscapedChar(Escape(b) + t) == Some(b as char)
    ensures Escape(b)[1] != '%' && Escape(b)[2] != '%'
  {
    HexReads(b);
    hide Hex, HexValue;
  }

  lemma {:induction false} UnescapeNone(listed: set<char>, b: seq<int>, t: string)
    requires Plain(listed) && Octets(b) && forall i | 0 <= i < |b| :: b[i] as char !in listed
    ensures Unescape(listed, EscapeAll(b) + t) == EscapeAll(b) + Unescape(listed, t)
  {
    hide Unescape, Escape;
    if b == [] {
      assert EscapeAll(b) + t == t;
      assert EscapeAll(b) + Unescape(listed, t) == Unescape(listed, t);
    } else {
      UnescapeNone(listed, b[1..], t);
      UnescapeOne(listed, b[0], EscapeAll(b[1..]) + t);
      assert EscapeAll(b) + t == Escape(b[0]) + (EscapeAll(b[1..]) + t);
      assert EscapeAll(b) + Unescape(listed, t) == Escape(b[0]) + (EscapeAll(b[1..]) + Unescape(listed, t));
    }
  }

  /** Unescaping some characters after encoding all is to keep these as well: no other part of
      the encoded text can look like one of their escapes. */
  lemma {:induction false} UnescapeKeeps(kept: char -> bool, listed: set<char>, s: string)
    requires Plain(listed) && !kept('%')
    ensures Unescape(listed, EncodeExcept(kept, s)) == EncodeExcept(AlsoKeep(kept, listed), s)
  {
    hide Unescape, Escape, Plain;
    if s == "" {
      assert Unescape(listed, "") == "" by { UnescapeNothing(listed); }
    } else {
      UnescapeKeeps(kept, listed, s[1..]);
      var c, t := s[0], EncodeExcept(kept, s[1..]);
      if kept(c) {
        UnescapeOther(listed, c, t);
      } else {
        UnescapeCharacter(listed, c, t);
      }
    }
  }

  lemma UnescapeNothing(listed: set<char>)
    ensures Unescape(listed, "") == ""
  {
  }

  lemma UnescapeCharacter(listed: set<char>, c: char, t: string)
    requires Plain(listed)
    ensures Unescape(listed, EscapeAll(Utf8(c)) + t) ==
            (if c in listed then [c] else EscapeAll(Utf8(c))) + Unescape(listed, t)
  {
    hide Unescape, Escape;
    var u := Utf8(c);
    if c in listed {
      assert u == [c as int];
      assert EscapeAll(u) == Escape(c as int) + "" == Escape(c as int);
      UnescapeOne(listed, c as int, t);
    } else {
      UnescapeNone(listed, u, t);
    }
  }

  lemma {:induction false} ParenthesesIn(x: string, t: string)
    requires forall c | c in x :: c !in PARENTHESES
    ensures EscapeParentheses(x + t) == x + EscapeParentheses(t)
  {
    hide Escape;
    if x == "" {
      assert x + t == t;
      assert x + EscapeParentheses(t) == EscapeParentheses(t);
    } else {
      ParenthesesIn(x[1..], t);
      assert (x + t)[1..] == x[1..] + t;
      assert x + EscapeParentheses(t) == [x[0]] + (x[1..] + EscapeParentheses(t));
    }
  }

  lemma {:induction false} EscapesPlain(b: seq<int>)
    requires Octets(b)
    ensures forall c | c in EscapeAll(b) :: c == '%' || '0' <= c <= '9' || 'A' <= c <= 'F'
  {
    if b != [] {
      EscapesPlain(b[1..]);
    }
  }

  /** Escaping the parentheses after encoding is not to keep them. */
  lemma {:induction false} ParenthesesAreEscaped(kept: char -> bool, s: string)
    ensures EscapeParentheses(EncodeExcept(kept, s)) == EncodeExcept(DoNotKeep(kept, PARENTHESES), s)
  {
    hide Escape, Utf8, EscapeAll;
    if s != "" {
      ParenthesesAreEscaped(kept, s[1..]);
      var c, t := s[0], EncodeExcept(kept, s[1..]);
      if !kept(c) {
        EscapesPlain(Utf8(c));
        ParenthesesIn(EscapeAll(Utf8(c)), t);
      } else {
        assert ([c] + t)[1..] == t;
        if c in PARENTHESES {
          OneEscape(c);
        }
      }
    }
  }

  lemma OneEscape(c: char)
    requires c as int < 128
    ensures EscapeAll(Utf8(c)) == Escape(c as int)
  {
    assert EscapeAll([c as int]) == Escape(c as int) + "";
  }
}
