/** js-cookie: the browser's cookies as one text, written one at a time and read back whole. */
module Cookies {
  import opened Optional
  import opened UriEncoding

  // ---- What is written ----

  /** The escapes %23, 24, 26, 2B, 5E, 60 and 7C. */
  const KEY_LISTED := {'#', '$', '&', '+', '^', '`', '|'}

  /** The escapes %23, 24, 26, 2B, 3A, 3C, 3E, 3D, 2F, 3F, 40, 5B, 5D, 5E, 60, 7B, 7D and 7C. */
  const VALUE_LISTED := {'#', '$', '&', '+', ':', '<', '>', '=', '/', '?', '@', '[', ']', '^', '`', '{', '}', '|'}

  function EncodedKey(key: string): string {
    EscapeParentheses(Unescape(KEY_LISTED, EncodeURIComponent(key)))
  }

  function EncodedValue(value: string): string {
    Unescape(VALUE_LISTED, EncodeURIComponent(value))
  }

  predicate KeyKept(c: char) {
    (Unreserved(c) || c in KEY_LISTED) && c !in PARENTHESES
  }

  predicate ValueKept(c: char) {
    Unreserved(c) || c in VALUE_LISTED
  }

  /** The characters of a token, section 2.2 of RFC 2616. */
  predicate TokenChar(c: char) {
    ' ' < c <= '~' && c !in {'(', ')', '<', '>', '@', ',', ';', ':', '\\', '"', '/', '[', ']', '?', '=', '{', '}'}
  }

  /** The octets of a cookie value, section 4.1.1 of RFC 6265. */
  predicate CookieOctet(c: char) {
    c == '!' || '#' <= c <= '+' || '-' <= c <= ':' || '<' <= c <= '[' || ']' <= c <= '~'
  }

  lemma EncodedIs(key: string, value: string)
    ensures EncodedKey(key) == EncodeExcept(KeyKept, key)
    ensures EncodedValue(value) == EncodeExcept(ValueKept, value)
  {
    hide Unescape, EscapeParentheses, EncodeExcept;
    UnescapeKeeps(Unreserved, KEY_LISTED, key);
    ParenthesesAreEscaped(AlsoKeep(Unreserved, KEY_LISTED), key);
    EncodeExceptAgrees(DoNotKeep(AlsoKeep(Unreserved, KEY_LISTED), PARENTHESES), KeyKept, key);
    UnescapeKeeps(Unreserved, VALUE_LISTED, value);
    EncodeExceptAgrees(AlsoKeep(Unreserved, VALUE_LISTED), ValueKept, value);
  }

  lemma {:induction false} EncodedAlphabet(kept: char -> bool, s: string)
    ensures forall c | c in EncodeExcept(kept, s) :: kept(c) || c == '%' || '0' <= c <= '9' || 'A' <= c <= 'F'
  {
    if s != "" {
      EscapesPlain(Utf8(s[0]));
      EncodedAlphabet(kept, s[1..]);
    }
  }

  /** Keys are written as tokens and values as cookie octets. */
  lemma WrittenAlphabet(key: string, value: string)
    ensures forall c | c in EncodedKey(key) :: TokenChar(c)
    ensures forall c | c in EncodedValue(value) :: CookieOctet(c)
  {
    hide EncodedKey, EncodedValue, EncodeExcept;
    EncodedIs(key, value);
    EncodedAlphabet(KeyKept, key);
    EncodedAlphabet(ValueKept, value);
  }

  /** In a key exactly the characters of tokens, and in a value exactly the cookie octets, are
      written as they are, apart from the percent sign; every other character is escaped. */
  lemma WrittenPlain(c: char)
    ensures EncodedKey([c]) == if TokenChar(c) && c != '%' then [c] else EscapeAll(Utf8(c))
    ensures EncodedValue([c]) == if CookieOctet(c) && c != '%' then [c] else EscapeAll(Utf8(c))
  {
    hide EncodedKey, EncodedValue, EscapeAll, Utf8;
    EncodedIs([c], [c]);
    KeptAre(c);
    assert [c][1..] == "";
  }

  lemma KeptAre(c: char)
    ensures KeyKept(c) <==> TokenChar(c) && c != '%'
    ensures ValueKept(c) <==> CookieOctet(c) && c != '%'
  {
  }

  /** Keys and values are written character by character. */
  lemma WrittenSideBySide(a: string, b: string)
    ensures EncodedKey(a + b) == EncodedKey(a) + EncodedKey(b)
    ensures EncodedValue(a + b) == EncodedValue(a) + EncodedValue(b)
  {
    hide EncodedKey, EncodedValue;
    EncodedIs(a, a);
    EncodedIs(b, b);
    EncodedIs(a + b, a + b);
    EncodeExceptAppend(KeyKept, a, b);
    EncodeExceptAppend(ValueKept, a, b);
  }

  /** What was written is decoded to what was meant. */
  lemma WrittenDecodes(key: string, value: string)
    ensures Decode(EncodedKey(key)) == Some(key) && Decode(EncodedValue(value)) == Some(value)
  {
    hide EncodedKey, EncodedValue, EncodeExcept, Decode;
    EncodedIs(key, value);
    DecodeEncoded(KeyKept, key);
    DecodeEncoded(ValueKept, value);
  }

  lemma NonEmptyKey(key: string)
    requires key != ""
    ensures EncodedKey(key) != ""
  {
    WrittenDecodes(key, "");
    assert Decode("") == Some("");
  }

  // ---- The text of all cookies ----

  /** A cookie as the browser keeps it. */
  datatype Cookie = Cookie(name: string, value: string)

  function Piece(c: Cookie): string {
    c.name + "=" + c.value
  }

  function Join(jar: seq<Cookie>): string {
    if jar == [] then "" else if |jar| == 1 then Piece(jar[0]) else Piece(jar[0]) + "; " + Join(jar[1..])
  }

  function Pieces(jar: seq<Cookie>): seq<string> {
    if jar == [] then [] else [Piece(jar[0])] + Pieces(jar[1..])
  }

  /** `split( '; ' )` */
  function Split(text: string): (r: seq<string>)
    ensures |r| >= 1
  {
    if text == "" then [""]
    else if |text| >= 2 && text[0] == ';' && text[1] == ' ' then [""] + Split(text[2..])
    else
      var rest := Split(text[1..]);
      [[text[0]] + rest[0]] + rest[1..]
  }

  lemma SplitNext(c: char, text: string)
    requires c != ';'
    ensures Split([c] + text) == [[c] + Split(text)[0]] + Split(text)[1..]
  {
    assert ([c] + text)[1..] == text;
  }

  lemma {:induction false} SplitPiece(piece: string, rest: string)
    requires ';' !in piece
    ensures Split(piece) == [piece]
    ensures Split(piece + "; " + rest) == [piece] + Split(rest)
  {
    if piece == "" {
      assert piece + "; " + rest == "; " + rest;
      assert ("; " + rest)[2..] == rest;
    } else {
      SplitPiece(piece[1..], rest);
      SplitNext(piece[0], piece[1..]);
      SplitNext(piece[0], piece[1..] + "; " + rest);
      hide Split;
      assert piece + "; " + rest == [piece[0]] + (piece[1..] + "; " + rest);
      assert piece == [piece[0]] + piece[1..];
    }
  }

  /** Nothing in the jar can be mistaken for a separator. */
  predicate Clean(jar: seq<Cookie>) {
    forall c | c in jar :: ';' !in c.name && ';' !in c.value
  }

  lemma {:induction false} SplitJoin(jar: seq<Cookie>)
    requires Clean(jar) && jar != []
    ensures Split(Join(jar)) == Pieces(jar)
  {
    hide Split;
    SplitPiece(Piece(jar[0]), Join(jar[1..]));
    if |jar| > 1 {
      SplitJoin(jar[1..]);
    } else {
      assert Pieces(jar[1..]) == [];
    }
  }

  /** Where the first equals sign is, or the end. */
  function EqualsAt(piece: string): (i: nat)
    ensures i <= |piece| && '=' !in piece[..i]
    ensures i < |piece| ==> piece[i] == '='
  {
    if piece == "" || piece[0] == '=' then 0 else EqualsAt(piece[1..]) + 1
  }

  /** `parts[0]` */
  function NameOf(piece: string): string {
    piece[..EqualsAt(piece)]
  }

  /** `parts.slice(1).join('=')` */
  function ValueOf(piece: string): string {
    if EqualsAt(piece) < |piece| then piece[EqualsAt(piece) + 1..] else ""
  }

  lemma {:induction false} EqualsAfter(name: string, value: string)
    requires '=' !in name
    ensures EqualsAt(name + "=" + value) == |name|
  {
    if name != "" {
      EqualsAfter(name[1..], value);
      assert (name + "=" + value)[1..] == name[1..] + "=" + value;
    }
  }

  lemma PieceParts(c: Cookie)
    requires '=' !in c.name
    ensures NameOf(Piece(c)) == c.name && ValueOf(Piece(c)) == c.value
  {
    EqualsAfter(c.name, c.value);
  }

  // ---- The browser ----

  /** A cookie of the same name is replaced where it is. */
  function Stored(jar: seq<Cookie>, c: Cookie): seq<Cookie> {
    if jar == [] then [c]
    else if jar[0].name == c.name then [c] + jar[1..]
    else [jar[0]] + Stored(jar[1..], c)
  }

  function UpToSemicolon(text: string): (r: string)
    ensures ';' !in r
  {
    if text == "" || text[0] == ';' then "" else [text[0]] + UpToSemicolon(text[1..])
  }

  lemma {:induction false} UpToSemicolonIs(pair: string, attributes: string)
    requires ';' !in pair && (attributes == "" || attributes[0] == ';')
    ensures UpToSemicolon(pair + attributes) == pair
  {
    if pair == "" {
      assert pair + attributes == attributes;
    } else {
      UpToSemicolonIs(pair[1..], attributes);
      assert (pair + attributes)[1..] == pair[1..] + attributes;
    }
  }

  /** The cookies of a page. */
  class Document {
    var jar: seq<Cookie>

    constructor ()
      ensures jar == []
    {
      jar := [];
    }

    /** Reading `document.cookie`. */
    function Text(): string
      reads this
    {
      Join(jar)
    }

    /** Assigning `document.cookie`: the pair before the attributes is stored, unless it has no
        name (section 5.2 of RFC 6265). */
    method Assign(text: string)
      modifies this
      ensures var pair := UpToSemicolon(text);
        jar == if NameOf(pair) == "" || '=' !in pair then old(jar) else Stored(old(jar), Cookie(NameOf(pair), ValueOf(pair)))
    {
      var pair := UpToSemicolon(text);
      if NameOf(pair) != "" && '=' in pair {
        jar := Stored(jar, Cookie(NameOf(pair), ValueOf(pair)));
      }
    }
  }

  /** The write path; `attributes` is empty or starts with a semicolon. */
  method Set(document: Document, key: string, value: string, attributes: string)
    requires attributes == "" || attributes[0] == ';'
    modifies document
    ensures document.jar == if key == "" then old(document.jar)
                            else Stored(old(document.jar), Cookie(EncodedKey(key), EncodedValue(value)))
  {
    hide Unescape, EncodeExcept, EscapeParentheses, Stored, UpToSemicolon, NameOf, ValueOf;
    var v := EncodeURIComponent(value);
    v := Unescape(VALUE_LISTED, v);
    var k := EncodeURIComponent(key);
    k := Unescape(KEY_LISTED, k);
    k := EscapeParentheses(k);
    assert k == EncodedKey(key) && v == EncodedValue(value);
    WrittenAlphabet(key, value);
    var c := Cookie(k, v);
    assert ';' !in Piece(c) && '=' in Piece(c);
    UpToSemicolonIs(Piece(c), attributes);
    PieceParts(c);
    if key == "" {
      assert k == "" by { EncodedNothing(); }
    } else {
      NonEmptyKey(key);
    }
    document.Assign(k + "=" + v + attributes);
  }

  lemma EncodedNothing()
    ensures EncodedKey("") == ""
  {
  }

  // ---- Reading ----

  datatype Answer = Undefined | Value(text: string) | All(values: map<string, string>) | Throws

  /** `cookie.slice( 1, -1 )` when there is a quote in front. */
  function Unquoted(cookie: string): string {
    if cookie != "" && cookie[0] == '"' then (if |cookie| >= 2 then cookie[1..|cookie| - 1] else "") else cookie
  }

  predicate Blank(key: Option<string>) {
    key.None? || key.value == ""
  }

  /** What the loop over the cookies answers: the first one with the name and a value that can
      be decoded; without a name all of them, later ones over earlier ones. */
  function Scan(pieces: seq<string>, key: Option<string>, values: map<string, string>): Answer {
    if pieces == [] then (if Blank(key) then All(values) else Undefined)
    else
      var name, value := Decode(NameOf(pieces[0])), Decode(Unquoted(ValueOf(pieces[0])));
      if name.None? then Throws
      else if value.None? then Scan(pieces[1..], key, values)
      else if key == name then Value(value.value)
      else Scan(pieces[1..], key, values[name.value := value.value])
  }

  function Answered(text: string, key: Option<string>): Answer {
    Scan(if text == "" then [] else Split(text), key, map[])
  }

  /** The read path, with the default converter; `key` is left out for all cookies. */
  method Get(document: Document, key: Option<string>) returns (result: Answer)
    ensures result == Answered(document.Text(), key)
  {
    hide Decode, Split, NameOf, ValueOf, Unquoted;
    var values: map<string, string> := map[];
    ghost var all := values;
    var cookies := if document.Text() == "" then [] else Split(document.Text());
    for i := 0 to |cookies|
      invariant Scan(cookies, key, map[]) == Scan(cookies[i..], key, all)
      invariant Blank(key) ==> values == all
    {
      assert cookies[i..][1..] == cookies[i + 1..];
      var name := Decode(NameOf(cookies[i]));
      if name.None? {
        return Throws;
      }
      var cookie := Decode(Unquoted(ValueOf(cookies[i])));
      if cookie.Some? {
        if key == name {
          return Value(cookie.value);
        }
        if Blank(key) {
          values := values[name.value := cookie.value];
        }
        all := all[name.value := cookie.value];
      }
    }
    result := if Blank(key) then All(values) else Undefined;
  }
}
