/** js-cookie as a map: what was set is what is got. */
module CookieStore {
  import opened Optional
  import opened UriEncoding
  import opened Cookies

  /** A value under a key, as the caller of the API sees it. */
  datatype Entry = Entry(key: string, value: string)

  function Written(e: Entry): (c: Cookie) {
    Cookie(EncodedKey(e.key), EncodedValue(e.value))
  }

  /** A jar filled by the API alone. */
  function Jar(entries: seq<Entry>): seq<Cookie> {
    if entries == [] then [] else [Written(entries[0])] + Jar(entries[1..])
  }

  function Put(entries: seq<Entry>, e: Entry): seq<Entry> {
    if entries == [] then [e]
    else if entries[0].key == e.key then [e] + entries[1..]
    else [entries[0]] + Put(entries[1..], e)
  }

  function Contents(entries: seq<Entry>): map<string, string> {
    if entries == [] then map[] else map[entries[0].key := entries[0].value] + Contents(entries[1..])
  }

  /** Every key once, and none blank. */
  predicate Distinct(entries: seq<Entry>) {
    entries == [] || (entries[0].key != "" && entries[0].key !in Contents(entries[1..]) && Distinct(entries[1..]))
  }

  lemma SameKey(a: Entry, b: Entry)
    ensures Written(a).name == Written(b).name <==> a.key == b.key
  {
    hide EncodedKey, EncodedValue, Decode;
    WrittenDecodes(a.key, "");
    WrittenDecodes(b.key, "");
  }

  lemma {:induction false} StoredIsPut(entries: seq<Entry>, e: Entry)
    ensures Stored(Jar(entries), Written(e)) == Jar(Put(entries, e))
  {
    hide Written;
    if entries == [] {
      assert Put(entries, e)[1..] == [];
    } else {
      StoredIsPut(entries[1..], e);
      SameKey(entries[0], e);
      var rest := if entries[0].key == e.key then entries[1..] else Put(entries[1..], e);
      assert Put(entries, e)[1..] == rest;
      assert Jar(entries)[1..] == Jar(entries[1..]);
    }
  }

  lemma MergedUpdate<K, V>(k: K, v: V, m: map<K, V>, x: K, y: V)
    ensures x == k && k !in m ==> map[x := y] + m == (map[k := v] + m)[x := y]
    ensures x != k ==> map[k := v] + m[x := y] == (map[k := v] + m)[x := y]
  {
  }

  lemma {:induction false} PutUpdates(entries: seq<Entry>, e: Entry)
    requires Distinct(entries) && e.key != ""
    ensures Distinct(Put(entries, e)) && Contents(Put(entries, e)) == Contents(entries)[e.key := e.value]
  {
    if entries == [] {
      assert Put(entries, e)[1..] == [];
    } else {
      PutUpdates(entries[1..], e);
      var first := entries[0];
      var rest := if first.key == e.key then entries[1..] else Put(entries[1..], e);
      assert Put(entries, e)[1..] == rest;
      MergedUpdate(first.key, first.value, Contents(entries[1..]), e.key, e.value);
      hide Put;
    }
  }

  /** Setting a key updates the map at that key and nowhere else. */
  lemma SetUpdates(entries: seq<Entry>, e: Entry)
    requires Distinct(entries) && e.key != ""
    ensures var entries' := Put(entries, e);
      && Stored(Jar(entries), Written(e)) == Jar(entries') && Distinct(entries')
      && Contents(entries') == Contents(entries)[e.key := e.value]
  {
    hide *;
    StoredIsPut(entries, e);
    PutUpdates(entries, e);
  }

  lemma WrittenIsClean(e: Entry)
    ensures var c := Written(e); ';' !in c.name && '=' !in c.name && ';' !in c.value && Unquoted(c.value) == c.value
  {
    hide EncodedKey, EncodedValue;
    WrittenAlphabet(e.key, e.value);
    var value := Written(e).value;
    assert value != "" ==> CookieOctet(value[0]);
  }

  /** A written cookie is read as what was written. */
  lemma WrittenIsRead(e: Entry)
    ensures var piece := Piece(Written(e));
      Decode(NameOf(piece)) == Some(e.key) && Decode(Unquoted(ValueOf(piece))) == Some(e.value)
  {
    hide EncodedKey, EncodedValue, NameOf, ValueOf, Unquoted, Decode, Piece;
    WrittenIsClean(e);
    PieceParts(Written(e));
    WrittenDecodes(e.key, e.value);
  }

  lemma PiecesAfterFirst(entries: seq<Entry>)
    requires entries != []
    ensures Pieces(Jar(entries))[1..] == Pieces(Jar(entries[1..]))
  {
    assert Jar(entries)[1..] == Jar(entries[1..]);
  }

  lemma {:induction false} ScanFinds(entries: seq<Entry>, key: string, values: map<string, string>)
    requires Distinct(entries) && key != ""
    ensures Scan(Pieces(Jar(entries)), Some(key), values) ==
            if key in Contents(entries) then Value(Contents(entries)[key]) else Undefined
  {
    hide Written, Decode, NameOf, ValueOf, Unquoted;
    if entries != [] {
      var e := entries[0];
      WrittenIsRead(e);
      ScanFinds(entries[1..], key, values[e.key := e.value]);
      PiecesAfterFirst(entries);
    }
  }

  lemma {:induction false} ScanCollects(entries: seq<Entry>, key: Option<string>, values: map<string, string>)
    requires Distinct(entries) && Blank(key)
    ensures Scan(Pieces(Jar(entries)), key, values) == All(values + Contents(entries))
  {
    hide Written, Decode, NameOf, ValueOf, Unquoted;
    if entries == [] {
      assert values + Contents(entries) == values;
    } else {
      var e := entries[0];
      WrittenIsRead(e);
      ScanCollects(entries[1..], key, values[e.key := e.value]);
      PiecesAfterFirst(entries);
      assert values[e.key := e.value] + Contents(entries[1..]) == values + Contents(entries);
    }
  }

  lemma {:induction false} JarIsClean(entries: seq<Entry>)
    ensures Clean(Jar(entries)) && |Jar(entries)| == |entries|
  {
    hide Written;
    if entries != [] {
      JarIsClean(entries[1..]);
      WrittenIsClean(entries[0]);
    }
  }

  /** Splitting the text of a clean jar recovers its cookies. */
  lemma TextSplits(jar: seq<Cookie>)
    requires Clean(jar)
    ensures (if Join(jar) == "" then [] else Split(Join(jar))) == Pieces(jar)
  {
    hide Split;
    if jar != [] {
      SplitJoin(jar);
      assert '=' in Piece(jar[0]);
      assert Join(jar)[..|Piece(jar[0])|] == Piece(jar[0]);
    }
  }

  /** Getting a key reads the map of what was set; getting without a key returns the map. */
  lemma GetReads(entries: seq<Entry>, key: Option<string>)
    requires Distinct(entries)
    ensures Answered(Join(Jar(entries)), key) ==
            var values := Contents(entries);
            if key.None? || key.value == "" then All(values) else if key.value in values then Value(values[key.value]) else Undefined
  {
    hide Scan, Split, Join, Jar, Pieces, Contents, Distinct, Clean;
    JarIsClean(entries);
    TextSplits(Jar(entries));
    if Blank(key) {
      ScanCollects(entries, key, map[]);
      assert map[] + Contents(entries) == Contents(entries);
    } else {
      ScanFinds(entries, key.value, map[]);
    }
  }

  // ---- Among cookies of others ----

  /** Of a value that begins with a double quote the first and the last character are dropped,
      whatever the last one is. */
  lemma QuotedIsRead(name: string, value: string, last: char)
    requires '=' !in name
    ensures Decode(Unquoted(ValueOf(Piece(Cookie(name, "\"" + EncodedValue(value) + [last]))))) == Some(value)
  {
    hide EncodedKey, EncodedValue, NameOf, ValueOf, Decode, Piece;
    var quoted := "\"" + EncodedValue(value) + [last];
    PieceParts(Cookie(name, quoted));
    assert quoted[1..|quoted| - 1] == EncodedValue(value);
    WrittenDecodes("", value);
  }

  lemma {:induction false} ScanIgnoresValues(pieces: seq<string>, key: string,
                                             values: map<string, string>, values': map<string, string>)
    requires key != ""
    ensures Scan(pieces, Some(key), values) == Scan(pieces, Some(key), values')
  {
    hide Decode, NameOf, ValueOf, Unquoted;
    if pieces != [] {
      var name, value := Decode(NameOf(pieces[0])), Decode(Unquoted(ValueOf(pieces[0])));
      if name.Some? && value.Some? {
        ScanIgnoresValues(pieces[1..], key, values[name.value := value.value], values'[name.value := value.value]);
      } else {
        ScanIgnoresValues(pieces[1..], key, values, values');
      }
    }
  }

  function Found(jar: seq<Cookie>, key: string): Answer {
    Scan(Pieces(jar), Some(key), map[])
  }

  lemma FoundFrom(jar: seq<Cookie>, key: string)
    requires key != "" && jar != []
    ensures var piece := Piece(jar[0]);
      var name, value := Decode(NameOf(piece)), Decode(Unquoted(ValueOf(piece)));
      Found(jar, key) == if name.None? then Throws
                         else if value.Some? && name.value == key then Value(value.value)
                         else Found(jar[1..], key)
  {
    hide Decode, NameOf, ValueOf, Unquoted, Piece;
    var piece := Piece(jar[0]);
    var name, value := Decode(NameOf(piece)), Decode(Unquoted(ValueOf(piece)));
    assert Pieces(jar)[1..] == Pieces(jar[1..]);
    if name.Some? && value.Some? {
      ScanIgnoresValues(Pieces(jar[1..]), key, map[], map[name.value := value.value]);
      assert map[][name.value := value.value] == map[name.value := value.value];
    }
  }

  lemma {:induction false} FoundKeepsOthers(jar: seq<Cookie>, e: Entry, other: string)
    requires other != "" && other != e.key
    ensures Found(Stored(jar, Written(e)), other) == Found(jar, other)
  {
    hide Found, Written, Decode, NameOf, ValueOf, Unquoted;
    var after := Stored(jar, Written(e));
    WrittenIsRead(e);
    FoundFrom(after, other);
    if jar == [] {
      assert after[1..] == [];
    } else {
      FoundFrom(jar, other);
      if jar[0].name == Written(e).name {
        WrittenName(jar[0], e);
        assert after[1..] == jar[1..];
      } else {
        FoundKeepsOthers(jar[1..], e, other);
        assert after[1..] == Stored(jar[1..], Written(e));
      }
    }
  }

  lemma WrittenName(c: Cookie, e: Entry)
    requires c.name == Written(e).name
    ensures Decode(NameOf(Piece(c))) == Some(e.key)
  {
    hide EncodedKey, EncodedValue, NameOf, ValueOf, Decode, Piece;
    WrittenIsClean(e);
    PieceParts(c);
    WrittenDecodes(e.key, e.value);
  }

  /** What a browser can keep: no separator in a name or a value. */
  predicate Storable(jar: seq<Cookie>) {
    forall c | c in jar :: ';' !in c.name && '=' !in c.name && ';' !in c.value
  }

  lemma {:induction false} StoringKeepsStorable(jar: seq<Cookie>, c: Cookie)
    requires Storable(jar) && Storable([c])
    ensures Storable(Stored(jar, c)) && Stored(jar, c) != []
  {
    assert c in [c];
    if jar != [] && jar[0].name != c.name {
      StoringKeepsStorable(jar[1..], c);
    }
  }

  /** Whatever is assigned to `document.cookie`, the browser keeps no separators. */
  lemma AssigningKeepsStorable(jar: seq<Cookie>, text: string)
    requires Storable(jar)
    ensures var pair := UpToSemicolon(text); Storable(Stored(jar, Cookie(NameOf(pair), ValueOf(pair))))
  {
    var pair := UpToSemicolon(text);
    hide EqualsAt, UpToSemicolon, Stored;
    StoringKeepsStorable(jar, Cookie(NameOf(pair), ValueOf(pair)));
  }

  /** Getting a key from a browser's text is looking it up among the browser's cookies. */
  lemma AnsweredIsFound(jar: seq<Cookie>, key: string)
    requires Storable(jar) && key != ""
    ensures Answered(Join(jar), Some(key)) == Found(jar, key)
  {
    hide Scan, Split, Join, Pieces;
    TextSplits(jar);
  }

  /** The cookie is read under this name. */
  predicate ReadsAs(c: Cookie, name: string) {
    Decode(c.name) == Some(name) && Decode(Unquoted(c.value)).Some?
  }

  /** The value of the last cookie that is read under the name. */
  function LastReading(jar: seq<Cookie>, name: string): (value: Option<string>)
    ensures value.None? ==> forall i | 0 <= i < |jar| :: !ReadsAs(jar[i], name)
    ensures value.Some? ==> exists i :: 0 <= i < |jar| && ReadsAs(jar[i], name) && Decode(Unquoted(jar[i].value)) == value
                                     && forall j | i < j < |jar| :: !ReadsAs(jar[j], name)
  {
    if jar == [] then None
    else
      var later := LastReading(jar[1..], name);
      if later.Some? then later else if ReadsAs(jar[0], name) then Decode(Unquoted(jar[0].value)) else None
  }

  /** Every name has its last reading, or else what it had in `values`. */
  ghost predicate Gathers(jar: seq<Cookie>, values: map<string, string>, answer: Answer) {
    && answer.All?
    && forall name ::
         (if name in answer.values then Some(answer.values[name]) else None)
         == (if LastReading(jar, name).None? && name in values then Some(values[name]) else LastReading(jar, name))
  }

  /** Without a key a get throws when some name cannot be decoded, and otherwise answers with every
      cookie that can be read; of those read under one name the last counts. */
  lemma GetAllReads(jar: seq<Cookie>)
    requires Storable(jar)
    ensures var answer := Answered(Join(jar), None);
      if exists c :: c in jar && Decode(c.name).None? then answer == Throws
      else answer.All? && forall name ::
        LastReading(jar, name) == (if name in answer.values then Some(answer.values[name]) else None)
  {
    hide Scan, Split, Join, Pieces, Decode, Unquoted, LastReading;
    TextSplits(jar);
    ScanGathers(jar, map[]);
  }

  lemma {:induction false} ScanGathers(jar: seq<Cookie>, values: map<string, string>)
    requires Storable(jar)
    ensures var answer := Scan(Pieces(jar), None, values);
      if exists c :: c in jar && Decode(c.name).None? then answer == Throws else Gathers(jar, values, answer)
  {
    hide Decode, NameOf, ValueOf, Unquoted, Piece, Gathers;
    if jar == [] {
      GathersNothing(values);
    } else {
      var c, rest := jar[0], jar[1..];
      PieceParts(c);
      assert Pieces(jar)[1..] == Pieces(rest);
      assert c in jar && forall d | d in rest :: d in jar;
      var name, value := Decode(c.name), Decode(Unquoted(c.value));
      var values' := if name.Some? && value.Some? then values[name.value := value.value] else values;
      ScanGathers(rest, values');
      if name.Some? {
        GathersNext(jar, values, values', Scan(Pieces(rest), None, values'));
      }
    }
  }

  lemma GathersNothing(values: map<string, string>)
    ensures Gathers([], values, All(values))
  {
  }

  lemma GathersNext(jar: seq<Cookie>, values: map<string, string>, values': map<string, string>, answer: Answer)
    requires jar != [] && Decode(jar[0].name).Some?
    requires var name, value := Decode(jar[0].name), Decode(Unquoted(jar[0].value));
      values' == if value.Some? then values[name.value := value.value] else values
    ensures Gathers(jar[1..], values', answer) ==> Gathers(jar, values, answer)
  {
    hide Decode, Unquoted;
  }

  /** Whatever else the browser keeps, setting one key changes nothing of what a get of another
      answers. */
  lemma SetKeepsOthers(jar: seq<Cookie>, e: Entry, other: string)
    requires Storable(jar) && other != "" && other != e.key
    ensures Answered(Join(Stored(jar, Written(e))), Some(other)) == Answered(Join(jar), Some(other))
  {
    WrittenIsClean(e);
    StoringKeepsStorable(jar, Written(e));
    hide *;
    FoundKeepsOthers(jar, e, other);
    AnsweredIsFound(jar, other);
    AnsweredIsFound(Stored(jar, Written(e)), other);
  }

  /** A cookie in whose way a get of the key stops: its name cannot be decoded, or it is a
      spelling of the key and its value can be decoded. */
  predicate Stops(c: Cookie, key: string) {
    Decode(c.name).None? || (Decode(c.name).value == key && Decode(Unquoted(c.value)).Some?)
  }

  /** What the get answers there. */
  function AnswerAt(c: Cookie, key: string): Answer
    requires Stops(c, key)
  {
    if Decode(c.name).None? then Throws else Value(Decode(Unquoted(c.value)).value)
  }

  /** The first cookie in whose way a get of the key stops. */
  function FirstStop(jar: seq<Cookie>, key: string): (c: Option<Cookie>)
    ensures c.None? <==> forall d | d in jar :: !Stops(d, key)
    ensures c.Some? ==> c.value in jar && Stops(c.value, key)
  {
    if jar == [] then None else if Stops(jar[0], key) then Some(jar[0]) else FirstStop(jar[1..], key)
  }

  lemma {:induction false} FoundIsFirstStop(jar: seq<Cookie>, key: string)
    requires Storable(jar) && key != ""
    ensures Found(jar, key) ==
            var c := FirstStop(jar, key); if c.None? then Undefined else AnswerAt(c.value, key)
  {
    hide Found, Decode, NameOf, ValueOf, Unquoted, Piece;
    if jar == [] {
      NothingFound(key);
    } else {
      assert jar[0] in jar;
      PieceParts(jar[0]);
      FoundFrom(jar, key);
      FoundIsFirstStop(jar[1..], key);
    }
  }

  lemma NothingFound(key: string)
    requires key != ""
    ensures Found([], key) == Undefined
  {
  }

  /** The cookies before the first of a name. */
  function Before(jar: seq<Cookie>, name: string): seq<Cookie> {
    if jar == [] || jar[0].name == name then [] else [jar[0]] + Before(jar[1..], name)
  }

  lemma {:induction false} StopsAfterSetting(jar: seq<Cookie>, e: Entry)
    ensures FirstStop(Stored(jar, Written(e)), e.key) ==
            var c := FirstStop(Before(jar, Written(e).name), e.key); if c.None? then Some(Written(e)) else c
  {
    hide Written, Decode, Unquoted;
    var after := Stored(jar, Written(e));
    WrittenStops(e);
    if jar != [] && jar[0].name != Written(e).name {
      StopsAfterSetting(jar[1..], e);
      var before := Before(jar, Written(e).name);
      assert after[1..] == Stored(jar[1..], Written(e)) && before[1..] == Before(jar[1..], Written(e).name);
    }
  }

  lemma WrittenStops(e: Entry)
    ensures Stops(Written(e), e.key) && AnswerAt(Written(e), e.key) == Value(e.value)
  {
    hide EncodedKey, EncodedValue, Decode, Unquoted;
    WrittenIsClean(e);
    WrittenDecodes(e.key, e.value);
  }

  /** The value set is got when no cookie before it has a name that cannot be decoded, or that is
      another spelling of the key; otherwise the first of those throws or answers instead. */
  lemma SetThenGet(jar: seq<Cookie>, e: Entry)
    requires Storable(jar) && e.key != ""
    ensures var answer, earlier := Answered(Join(Stored(jar, Written(e))), Some(e.key)), Before(jar, Written(e).name);
      && ((forall c | c in earlier :: !Stops(c, e.key)) ==> answer == Value(e.value))
      && ((exists c :: c in earlier && Stops(c, e.key)) ==>
            var c := FirstStop(earlier, e.key); c.Some? && answer == AnswerAt(c.value, e.key))
  {
    WrittenIsClean(e);
    StoringKeepsStorable(jar, Written(e));
    hide Answered, Join, Stored, Written, Storable, Before, Stops, AnswerAt, Found;
    AnsweredIsFound(Stored(jar, Written(e)), e.key);
    FoundIsFirstStop(Stored(jar, Written(e)), e.key);
    StopsAfterSetting(jar, e);
    WrittenStops(e);
  }

  /** Another spelling: a cookie named %61 hides what is set under "a". */
  lemma OtherSpellingHides()
    ensures Answered(Join(Stored([Cookie("%61", "x")], Written(Entry("a", "1")))), Some("a")) == Value("x")
  {
    var c, e := Cookie("%61", "x"), Entry("a", "1");
    SpeltOut();
    assert Decode(Unquoted("x")) == Some("x") by { KeptFront('x', ""); assert "x" == ['x'] + ""; NothingToDecode(); }
    assert EncodedKey("a") != "%61" by { EncodedIs("a", "1"); assert KeyKept('a'); }
    AloneBefore(c, e);
  }

  /** A name that cannot be decoded makes every get throw that comes to it. */
  lemma UndecodableNameThrows()
    ensures Answered(Join(Stored([Cookie("%ZZ", "x")], Written(Entry("a", "1")))), Some("a")) == Throws
  {
    var c, e := Cookie("%ZZ", "x"), Entry("a", "1");
    assert StartsRun(c.name) && RunOctets(c.name, RunLength(c.name)).None?;
    assert EncodedKey("a") != "%ZZ" by { WrittenDecodes("a", "1"); }
    AloneBefore(c, e);
  }

  lemma AloneBefore(c: Cookie, e: Entry)
    requires Storable([c]) && e.key != "" && c.name != EncodedKey(e.key) && Stops(c, e.key)
    ensures Answered(Join(Stored([c], Written(e))), Some(e.key)) == AnswerAt(c, e.key)
  {
    hide Answered, Join, Stored, EncodedKey, EncodedValue, Stops, AnswerAt;
    assert Before([c], Written(e).name) == [c] && c in [c];
    SetThenGet([c], e);
  }

  lemma SpeltOut()
    ensures Decode("%61") == Some("a")
  {
    assert EscapeAll(Utf8('a')) + "" == "%61" by { OneEscape('a'); }
    EscapedFront('a', "");
    NothingToDecode();
    assert ['a'] + "" == "a";
  }
}
