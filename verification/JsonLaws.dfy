/** The characters that the parser and the printer tell apart, each by its code, and one text for each error. */
module JsonLaws {
  import opened Keys
  import opened JsonParser
  import opened JsonGrammar
  import opened JsonPrinter

  // ----- Characters of the parser -----

  /** Of all characters the parser skips four: blank, tab, line feed and carriage return. */
  lemma SkipsFour(c: char, read: Reader)
    ensures Parse([c] + "[]", read) == Parsed(Array([])) <==> c as int == 0x20 || c as int == 0x09 || c as int == 0x0A || c as int == 0x0D
  {
    var s := [c] + "[]";
    if c == NUL {
      assert CString(s) == "";
    } else {
      assert Clean(s);
      WholeCString(s);
      hide CString;
      Brackets(read);
      assert s[1..] == "[]";
      hide ParseArray, ParseObject;
      assert ParseRoot(s, RootBegin, Null, read) ==
        if IsSpace(c) then ParseRoot("[]", RootBegin, Null, read) else ParseRoot(s, RootBegin, Null, read);
    }
  }

  lemma Brackets(read: Reader)
    ensures ParseRoot("[]", RootBegin, Null, read) == Ok(Array([]), "")
    ensures ParseArray("[]", true, [], 2, read).Err? && ParseObject("[]", SeekKey, "", map[], 2, read).Err?
  {
    assert "[]"[1..] == "]" && "]"[1..] == "";
    assert ParseArray("]", true, [], 1, read) == Ok(Array([]), "");
    assert ParseValue("[]", 2, read) == Ok(Array([]), "");
    assert ParseArray("", false, [Array([])], 2, read).Err?;
  }

  /** What lies behind a NUL is not read. */
  lemma NulEndsText(s: string, rest: string, read: Reader)
    requires NUL !in s
    ensures CString(s + [NUL] + rest) == s && Parse(s + [NUL] + rest, read) == Parse(s, read)
  {
    EndsAtNul(s, rest);
    WholeCString(s);
    hide ParseRoot, CString;
  }

  lemma {:induction false} EndsAtNul(s: string, rest: string)
    requires NUL !in s
    ensures CString(s + [NUL] + rest) == s
  {
    var t := s + [NUL] + rest;
    if s != "" {
      assert t[1..] == s[1..] + [NUL] + rest && t[0] == s[0];
      EndsAtNul(s[1..], rest);
    }
  }

  // ----- Characters of the printer -----

  /** What is printed for each character of a string. */
  lemma EscapeIs(c: char)
    ensures var code, text := c as int, EscapeOf(c);
      if code == 0x08 then text == "\\b"
      else if code == 0x09 then text == "\\t"
      else if code == 0x0A then text == "\\n"
      else if code == 0x0C then text == "\\f"
      else if code == 0x0D then text == "\\r"
      else if code == 0x22 then text == "\\\""
      else if code == 0x5C then text == "\\\\"
      else if 0x20 <= code <= 0x7F then text == [c]
      else text == ""
  {
  }

  // ----- The order of keys -----

  /** The fields of an object are printed in the order of their names, by bytes. */
  lemma PrintedInOrder(m: map<string, Value>, d: Doc)
    requires Shows(Object(m), d)
    ensures d.ObjectDoc? && |d.fields| == |m.Keys|
    ensures forall i :: 0 <= i < |d.fields| ==> TokenText(d.fields[i].key) in m.Keys
    ensures forall i, j :: 0 <= i < j < |d.fields| ==> Precedes(TokenText(d.fields[i].key), TokenText(d.fields[j].key))
  {
    hide Sorted, Shows, TokenText, RawKey, Less, Precedes;
    var ks := ShownKeys(m, d);
    forall i | 0 <= i < |ks| ensures TokenText(d.fields[i].key) == ks[i] { RawKeyText(ks[i]); }
    forall i, j | 0 <= i < j < |ks| ensures Precedes(ks[i], ks[j]) { LessIs(ks[i], ks[j]); }
  }

  lemma ShownKeys(m: map<string, Value>, d: Doc) returns (ks: seq<string>)
    requires Shows(Object(m), d)
    ensures d.ObjectDoc? && |d.fields| == |ks| == |m.Keys| && forall i :: 0 <= i < |ks| ==> d.fields[i].key == RawKey(ks[i])
    ensures forall i :: 0 <= i < |ks| ==> ks[i] in m.Keys
    ensures forall i, j :: 0 <= i < j < |ks| ==> Less(ks[i], ks[j])
  {
    hide Sorted, RawKey, Less;
    ks := Sorted(m.Keys);
    assert forall i :: 0 <= i < |ks| ==> ks[i] in ks;
  }

  // ----- Errors -----

  /** A code \uhhhh at the front of the text breaks off at i. */
  predicate BreaksOffAt(t: string, i: nat) {
    && 2 <= i <= |t| && t[0] == '\\' && t[1] == 'u' && (forall j :: 2 <= j < i ==> IsHexDigit(t[j]))
    && (i == |t| || !IsHexDigit(t[i]))
  }

  /**
   * Where a string breaks off, behind any token: at a control character, at a backslash
   * without an escape behind it, at the first character of a code that is no hex digit; a
   * string that does not end is reported where the value starts.
   */
  lemma StringErrors(ps: seq<Piece>, t: string, acc: string, from: nat)
    requires TokenOk(ps) && |TokenText(ps) + t| <= from
    ensures var r := ParseString(TokenText(ps) + t, acc, from);
      && (t == "" ==> r == Err(UnterminatedValue, from))
      && (t != "" && t[0] as int < 0x20 ==> r == Err(InvalidChar, |t|))
      && (t == "\\" ==> r == Err(InvalidChar, |t|))
      && (|t| > 1 && t[0] == '\\' && t[1] != 'u' && !IsEscapable(t[1]) ==> r == Err(InvalidChar, |t|))
      && (forall i :: 2 <= i < 6 && BreaksOffAt(t, i) ==> r == Err(InvalidChar, |t| - i))
  {
    hide TokenOk, TokenText, TokenChars;
    PiecesParse(ps, t, acc, from);
    if |t| >= 2 && t[0] == '\\' && t[1] == 'u' {
      forall i | 2 <= i < 6 && BreaksOffAt(t, i)
        ensures FirstNonHex(t[2..], 4) == i - 2
      {
        HexEnds(t[2..], 4, i - 2);
      }
    }
    hide FirstNonHex, Utf8, Code;
  }

  lemma {:induction false} HexEnds(s: string, n: nat, i: nat)
    requires i < n && i <= |s| && (forall j :: 0 <= j < i ==> IsHexDigit(s[j])) && (i == |s| || !IsHexDigit(s[i]))
    ensures FirstNonHex(s, n) == i
  {
    if i > 0 { HexEnds(s[1..], n - 1, i - 1); }
  }

  /** One text for each error but an invalid key, and where it is reported. */
  lemma ErrorSamples(read: Reader)
    ensures Parse("[", read) == Failed(UnterminatedArray, 1)
    ensures Parse("{", read) == Failed(UnterminatedObject, 1)
    ensures Parse("[\"", read) == Failed(UnterminatedValue, 2)
    ensures Parse("[x]", read) == Failed(InvalidChar, 1)
    ensures Parse("[tru]", read) == Failed(InvalidValue, 1)
    ensures Parse("[{x}]", read) == Failed(InvalidChar, 2)
    ensures Parse("[{\"a\"x}]", read) == Failed(InvalidChar, 5)
    ensures Parse("[{\"a\":nullx}]", read) == Failed(InvalidChar, 10)
    ensures Parse("[nullx]", read) == Failed(InvalidChar, 5)
    ensures Parse("x", read) == Failed(InvalidChar, 0)
  {
    hide Parse, ParseArray, ParseObject;
    ValueErrors(read);
    MoreErrors(read);
    RootArrayFails("{x}]", InvalidChar, 3, read);
    RootArrayFails("{\"a\"x}]", InvalidChar, 3, read);
    RootArrayFails("{\"a\":nullx}]", InvalidChar, 3, read);
    RootArrayFails("nullx]", InvalidChar, 2, read);
    ScalarError(read);
    RootArrayFails("", UnterminatedArray, 0, read);
    RootArrayFails("\"", UnterminatedValue, 0, read);
    RootArrayFails("x]", InvalidChar, 2, read);
    RootArrayFails("tru]", InvalidValue, 4, read);
    ObjectError(read);
    JoinedSamples();
  }

  lemma MoreErrors(read: Reader)
    ensures ParseArray("{x}]", true, [], 4, read) == Err(InvalidChar, 3)
    ensures ParseArray("{\"a\"x}]", true, [], 7, read) == Err(InvalidChar, 3)
    ensures ParseArray("{\"a\":nullx}]", true, [], 12, read) == Err(InvalidChar, 3)
    ensures ParseArray("nullx]", true, [], 6, read) == Err(InvalidChar, 2)
  {
    hide ParseArray, ParseObject, ParseString, ParseValue;
    KeyError("{x}]", read);
    KeyTexts();
    AfterKey("{\"a\"x}]", "x}]", 7, read);
    AfterKey("{\"a\":nullx}]", ":nullx}]", 12, read);
    ColonError("x}]", read);
    NullError(read);
    NullItemError(read);
  }

  lemma KeyTexts()
    ensures "{\"a\"x}]" == "{\"a\"" + "x}]" && "{\"a\":nullx}]" == "{\"a\"" + ":nullx}]"
  {
  }

  lemma NullItemError(read: Reader)
    ensures ParseArray("nullx]", true, [], 6, read) == Err(InvalidChar, 2)
  {
    hide ParseObject, ParseString;
    assert "nullx]"[4..] == "x]" && "null" <= "nullx]";
    assert ParseValue("nullx]", 6, read) == Ok(Null, "x]");
    hide ParseValue;
    assert ParseArray("x]", false, [Null], 6, read) == Err(InvalidChar, 2);
  }

  lemma KeyError(t: string, read: Reader)
    requires |t| > 1 && t[0] == '{' && t[1] == 'x'
    ensures ParseArray(t, true, [], |t|, read) == Err(InvalidChar, |t| - 1)
  {
    assert ParseObject(t[1..], SeekKey, "", map[], |t| - 1, read) == Err(InvalidChar, |t| - 1);
    assert ParseValue(t, |t|, read) == Err(InvalidChar, |t| - 1);
    hide ParseObject, ParseValue;
  }

  /** An object whose first key is `a`: what comes of it depends on what follows the key. */
  lemma AfterKey(t: string, u: string, n: nat, read: Reader)
    requires t == "{\"a\"" + u && n == |t|
    ensures var r := ParseObject(u, SeekSep, "a", map[], n - 1, read); r.Err? ==> ParseArray(t, true, [], n, read) == Err(r.error, r.left)
  {
    var v := "a\"" + u;
    assert t[1..] == "\"" + v && t[1..][1..] == v;
    assert v[1..] == "\"" + u && v[1..][1..] == u;
    assert ParseString(v[1..], "a", |v|) == Ok("a", u);
    assert "" + ['a'] == "a";
    assert ParseString(v, "", |v|) == Ok("a", u);
    var r := ParseObject(u, SeekSep, "a", map[], n - 1, read);
    assert ParseObject(t[1..], SeekKey, "", map[], n - 1, read) == r;
    hide ParseObject, ParseString;
    if r.Err? { assert ParseValue(t, n, read) == Err(r.error, r.left); }
  }

  lemma ColonError(u: string, read: Reader)
    requires u != "" && u[0] == 'x'
    ensures forall n :: n >= |u| ==> ParseObject(u, SeekSep, "a", map[], n, read) == Err(InvalidChar, |u|)
  {
  }

  lemma NullError(read: Reader)
    ensures ParseObject(":nullx}]", SeekSep, "a", map[], 11, read) == Err(InvalidChar, 3)
  {
    hide ParseArray, ParseString;
    var t := "nullx}]";
    assert ":nullx}]"[1..] == t && t[4..] == "x}]" && "null" <= t;
    assert ParseValue(t, 7, read) == Ok(Null, "x}]");
    assert ParseObject("x}]", SeekEnd, "a", map["a" := Null], 11, read) == Err(InvalidChar, 3);
    assert ParseObject(t, SeekVal, "a", map[], 11, read) == Err(InvalidChar, 3);
  }

  lemma ScalarError(read: Reader)
    ensures Parse("x", read) == Failed(InvalidChar, 0)
  {
    hide ParseArray, ParseObject;
    WholeCString("x");
  }

  lemma JoinedSamples()
    ensures "[" + "" == "[" && "[" + "\"" == "[\"" && "[" + "x]" == "[x]" && "[" + "tru]" == "[tru]"
    ensures "[" + "{x}]" == "[{x}]" && "[" + "{\"a\"x}]" == "[{\"a\"x}]" && "[" + "nullx]" == "[nullx]"
    ensures "[" + "{\"a\":nullx}]" == "[{\"a\":nullx}]"
  {
  }

  lemma ObjectError(read: Reader)
    ensures Parse("{", read) == Failed(UnterminatedObject, 1)
  {
    hide ParseArray;
    WholeCString("{");
    assert "{"[1..] == "";
  }

  lemma ValueErrors(read: Reader)
    ensures ParseArray("", true, [], 0, read) == Err(UnterminatedArray, 0)
    ensures ParseArray("\"", true, [], 1, read) == Err(UnterminatedValue, 0)
    ensures ParseArray("x]", true, [], 2, read) == Err(InvalidChar, 2)
    ensures ParseArray("tru]", true, [], 4, read) == Err(InvalidValue, 4)
  {
    hide ParseObject;
    assert "\""[1..] == "" && ParseString("", "", 0) == Err(UnterminatedValue, 0);
    assert ParseValue("\"", 1, read) == Err(UnterminatedValue, 0);
    assert ParseValue("x]", 2, read) == Err(InvalidChar, 2);
    assert "tru]"[3] == ']' && "true"[3] == 'e';
    assert ParseValue("tru]", 4, read) == Err(InvalidValue, 4);
  }

  lemma RootArrayFails(t: string, e: Error, left: nat, read: Reader)
    requires NUL !in t && left <= |t| && ParseArray(t, true, [], |t|, read) == Err(e, left)
    ensures Parse("[" + t, read) == Failed(e, 1 + |t| - left)
  {
    hide ParseArray, ParseObject, ParseRoot, CString;
    var s := "[" + t;
    assert s[1..] == t;
    BracketFails(s, e, left, read);
    WholeCString(s);
  }

  lemma BracketFails(s: string, e: Error, left: nat, read: Reader)
    requires s != "" && s[0] == '[' && ParseArray(s[1..], true, [], |s| - 1, read) == Err(e, left)
    ensures ParseRoot(s, RootBegin, Null, read) == Err(e, left)
  {
    hide ParseArray, ParseObject;
  }
}
