/** A grammar of the texts the JSON parser reads, and the proof that it reads each as the value of its tokens. */
module JsonGrammar {
  import opened JsonParser

  // ----- Characters, by their codes -----

  /** Whitespace (section 2 of RFC 8259). */
  predicate IsSpace(c: char) { c as int == 0x20 || c as int == 0x09 || c as int == 0x0A || c as int == 0x0D }

  predicate AllWs(s: string) { forall i :: 0 <= i < |s| ==> IsSpace(s[i]) }

  /** What may follow the backslash of an escape, u apart (section 7). */
  predicate IsEscapable(c: char) {
    var code := c as int;
    || code == 0x22 || code == 0x5C || code == 0x2F || code == 0x62
    || code == 0x66 || code == 0x6E || code == 0x72 || code == 0x74
  }

  predicate IsHexDigit(c: char) {
    0x30 <= c as int <= 0x39 || 0x41 <= c as int <= 0x46 || 0x61 <= c as int <= 0x66
  }

  /** A minus sign, a point or a digit. */
  predicate StartsNumeral(c: char) { c as int == 0x2D || c as int == 0x2E || 0x30 <= c as int <= 0x39 }

  // ----- String tokens -----

  /** A character as it is, an escape \c, or an escape \uhhhh. */
  datatype Piece = Raw(c: char) | Esc(c: char) | Uni(h: string)

  predicate IsPlainChar(c: char) { c as int >= 0x20 && c as int != 0x22 && c as int != 0x5C }

  predicate PieceOk(p: Piece) {
    match p
    case Raw(c) => IsPlainChar(c)
    case Esc(c) => IsEscapable(c)
    case Uni(h) => |h| == 4 && forall i :: 0 <= i < 4 ==> IsHexDigit(h[i])
  }

  function PieceText(p: Piece): string {
    match p
    case Raw(c) => [c]
    case Esc(c) => ['\\', c]
    case Uni(h) => ['\\', 'u'] + h
  }

  function PieceChars(p: Piece): string
    requires PieceOk(p)
  {
    match p
    case Raw(c) => [c]
    case Esc(c) => [Unescape(c)]
    case Uni(h) => Utf8(Code(h))
  }

  predicate TokenOk(ps: seq<Piece>) { forall i :: 0 <= i < |ps| ==> PieceOk(ps[i]) }

  function TokenText(ps: seq<Piece>): string {
    if ps == [] then "" else PieceText(ps[0]) + TokenText(ps[1..])
  }

  function TokenChars(ps: seq<Piece>): string
    requires TokenOk(ps)
  {
    if ps == [] then "" else PieceChars(ps[0]) + TokenChars(ps[1..])
  }

  lemma TokenCons(p: Piece, ps: seq<Piece>)
    requires PieceOk(p) && TokenOk(ps)
    ensures TokenOk([p] + ps) && TokenText([p] + ps) == PieceText(p) + TokenText(ps)
    ensures TokenChars([p] + ps) == PieceChars(p) + TokenChars(ps)
  {
    assert ([p] + ps)[1..] == ps;
  }

  lemma AllFourHex(h: string, t: string)
    requires |h| == 4 && AllHex(h)
    ensures FirstNonHex(h + t, 4) == 4 && (h + t)[..4] == h
  {
    assert forall k :: 0 <= k < 4 ==> (h + t)[k] == h[k];
  }

  lemma PieceParses(p: Piece, t: string, acc: string, from: nat)
    requires PieceOk(p) && |PieceText(p) + t| <= from
    ensures ParseString(PieceText(p) + t, acc, from) == ParseString(t, acc + PieceChars(p), from)
  {
    hide Utf8, Code, FirstNonHex, Unescape;
    var s := PieceText(p) + t;
    match p
    case Raw(c) => assert s[0] == c && s[1..] == t;
    case Esc(c) => assert s[0] == '\\' && s[1] == c && s[2..] == t;
    case Uni(h) =>
      AllFourHex(h, t);
      assert s[0] == '\\' && s[1] == 'u' && s[2..] == h + t && s[6..] == t;
  }

  lemma QuoteParses(rest: string, acc: string, from: nat)
    requires |"\"" + rest| <= from
    ensures ParseString("\"" + rest, acc, from) == Ok(acc, rest)
  {
    var t := "\"" + rest;
    assert t[0] == '"' && t[1..] == rest;
  }

  lemma TokenParts(ps: seq<Piece>)
    requires TokenOk(ps)
    ensures ps == [] ==> TokenText(ps) == "" && TokenChars(ps) == ""
    ensures ps != [] ==> (
      && PieceOk(ps[0]) && TokenOk(ps[1..])
      && TokenText(ps) == PieceText(ps[0]) + TokenText(ps[1..]) && TokenChars(ps) == PieceChars(ps[0]) + TokenChars(ps[1..]))
  {
    hide PieceOk, PieceText, PieceChars;
  }

  lemma FourParts(a: string, b: string, c: string, d: string)
    ensures a + b + c + d == a + (b + c + d) && a + (b + c) == a + b + c && "" + a == a == a + ""
  {
  }

  /** The pieces of a token are read one after the other, whatever follows. */
  lemma {:induction false} PiecesParse(ps: seq<Piece>, t: string, acc: string, from: nat)
    requires TokenOk(ps) && |TokenText(ps) + t| <= from
    ensures ParseString(TokenText(ps) + t, acc, from) == ParseString(t, acc + TokenChars(ps), from)
  {
    hide ParseString, TokenOk, TokenText, TokenChars, PieceOk, PieceText, PieceChars;
    TokenParts(ps);
    if ps == [] {
      FourParts(t, "", "", "");
      FourParts(acc, "", "", "");
    } else {
      var p, more := ps[0], ps[1..];
      FourParts(PieceText(p), TokenText(more), t, "");
      FourParts(acc, PieceChars(p), TokenChars(more), "");
      PieceParses(p, TokenText(more) + t, acc, from);
      PiecesParse(more, t, acc + PieceChars(p), from);
    }
  }

  lemma TokenParses(ps: seq<Piece>, rest: string, acc: string, from: nat)
    requires TokenOk(ps) && |TokenText(ps) + "\"" + rest| <= from
    ensures ParseString(TokenText(ps) + "\"" + rest, acc, from) == Ok(acc + TokenChars(ps), rest)
  {
    hide ParseString, TokenOk, TokenText, TokenChars;
    FourParts(TokenText(ps), "\"", rest, "");
    PiecesParse(ps, "\"" + rest, acc, from);
    QuoteParses(rest, acc + TokenChars(ps), from);
  }

  // ----- Documents -----

  /** A text with its structure: every token and all the whitespace between them. */
  datatype Doc =
    | NullDoc
    | BoolDoc(b: bool)
    | NumberDoc(text: string)
    | StringDoc(token: seq<Piece>)
    | ArrayDoc(items: seq<Item>, comma: bool, gap: string)
    | ObjectDoc(fields: seq<Field>, comma: bool, gap: string)

  datatype Item = Item(before: string, doc: Doc, after: string)

  datatype Field = Field(before: string, key: seq<Piece>, afterKey: string, beforeValue: string, doc: Doc, after: string)

  function Text(d: Doc): string
    decreases d
  {
    match d
    case NullDoc => "null"
    case BoolDoc(b) => if b then "true" else "false"
    case NumberDoc(text) => text
    case StringDoc(token) => "\"" + TokenText(token) + "\""
    case ArrayDoc(items, comma, gap) => "[" + ItemsText(items) + Closing(comma, gap, "]")
    case ObjectDoc(fields, comma, gap) => "{" + FieldsText(fields) + Closing(comma, gap, "}")
  }

  function Closing(comma: bool, gap: string, bracket: string): string {
    (if comma then "," else "") + gap + bracket
  }

  function ItemText(item: Item): string
    decreases item
  {
    item.before + Text(item.doc) + item.after
  }

  function ItemsText(items: seq<Item>): string
    decreases items
  {
    if items == [] then ""
    else ItemText(items[0]) + (if |items| > 1 then "," + ItemsText(items[1..]) else "")
  }

  function FieldText(f: Field): string
    decreases f
  {
    f.before + "\"" + TokenText(f.key) + "\"" + f.afterKey + ":" + f.beforeValue + Text(f.doc) + f.after
  }

  function FieldsText(fields: seq<Field>): string
    decreases fields
  {
    if fields == [] then ""
    else FieldText(fields[0]) + (if |fields| > 1 then "," + FieldsText(fields[1..]) else "")
  }

  /** What may follow a value. */
  predicate Delimits(rest: string) {
    rest == "" || rest[0] == ',' || rest[0] == ']' || rest[0] == '}' || IsSpace(rest[0])
  }

  /** The text is read as one number wherever it stands. */
  ghost predicate NumberOk(text: string, read: Reader) {
    && text != "" && StartsNumeral(text[0]) && NUL !in text
    && forall rest :: Delimits(rest) ==> read(text + rest) == (read(text).0, |text|)
  }

  ghost predicate DocOk(d: Doc, read: Reader)
    decreases d
  {
    match d
    case NullDoc => true
    case BoolDoc(_) => true
    case NumberDoc(text) => NumberOk(text, read)
    case StringDoc(token) => TokenOk(token)
    case ArrayDoc(items, comma, gap) =>
      AllWs(gap) && (comma ==> items != []) && ItemsOk(items, read)
    case ObjectDoc(fields, comma, gap) =>
      AllWs(gap) && (comma ==> fields != []) && FieldsOk(fields, read)
  }

  ghost predicate ItemsOk(items: seq<Item>, read: Reader)
    decreases items
  {
    items != [] ==> ItemShape(items[0]) && DocOk(items[0].doc, read) && ItemsOk(items[1..], read)
  }

  ghost predicate FieldsOk(fields: seq<Field>, read: Reader)
    decreases fields
  {
    fields != [] ==> FieldShape(fields[0]) && DocOk(fields[0].doc, read) && FieldsOk(fields[1..], read)
  }

  predicate ItemShape(item: Item) { AllWs(item.before) && AllWs(item.after) }

  predicate FieldShape(f: Field) {
    && AllWs(f.before) && AllWs(f.afterKey) && AllWs(f.beforeValue) && AllWs(f.after)
    && TokenOk(f.key) && TokenChars(f.key) != ""
  }

  /** The value of a document, its strings piece by piece: of fields with the same key the last one counts. */
  function Erase(d: Doc, read: Reader): Value
    requires DocOk(d, read)
    decreases d
  {
    match d
    case NullDoc => Null
    case BoolDoc(b) => Bool(b)
    case NumberDoc(text) => Number(read(text).0)
    case StringDoc(token) => String(TokenChars(token))
    case ArrayDoc(items, _, _) => Array(EraseItems(items, read))
    case ObjectDoc(fields, _, _) => Object(EraseFields(fields, map[], read))
  }

  function EraseItems(items: seq<Item>, read: Reader): seq<Value>
    requires ItemsOk(items, read)
    decreases items
  {
    if items == [] then [] else [Erase(items[0].doc, read)] + EraseItems(items[1..], read)
  }

  function EraseFields(fields: seq<Field>, m: map<string, Value>, read: Reader): map<string, Value>
    requires FieldsOk(fields, read)
    decreases fields
  {
    if fields == [] then m
    else EraseFields(fields[1..], m[TokenChars(fields[0].key) := Erase(fields[0].doc, read)], read)
  }

  // ----- Whitespace -----

  lemma {:induction false} ArraySkips(w: string, t: string, seekVal: bool, acc: seq<Value>, from: nat, read: Reader)
    requires AllWs(w) && |w + t| <= from
    ensures ParseArray(w + t, seekVal, acc, from, read) == ParseArray(t, seekVal, acc, from, read)
  {
    if w == "" {
      assert w + t == t;
    } else {
      assert (w + t)[0] == w[0] && (w + t)[1..] == w[1..] + t;
      ArraySkips(w[1..], t, seekVal, acc, from, read);
    }
  }

  lemma {:induction false} ObjectSkips(w: string, t: string, state: ObjectState, key: string, m: map<string, Value>, from: nat, read: Reader)
    requires AllWs(w) && |w + t| <= from
    ensures ParseObject(w + t, state, key, m, from, read) == ParseObject(t, state, key, m, from, read)
  {
    if w == "" {
      assert w + t == t;
    } else {
      assert (w + t)[0] == w[0] && (w + t)[1..] == w[1..] + t;
      ObjectSkips(w[1..], t, state, key, m, from, read);
    }
  }

  lemma {:induction false} RootSkips(w: string, t: string, state: RootState, v: Value, read: Reader)
    requires AllWs(w)
    ensures ParseRoot(w + t, state, v, read) == ParseRoot(t, state, v, read)
  {
    if w == "" {
      assert w + t == t;
    } else {
      assert (w + t)[0] == w[0] && (w + t)[1..] == w[1..] + t;
      RootSkips(w[1..], t, state, v, read);
    }
  }

  // ----- Every document is read as its value -----

  lemma {:induction false} FirstChar(d: Doc, read: Reader)
    requires DocOk(d, read)
    ensures Text(d) != "" && NotWs(Text(d)[0]) && Text(d)[0] != ']'
  {
  }

  /** A closing bracket with the whitespace and the comma that may stand in front of it. */
  lemma ArrayCloses(comma: bool, gap: string, rest: string, acc: seq<Value>, from: nat, read: Reader)
    requires AllWs(gap) && |Closing(comma, gap, "]") + rest| <= from
    ensures ParseArray(Closing(comma, gap, "]") + rest, false, acc, from, read) == Ok(Array(acc), rest)
    ensures !comma ==> ParseArray(Closing(comma, gap, "]") + rest, true, acc, from, read) == Ok(Array(acc), rest)
  {
    var u := "]" + rest;
    assert u[1..] == rest;
    var t := Closing(comma, gap, "]") + rest;
    ArraySkips(gap, u, true, acc, from, read);
    ArraySkips(gap, u, false, acc, from, read);
    assert t == (if comma then "," + (gap + u) else gap + u);
    if comma { assert t[1..] == gap + u; }
  }

  lemma ObjectCloses(comma: bool, gap: string, rest: string, key: string, m: map<string, Value>, from: nat, read: Reader)
    requires AllWs(gap) && |Closing(comma, gap, "}") + rest| <= from
    ensures ParseObject(Closing(comma, gap, "}") + rest, SeekEnd, key, m, from, read) == Ok(Object(m), rest)
    ensures !comma ==> ParseObject(Closing(comma, gap, "}") + rest, SeekKey, key, m, from, read) == Ok(Object(m), rest)
  {
    var u := "}" + rest;
    assert u[1..] == rest;
    var t := Closing(comma, gap, "}") + rest;
    ObjectSkips(gap, u, SeekKey, key, m, from, read);
    ObjectSkips(gap, u, SeekEnd, key, m, from, read);
    assert t == (if comma then "," + (gap + u) else gap + u);
    if comma { assert t[1..] == gap + u; }
  }

  lemma ClosingDelimits(comma: bool, gap: string, bracket: string, rest: string)
    requires AllWs(gap) && (bracket == "]" || bracket == "}")
    ensures Delimits(Closing(comma, gap, bracket) + rest)
  {
    var t := Closing(comma, gap, bracket) + rest;
    assert t[0] == if comma then ',' else if gap != "" then gap[0] else bracket[0];
  }

  lemma WsDelimits(w: string, rest: string)
    requires AllWs(w) && Delimits(rest)
    ensures Delimits(w + rest)
  {
    if w != "" { assert (w + rest)[0] == w[0]; } else { assert w + rest == rest; }
  }

  lemma WordParses(d: Doc, rest: string, from: nat, read: Reader)
    requires |Text(d) + rest| <= from && (d.NullDoc? || d.BoolDoc?)
    ensures ParseValue(Text(d) + rest, from, read) == Ok(Erase(d, read), rest)
  {
    hide ParseString, ParseArray, ParseObject;
    var t, w := Text(d) + rest, Text(d);
    assert w <= t && t[|w|..] == rest && t[0] == w[0];
  }

  lemma StringParses(token: seq<Piece>, rest: string, from: nat, read: Reader)
    requires TokenOk(token) && |"\"" + TokenText(token) + "\"" + rest| <= from
    ensures ParseValue("\"" + TokenText(token) + "\"" + rest, from, read) == Ok(String(TokenChars(token)), rest)
  {
    hide ParseString, ParseArray, ParseObject, TokenText, TokenChars;
    var u := TokenText(token) + "\"" + rest;
    var t := "\"" + TokenText(token) + "\"" + rest;
    assert t == "\"" + u && t[1..] == u;
    TokenParses(token, rest, "", |u|);
    assert "" + TokenChars(token) == TokenChars(token);
  }

  lemma NumberParses(text: string, rest: string, from: nat, read: Reader)
    requires NumberOk(text, read) && Delimits(rest) && |text + rest| <= from
    ensures ParseValue(text + rest, from, read) == Ok(Number(read(text).0), rest)
  {
    hide ParseString, ParseArray, ParseObject;
    var t := text + rest;
    assert t[0] == text[0] && t[|text|..] == rest;
  }

  lemma LeafParses(d: Doc, rest: string, from: nat, read: Reader)
    requires DocOk(d, read) && Delimits(rest) && |Text(d) + rest| <= from && !d.ArrayDoc? && !d.ObjectDoc?
    ensures ParseValue(Text(d) + rest, from, read) == Ok(Erase(d, read), rest)
  {
    hide ParseValue, TokenText, TokenChars, NumberOk;
    match d
    case NumberDoc(text) => NumberParses(text, rest, from, read);
    case StringDoc(token) => StringParses(token, rest, from, read);
    case _ => WordParses(d, rest, from, read);
  }

  lemma Opens(t: string, u: string, from: nat, read: Reader)
    requires |u| + 1 == |t| <= from && t[1..] == u
    ensures t[0] == '[' ==> ParseValue(t, from, read) == ParseArray(u, true, [], |u|, read)
    ensures t[0] == '{' ==> ParseValue(t, from, read) == ParseObject(u, SeekKey, "", map[], |u|, read)
  {
    hide ParseArray, ParseObject, ParseString;
  }

  lemma Bracket(b: char, x: string, y: string, rest: string)
    ensures var t := [b] + x + y + rest; t != "" && t[0] == b && t[1..] == x + (y + rest)
  {
  }

  lemma BracketText(d: Doc, rest: string)
    ensures d.ArrayDoc? ==> var t := Text(d) + rest;
      t != "" && t[0] == '[' && t[1..] == ItemsText(d.items) + (Closing(d.comma, d.gap, "]") + rest)
    ensures d.ObjectDoc? ==> var t := Text(d) + rest;
      t != "" && t[0] == '{' && t[1..] == FieldsText(d.fields) + (Closing(d.comma, d.gap, "}") + rest)
  {
    hide ItemsText, FieldsText, Closing;
    match d
    case ArrayDoc(items, comma, gap) => Bracket('[', ItemsText(items), Closing(comma, gap, "]"), rest);
    case ObjectDoc(fields, comma, gap) => Bracket('{', FieldsText(fields), Closing(comma, gap, "}"), rest);
    case _ =>
  }

  /** Whatever follows it, a document is read as its value, up to its end. */
  lemma {:induction false} DocParses(d: Doc, rest: string, from: nat, read: Reader)
    requires DocOk(d, read) && Delimits(rest) && |Text(d) + rest| <= from
    ensures ParseValue(Text(d) + rest, from, read) == Ok(Erase(d, read), rest)
    decreases d
  {
    hide ParseString, ParseArray, ParseObject, ParseValue, Closing, Text, ItemsText, FieldsText, EraseItems, EraseFields;
    var t := Text(d) + rest;
    BracketText(d, rest);
    if d.ArrayDoc? {
      var u := ItemsText(d.items) + (Closing(d.comma, d.gap, "]") + rest);
      Opens(t, u, from, read);
      ItemsParse(d.items, d.comma, d.gap, rest, [], |u|, read);
      assert [] + EraseItems(d.items, read) == EraseItems(d.items, read);
    } else if d.ObjectDoc? {
      var u := FieldsText(d.fields) + (Closing(d.comma, d.gap, "}") + rest);
      Opens(t, u, from, read);
      FieldsParse(d.fields, d.comma, d.gap, rest, "", map[], |u|, read);
    } else {
      LeafParses(d, rest, from, read);
    }
  }

  /** The first of several parts, with a comma behind it if there are more. */
  lemma Listed(x: string, more: bool, y: string, end: string)
    ensures (x + (if more then "," + y else "")) + end == x + (if more then "," + (y + end) else end)
  {
  }

  lemma {:induction false} ItemsParse(items: seq<Item>, comma: bool, gap: string, rest: string, acc: seq<Value>, from: nat, read: Reader)
    requires ItemsOk(items, read) && AllWs(gap) && (comma ==> items != [])
    requires |ItemsText(items) + (Closing(comma, gap, "]") + rest)| <= from
    ensures ParseArray(ItemsText(items) + (Closing(comma, gap, "]") + rest), true, acc, from, read)
      == Ok(Array(acc + EraseItems(items, read)), rest)
    decreases items
  {
    hide ParseArray, ParseValue, Closing, Text, ItemText, Erase;
    var end := Closing(comma, gap, "]") + rest;
    if items == [] {
      ArrayCloses(comma, gap, rest, acc, from, read);
      assert ItemsText(items) + end == end && acc + [] == acc;
    } else {
      ClosingDelimits(comma, gap, "]", rest);
      var more := ItemsText(items[1..]) + end;
      Listed(ItemText(items[0]), |items| > 1, ItemsText(items[1..]), end);
      var next := acc + [Erase(items[0].doc, read)];
      assert next + EraseItems(items[1..], read) == acc + EraseItems(items, read);
      if |items| > 1 {
        ItemParses(items[0], "," + more, acc, from, read);
        AfterComma(more, next, from, read);
        ItemsParse(items[1..], comma, gap, rest, next, from, read);
      } else {
        ItemParses(items[0], end, acc, from, read);
        assert EraseItems(items[1..], read) == [] && next + [] == next;
        ArrayCloses(comma, gap, rest, next, from, read);
      }
    }
  }

  lemma AfterComma(more: string, acc: seq<Value>, from: nat, read: Reader)
    requires |more| + 1 <= from
    ensures ParseArray("," + more, false, acc, from, read) == ParseArray(more, true, acc, from, read)
  {
    assert ("," + more)[1..] == more;
  }

  lemma {:induction false} ItemParses(item: Item, tail: string, acc: seq<Value>, from: nat, read: Reader)
    requires ItemShape(item) && DocOk(item.doc, read) && Delimits(tail) && |ItemText(item) + tail| <= from
    ensures ParseArray(ItemText(item) + tail, true, acc, from, read)
      == ParseArray(tail, false, acc + [Erase(item.doc, read)], from, read)
    decreases item, 0
  {
    hide ParseValue, Text;
    var v := Text(item.doc) + (item.after + tail);
    assert ItemText(item) + tail == item.before + v;
    ArraySkips(item.before, v, true, acc, from, read);
    FirstChar(item.doc, read);
    WsDelimits(item.after, tail);
    DocParses(item.doc, item.after + tail, |v|, read);
    ArraySkips(item.after, tail, false, acc + [Erase(item.doc, read)], from, read);
  }

  lemma {:induction false} FieldsParse(fields: seq<Field>, comma: bool, gap: string, rest: string, key: string,
                                       m: map<string, Value>, from: nat, read: Reader)
    requires FieldsOk(fields, read) && AllWs(gap) && (comma ==> fields != [])
    requires |FieldsText(fields) + (Closing(comma, gap, "}") + rest)| <= from
    ensures ParseObject(FieldsText(fields) + (Closing(comma, gap, "}") + rest), SeekKey, key, m, from, read)
      == Ok(Object(EraseFields(fields, m, read)), rest)
    decreases fields
  {
    hide ParseObject, ParseValue, Closing, Text, FieldText, Erase, TokenChars;
    var end := Closing(comma, gap, "}") + rest;
    if fields == [] {
      ObjectCloses(comma, gap, rest, key, m, from, read);
      assert FieldsText(fields) + end == end;
    } else {
      ClosingDelimits(comma, gap, "}", rest);
      var more := FieldsText(fields[1..]) + end;
      Listed(FieldText(fields[0]), |fields| > 1, FieldsText(fields[1..]), end);
      var k := TokenChars(fields[0].key);
      var next := m[k := Erase(fields[0].doc, read)];
      if |fields| > 1 {
        FieldParses(fields[0], "," + more, key, m, from, read);
        AfterFieldComma(more, k, next, from, read);
        FieldsParse(fields[1..], comma, gap, rest, k, next, from, read);
      } else {
        FieldParses(fields[0], end, key, m, from, read);
        ObjectCloses(comma, gap, rest, k, next, from, read);
      }
    }
  }

  lemma AfterFieldComma(more: string, key: string, m: map<string, Value>, from: nat, read: Reader)
    requires |more| + 1 <= from
    ensures ParseObject("," + more, SeekEnd, key, m, from, read) == ParseObject(more, SeekKey, key, m, from, read)
  {
    assert ("," + more)[1..] == more;
  }

  lemma FieldSplit(f: Field, tail: string)
    ensures FieldText(f) + tail == f.before + ("\"" + (TokenText(f.key) + "\"" +
      (f.afterKey + (":" + (f.beforeValue + (Text(f.doc) + (f.after + tail)))))))
  {
    hide Text, TokenText;
    var v := Text(f.doc) + (f.after + tail);
    var b, k, a, w := f.before, TokenText(f.key), f.afterKey, f.beforeValue;
    assert FieldText(f) + tail == b + "\"" + k + "\"" + a + ":" + w + v;
    assert b + "\"" + k + "\"" + a + ":" + w + v == b + "\"" + k + "\"" + (a + (":" + (w + v)));
    var u := a + (":" + (w + v));
    assert b + "\"" + k + "\"" + u == b + ("\"" + (k + "\"" + u));
  }

  lemma {:induction false} FieldParses(f: Field, tail: string, key: string, m: map<string, Value>, from: nat, read: Reader)
    requires FieldShape(f) && DocOk(f.doc, read) && Delimits(tail) && |FieldText(f) + tail| <= from
    ensures ParseObject(FieldText(f) + tail, SeekKey, key, m, from, read)
      == ParseObject(tail, SeekEnd, TokenChars(f.key), m[TokenChars(f.key) := Erase(f.doc, read)], from, read)
    decreases f, 0
  {
    hide ParseObject, ParseValue, Text, FieldText, Erase, TokenText, TokenChars, DocOk;
    var k := TokenChars(f.key);
    var v := Text(f.doc) + (f.after + tail);
    FieldSplit(f, tail);
    KeyParses(f, f.afterKey + (":" + (f.beforeValue + v)), key, m, from, read);
    SeparatorParses(f, v, k, m, from, read);
    FirstChar(f.doc, read);
    WsDelimits(f.after, tail);
    DocParses(f.doc, f.after + tail, |v|, read);
    ValueParses(v, Erase(f.doc, read), f.after + tail, k, m, from, read);
    ObjectSkips(f.after, tail, SeekEnd, k, m[k := Erase(f.doc, read)], from, read);
  }

  lemma KeyParses(f: Field, u: string, key: string, m: map<string, Value>, from: nat, read: Reader)
    requires AllWs(f.before) && TokenOk(f.key) && TokenChars(f.key) != ""
    requires |f.before + ("\"" + (TokenText(f.key) + "\"" + u))| <= from
    ensures ParseObject(f.before + ("\"" + (TokenText(f.key) + "\"" + u)), SeekKey, key, m, from, read)
      == ParseObject(u, SeekSep, TokenChars(f.key), m, from, read)
  {
    hide ParseString, TokenText, TokenChars;
    var t := TokenText(f.key) + "\"" + u;
    ObjectSkips(f.before, "\"" + t, SeekKey, key, m, from, read);
    assert ("\"" + t)[1..] == t;
    TokenParses(f.key, u, "", |t|);
    assert "" + TokenChars(f.key) == TokenChars(f.key);
  }

  lemma SeparatorParses(f: Field, v: string, k: string, m: map<string, Value>, from: nat, read: Reader)
    requires AllWs(f.afterKey) && AllWs(f.beforeValue) && |f.afterKey + (":" + (f.beforeValue + v))| <= from
    ensures ParseObject(f.afterKey + (":" + (f.beforeValue + v)), SeekSep, k, m, from, read)
      == ParseObject(v, SeekVal, k, m, from, read)
  {
    var w := f.beforeValue + v;
    ObjectSkips(f.afterKey, ":" + w, SeekSep, k, m, from, read);
    assert (":" + w)[1..] == w;
    ObjectSkips(f.beforeValue, v, SeekVal, k, m, from, read);
  }

  lemma ValueParses(t: string, v: Value, rest: string, k: string, m: map<string, Value>, from: nat, read: Reader)
    requires t != "" && NotWs(t[0]) && |t| <= from && |rest| <= |t| && ParseValue(t, |t|, read) == Ok(v, rest)
    ensures ParseObject(t, SeekVal, k, m, from, read) == ParseObject(rest, SeekEnd, k, m[k := v], from, read)
  {
    hide ParseValue;
  }

  // ----- The whole text -----

  predicate Clean(s: string) { NUL !in s }

  lemma CleanJoin(a: string, b: string)
    ensures Clean(a + b) <==> Clean(a) && Clean(b)
  {
    if Clean(a + b) {
      assert forall i :: 0 <= i < |a| ==> a[i] == (a + b)[i];
      assert forall i :: 0 <= i < |b| ==> b[i] == (a + b)[|a| + i];
    }
  }

  lemma CleanJoin3(a: string, b: string, c: string)
    requires Clean(a) && Clean(b) && Clean(c)
    ensures Clean(a + b) && Clean(a + b + c)
  {
    hide Clean;
    CleanJoin(a, b);
    CleanJoin(a + b, c);
  }

  lemma CleanMarks()
    ensures Clean("") && Clean("\"") && Clean(",") && Clean(":") && Clean("[") && Clean("]") && Clean("{") && Clean("}")
  {
  }

  lemma WsIsClean(w: string)
    requires AllWs(w)
    ensures Clean(w)
  {
  }

  lemma {:induction false} TokenIsClean(ps: seq<Piece>)
    requires TokenOk(ps)
    ensures Clean(TokenText(ps))
  {
    if ps != [] {
      TokenIsClean(ps[1..]);
      assert Clean(PieceText(ps[0]));
      CleanJoin(PieceText(ps[0]), TokenText(ps[1..]));
    }
  }

  lemma ClosingIsClean(comma: bool, gap: string, bracket: string)
    requires AllWs(gap) && Clean(bracket)
    ensures Clean(Closing(comma, gap, bracket))
  {
    WsIsClean(gap);
    CleanMarks();
    CleanJoin3(if comma then "," else "", gap, bracket);
  }

  lemma {:induction false} TextIsClean(d: Doc, read: Reader)
    requires DocOk(d, read)
    ensures Clean(Text(d))
    decreases d
  {
    hide Clean, Closing, TokenText;
    CleanMarks();
    match d
    case ArrayDoc(items, comma, gap) =>
      ItemsAreClean(items, read);
      ClosingIsClean(comma, gap, "]");
      CleanJoin3("[", ItemsText(items), Closing(comma, gap, "]"));
    case ObjectDoc(fields, comma, gap) =>
      FieldsAreClean(fields, read);
      ClosingIsClean(comma, gap, "}");
      CleanJoin3("{", FieldsText(fields), Closing(comma, gap, "}"));
    case StringDoc(token) =>
      TokenIsClean(token);
      CleanJoin3("\"", TokenText(token), "\"");
    case _ => assert Clean(Text(d)) by { LeafIsClean(d, read); }
  }

  lemma LeafIsClean(d: Doc, read: Reader)
    requires DocOk(d, read) && (d.NullDoc? || d.BoolDoc? || d.NumberDoc?)
    ensures Clean(Text(d))
  {
  }

  lemma ListedIsClean(x: string, more: bool, y: string)
    requires Clean(x) && Clean(y)
    ensures Clean(x + (if more then "," + y else ""))
  {
    CleanMarks();
    CleanJoin(",", y);
    CleanJoin(x, if more then "," + y else "");
  }

  lemma {:induction false} ItemsAreClean(items: seq<Item>, read: Reader)
    requires ItemsOk(items, read)
    ensures Clean(ItemsText(items))
    decreases items
  {
    hide Clean, Text;
    CleanMarks();
    if items != [] {
      TextIsClean(items[0].doc, read);
      ItemsAreClean(items[1..], read);
      WsIsClean(items[0].before);
      WsIsClean(items[0].after);
      CleanJoin3(items[0].before, Text(items[0].doc), items[0].after);
      ListedIsClean(ItemText(items[0]), |items| > 1, ItemsText(items[1..]));
    }
  }

  predicate FieldSpaces(f: Field) { AllWs(f.before) && AllWs(f.afterKey) && AllWs(f.beforeValue) && AllWs(f.after) }

  lemma FieldIsClean(f: Field)
    requires FieldSpaces(f) && TokenOk(f.key) && Clean(Text(f.doc))
    ensures Clean(FieldText(f))
  {
    hide Clean, Text, TokenText;
    CleanMarks();
    TokenIsClean(f.key);
    WsIsClean(f.before);
    WsIsClean(f.afterKey);
    WsIsClean(f.beforeValue);
    WsIsClean(f.after);
    var b := f.before + "\"" + TokenText(f.key);
    CleanJoin3(f.before, "\"", TokenText(f.key));
    CleanJoin3(b, "\"", f.afterKey);
    CleanJoin3(b + "\"" + f.afterKey, ":", f.beforeValue);
    CleanJoin3(b + "\"" + f.afterKey + ":" + f.beforeValue, Text(f.doc), f.after);
  }

  lemma {:induction false} FieldsAreClean(fields: seq<Field>, read: Reader)
    requires FieldsOk(fields, read)
    ensures Clean(FieldsText(fields))
    decreases fields
  {
    hide Clean, Text, FieldText;
    CleanMarks();
    if fields != [] {
      TextIsClean(fields[0].doc, read);
      FieldsAreClean(fields[1..], read);
      FieldIsClean(fields[0]);
      ListedIsClean(FieldText(fields[0]), |fields| > 1, FieldsText(fields[1..]));
    }
  }

  lemma {:induction false} WholeCString(s: string)
    requires Clean(s)
    ensures CString(s) == s
  {
    if s != "" { WholeCString(s[1..]); }
  }

  /** A closing bracket that is repeated, which the parser tolerates at the end of the text. */
  function Again(d: Doc, repeated: bool, after: string): string {
    if !repeated then "" else (if d.ArrayDoc? then "]" else "}") + after
  }

  lemma RootEnds(state: RootState, v: Value, w: string, read: Reader)
    requires AllWs(w)
    ensures ParseRoot(w, state, v, read) == Ok(v, "")
  {
    RootSkips(w, "", state, v, read);
    assert w + "" == w;
  }

  lemma RootCloses(d: Doc, v: Value, w: string, repeated: bool, after: string, read: Reader)
    requires AllWs(w) && AllWs(after) && (d.ArrayDoc? || d.ObjectDoc?)
    ensures ParseRoot(w + Again(d, repeated, after), if d.ArrayDoc? then RootArray else RootObject, v, read) == Ok(v, "")
  {
    var state := if d.ArrayDoc? then RootArray else RootObject;
    var t := Again(d, repeated, after);
    RootSkips(w, t, state, v, read);
    if repeated {
      assert t[1..] == after;
      RootEnds(RootEnd, v, after, read);
    }
  }

  lemma RootOpens(d: Doc, rest: string, read: Reader)
    requires DocOk(d, read) && Delimits(rest) && (d.ArrayDoc? || d.ObjectDoc?)
    ensures ParseRoot(Text(d) + rest, RootBegin, Null, read)
      == ParseRoot(rest, if d.ArrayDoc? then RootArray else RootObject, Erase(d, read), read)
  {
    hide ParseArray, ParseObject, ParseString, ParseValue, Text, Erase, ItemsText, FieldsText, Closing;
    var t := Text(d) + rest;
    BracketText(d, rest);
    Opens(t, t[1..], |t|, read);
    DocParses(d, rest, |t|, read);
  }

  lemma RestDelimits(d: Doc, w: string, repeated: bool, after: string)
    requires AllWs(w) && (d.ArrayDoc? || d.ObjectDoc?)
    ensures Delimits(w + Again(d, repeated, after))
  {
    WsDelimits(w, Again(d, repeated, after));
  }

  lemma WholeIsClean(d: Doc, w: string, x: string, repeated: bool, after: string, read: Reader)
    requires DocOk(d, read) && AllWs(w) && AllWs(x) && AllWs(after)
    ensures Clean(w + Text(d) + x + Again(d, repeated, after))
  {
    hide Text;
    TextIsClean(d, read);
    CleanMarks();
    WsIsClean(w);
    WsIsClean(x);
    WsIsClean(after);
    var bracket := if d.ArrayDoc? then "]" else "}";
    CleanJoin(bracket, after);
    CleanJoin3(w, Text(d), x);
    CleanJoin(w + Text(d) + x, Again(d, repeated, after));
  }

  lemma RootReads(d: Doc, w: string, x: string, repeated: bool, after: string, read: Reader)
    requires DocOk(d, read) && (d.ArrayDoc? || d.ObjectDoc?) && AllWs(w) && AllWs(x) && AllWs(after)
    ensures ParseRoot(w + (Text(d) + (x + Again(d, repeated, after))), RootBegin, Null, read) == Ok(Erase(d, read), "")
  {
    hide ParseRoot, Text, Erase, DocOk, AllWs, Again;
    var rest := x + Again(d, repeated, after);
    RootSkips(w, Text(d) + rest, RootBegin, Null, read);
    RestDelimits(d, x, repeated, after);
    RootOpens(d, rest, read);
    RootCloses(d, Erase(d, read), x, repeated, after, read);
  }

  /**
   * Any text of the grammar with an object or an array at its root is read as the
   * value of its document, whatever whitespace stands around and inside it.
   */
  lemma TextIsRead(d: Doc, w: string, x: string, repeated: bool, after: string, read: Reader)
    requires DocOk(d, read) && (d.ArrayDoc? || d.ObjectDoc?) && AllWs(w) && AllWs(x) && AllWs(after)
    ensures Parse(w + Text(d) + x + Again(d, repeated, after), read) == Parsed(Erase(d, read))
  {
    hide ParseRoot, Text, Erase, DocOk, AllWs, Again, Clean, CString;
    var s := w + Text(d) + x + Again(d, repeated, after);
    WholeIsClean(d, w, x, repeated, after, read);
    WholeCString(s);
    assert s == w + (Text(d) + (x + Again(d, repeated, after)));
    RootReads(d, w, x, repeated, after, read);
  }
}
