/** Which texts the JSON parser accepts: those of the grammar, blank ones, and no others. */
module JsonLanguage {
  import opened JsonParser
  import opened JsonGrammar

  /** The reader of numbers does not look beyond a delimiter: what it reads in front of one it reads in front of every other. */
  ghost predicate Local(read: Reader) {
    forall t: string, rest: string ::
      read(t).1 > 0 && Delimits(t[read(t).1..]) && Delimits(rest) ==> read(t[..read(t).1] + rest) == read(t)
  }

  lemma CleanEnd(t: string, n: nat)
    requires Clean(t) && n <= |t|
    ensures Clean(t[n..]) && Clean(t[..n])
  {
  }

  lemma Regroup(a: string, b: string, c: string, d: string)
    ensures a + (b + c + d) == a + b + c + d && a + b + c == a + (b + c)
  {
  }

  // ----- Strings -----

  lemma FirstPiece(t: string, acc: string, from: nat) returns (p: Piece, n: nat)
    requires |t| <= from && ParseString(t, acc, from).Ok? && t[0] != '"'
    ensures PieceOk(p) && 0 < n <= |t| && t == PieceText(p) + t[n..]
    ensures ParseString(t, acc, from) == ParseString(t[n..], acc + PieceChars(p), from)
  {
    hide Utf8, Code, FirstNonHex, Unescape;
    if t[0] != '\\' {
      p, n := Raw(t[0]), 1;
    } else if t[1] == 'u' {
      p, n := Uni(t[2..][..4]), 6;
    } else {
      p, n := Esc(t[1]), 2;
    }
  }

  /** What is read as a string is a token. */
  lemma {:induction false} StringForm(t: string, acc: string, from: nat) returns (ps: seq<Piece>)
    requires |t| <= from && ParseString(t, acc, from).Ok?
    ensures TokenOk(ps) && t == TokenText(ps) + "\"" + ParseString(t, acc, from).rest
    ensures ParseString(t, acc, from).value == acc + TokenChars(ps)
    decreases |t|
  {
    if t[0] == '"' {
      ps := [];
      assert acc + "" == acc;
    } else {
      var p, n := FirstPiece(t, acc, from);
      hide ParseString, PieceOk, PieceText, PieceChars, TokenOk, TokenText, TokenChars;
      var more := StringForm(t[n..], acc + PieceChars(p), from);
      TokenCons(p, more);
      ps := [p] + more;
      Regroup(PieceText(p), TokenText(more), "\"", ParseString(t, acc, from).rest);
      Regroup(acc, PieceChars(p), TokenChars(more), "");
    }
  }

  lemma {:induction false} WsPrefix(t: string) returns (w: string, u: string)
    ensures t == w + u && AllWs(w) && (u != "" ==> NotWs(u[0]))
  {
    if t == "" || NotWs(t[0]) {
      w, u := "", t;
    } else {
      w, u := WsPrefix(t[1..]);
      w := [t[0]] + w;
    }
  }

  // ----- Lists -----

  lemma ItemsCons(item: Item, items: seq<Item>, read: Reader)
    requires ItemShape(item) && DocOk(item.doc, read) && ItemsOk(items, read)
    ensures ItemsOk([item] + items, read)
    ensures EraseItems([item] + items, read) == [Erase(item.doc, read)] + EraseItems(items, read)
  {
    hide ItemShape;
    assert ([item] + items)[1..] == items;
  }

  lemma FieldsCons(f: Field, fields: seq<Field>, m: map<string, Value>, read: Reader)
    requires FieldShape(f) && DocOk(f.doc, read) && FieldsOk(fields, read)
    ensures FieldsOk([f] + fields, read)
    ensures EraseFields([f] + fields, m, read) == EraseFields(fields, m[TokenChars(f.key) := Erase(f.doc, read)], read)
  {
    assert ([f] + fields)[1..] == fields;
  }

  /** t is the rest of an array, from behind its opening bracket or a comma on. */
  ghost predicate ArrayIs(t: string, items: seq<Item>, comma: bool, gap: string, rest: string) {
    AllWs(gap) && (comma ==> items != []) && t == ItemsText(items) + (Closing(comma, gap, "]") + rest)
  }

  /** The same for an object. */
  ghost predicate ObjectIs(t: string, fields: seq<Field>, comma: bool, gap: string, rest: string) {
    AllWs(gap) && (comma ==> fields != []) && t == FieldsText(fields) + (Closing(comma, gap, "}") + rest)
  }

  lemma LastPart(x: string, bracket: string, rest: string)
    ensures x + (bracket + rest) == x + "" + (Closing(false, "", bracket) + rest)
  {
    assert Closing(false, "", bracket) == bracket;
  }

  lemma CommaLast(x: string, gap: string, bracket: string, rest: string)
    ensures x + ("," + ("" + (Closing(false, gap, bracket) + rest))) == x + "" + (Closing(true, gap, bracket) + rest)
  {
    assert Closing(true, gap, bracket) == "," + Closing(false, gap, bracket);
  }

  /** The last item of an array. */
  lemma LastItem(item: Item, rest: string)
    ensures ArrayIs(ItemText(item) + ("]" + rest), [item], false, "", rest)
  {
    hide ItemText, Closing;
    LastPart(ItemText(item), "]", rest);
  }

  /** An item with a comma and more items or none behind it. */
  lemma MoreItems(item: Item, u: string, items: seq<Item>, comma: bool, gap: string, rest: string)
    requires ArrayIs(u, items, comma, gap, rest)
    ensures ArrayIs(ItemText(item) + ("," + u), [item] + items, comma || items == [], gap, rest)
  {
    hide ItemText, Closing;
    assert ([item] + items)[1..] == items;
    if items == [] {
      CommaLast(ItemText(item), gap, "]", rest);
    } else {
      Regroup(ItemText(item), ",", ItemsText(items), Closing(comma, gap, "]") + rest);
    }
  }

  lemma LastField(f: Field, rest: string)
    ensures ObjectIs(FieldText(f) + ("}" + rest), [f], false, "", rest)
  {
    hide FieldText, Closing;
    LastPart(FieldText(f), "}", rest);
  }

  lemma MoreFields(f: Field, u: string, fields: seq<Field>, comma: bool, gap: string, rest: string)
    requires ObjectIs(u, fields, comma, gap, rest)
    ensures ObjectIs(FieldText(f) + ("," + u), [f] + fields, comma || fields == [], gap, rest)
  {
    hide FieldText, Closing;
    assert ([f] + fields)[1..] == fields;
    if fields == [] {
      CommaLast(FieldText(f), gap, "}", rest);
    } else {
      Regroup(FieldText(f), ",", FieldsText(fields), Closing(comma, gap, "}") + rest);
    }
  }

  // ----- Values -----

  lemma NotDelimited(t: string)
    requires t != "" && StartsNumber(t[0])
    ensures !Delimits(t[0..])
  {
  }

  lemma NumberForm(t: string, from: nat, read: Reader)
    requires Local(read) && Clean(t) && |t| <= from && t != "" && StartsNumber(t[0])
    requires Delimits(t[read(t).1..])
    ensures NumberOk(t[..read(t).1], read) && read(t[..read(t).1]) == read(t)
  {
    var n := read(t).1;
    CleanEnd(t, n);
    assert t == t[..n] + t[n..];
    if n == 0 { NotDelimited(t); }
    assert Delimits("");
    assert t[..n] + "" == t[..n];
  }

  lemma WordForm(t: string, from: nat, read: Reader) returns (d: Doc)
    requires |t| <= from && t != "" && (t[0] == 't' || t[0] == 'f' || t[0] == 'n') && ParseValue(t, from, read).Ok?
    ensures d.NullDoc? || d.BoolDoc?
    ensures Erase(d, read) == ParseValue(t, from, read).value && t == Text(d) + ParseValue(t, from, read).rest
  {
    hide ParseString, ParseObject, ParseArray;
    d := if t[0] == 't' then BoolDoc(true) else if t[0] == 'f' then BoolDoc(false) else NullDoc;
  }

  lemma TokenForm(t: string, from: nat, read: Reader) returns (d: Doc)
    requires |t| <= from && t != "" && t[0] == '"' && ParseValue(t, from, read).Ok?
    ensures d.StringDoc? && DocOk(d, read) && Erase(d, read) == ParseValue(t, from, read).value
    ensures t == Text(d) + ParseValue(t, from, read).rest
  {
    hide ParseString, ParseObject, ParseArray, TokenText, TokenChars, TokenOk;
    var ps := StringForm(t[1..], "", |t| - 1);
    d := StringDoc(ps);
    assert "" + TokenChars(ps) == TokenChars(ps);
    assert t == "\"" + t[1..];
  }

  lemma ScalarForm(t: string, from: nat, read: Reader) returns (d: Doc)
    requires Local(read) && Clean(t) && |t| <= from && t != "" && NotWs(t[0]) && t[0] != '{' && t[0] != '['
    requires ParseValue(t, from, read).Ok? && Delimits(ParseValue(t, from, read).rest)
    ensures DocOk(d, read) && Erase(d, read) == ParseValue(t, from, read).value
    ensures t == Text(d) + ParseValue(t, from, read).rest
  {
    hide ParseString, ParseObject, ParseArray, Local, NumberOk, TokenOk;
    if t[0] == '"' {
      d := TokenForm(t, from, read);
    } else if t[0] == 't' || t[0] == 'f' || t[0] == 'n' {
      d := WordForm(t, from, read);
    } else {
      NumberForm(t, from, read);
      d := NumberDoc(t[..read(t).1]);
      assert t == t[..read(t).1] + t[read(t).1..];
    }
  }

  lemma ValueIsShorter(t: string, read: Reader)
    requires Clean(t) && ParseValue(t, |t|, read).Ok?
    ensures Clean(ParseValue(t, |t|, read).rest)
  {
    ValueEnds(t, |t|, read);
    hide ParseValue;
    CleanEnd(t, |t| - |ParseValue(t, |t|, read).rest|);
  }

  lemma BracketForm(d: Doc, t: string, rest: string)
    requires t != "" && (d.ArrayDoc? || d.ObjectDoc?)
    requires d.ArrayDoc? ==> t[0] == '[' && ArrayIs(t[1..], d.items, d.comma, d.gap, rest)
    requires d.ObjectDoc? ==> t[0] == '{' && ObjectIs(t[1..], d.fields, d.comma, d.gap, rest)
    ensures t == Text(d) + rest
  {
    BracketText(d, rest);
    hide Text, ItemsText, FieldsText, Closing;
    assert t == [t[0]] + t[1..] && Text(d) + rest == [(Text(d) + rest)[0]] + (Text(d) + rest)[1..];
  }

  /** Whatever is read as a value in front of a delimiter is a document with that value. */
  lemma {:induction false} ValueForm(t: string, from: nat, read: Reader) returns (d: Doc)
    requires Local(read) && Clean(t) && |t| <= from && t != "" && NotWs(t[0])
    requires ParseValue(t, from, read).Ok? && Delimits(ParseValue(t, from, read).rest)
    ensures DocOk(d, read) && Erase(d, read) == ParseValue(t, from, read).value
    ensures t == Text(d) + ParseValue(t, from, read).rest
    decreases |t|, 1
  {
    hide Local, ParseValue, ParseArray, ParseObject, ParseString, Text, ItemsText, FieldsText, EraseItems, EraseFields;
    if t[0] == '{' {
      Opens(t, t[1..], from, read);
      CleanEnd(t, 1);
      var fields, comma, gap := ObjectForm(t[1..], "", map[], |t| - 1, read);
      d := ObjectDoc(fields, comma, gap);
      BracketForm(d, t, ParseValue(t, from, read).rest);
    } else if t[0] == '[' {
      Opens(t, t[1..], from, read);
      CleanEnd(t, 1);
      var items, comma, gap := ArrayForm(t[1..], [], |t| - 1, read);
      d := ArrayDoc(items, comma, gap);
      BracketForm(d, t, ParseValue(t, from, read).rest);
      assert [] + EraseItems(items, read) == EraseItems(items, read);
    } else {
      d := ScalarForm(t, from, read);
    }
  }

  lemma ItemSplit(w: string, d: Doc, x: string, y: string)
    ensures w + (Text(d) + (x + y)) == ItemText(Item(w, d, x)) + y
  {
    hide Text;
  }

  lemma ArrayStarts(u: string, acc: seq<Value>, from: nat, read: Reader)
    requires |u| <= from && ParseArray(u, true, acc, from, read).Ok? && (u != "" ==> NotWs(u[0]))
    ensures u != ""
    ensures u[0] == ']' ==> ParseArray(u, true, acc, from, read) == Ok(Array(acc), u[1..])
    ensures u[0] != ']' ==> var v := ParseValue(u, |u|, read);
      v.Ok? && ParseArray(u, true, acc, from, read) == ParseArray(v.rest, false, acc + [v.value], from, read)
  {
    hide ParseValue;
  }

  lemma ArrayContinues(u: string, acc: seq<Value>, from: nat, read: Reader)
    requires |u| <= from && ParseArray(u, false, acc, from, read).Ok? && (u != "" ==> NotWs(u[0]))
    ensures u != "" && (u[0] == ']' || u[0] == ',')
    ensures u[0] == ']' ==> ParseArray(u, false, acc, from, read) == Ok(Array(acc), u[1..])
    ensures u[0] == ',' ==> ParseArray(u, false, acc, from, read) == ParseArray(u[1..], true, acc, from, read)
  {
    hide ParseValue;
  }

  lemma {:induction false} ArrayForm(t: string, acc: seq<Value>, from: nat, read: Reader)
      returns (items: seq<Item>, comma: bool, gap: string)
    requires Local(read) && Clean(t) && |t| <= from && ParseArray(t, true, acc, from, read).Ok?
    ensures ItemsOk(items, read) && ArrayIs(t, items, comma, gap, ParseArray(t, true, acc, from, read).rest)
    ensures ParseArray(t, true, acc, from, read).value == Array(acc + EraseItems(items, read))
    decreases |t|, 2
  {
    hide Local, ParseValue, ParseArray, Text, ItemsText, Closing, DocOk, Clean, EraseItems, ItemsOk, Erase, ItemText;
    var w, u := WsPrefix(t);
    var r := ParseArray(t, true, acc, from, read);
    ArraySkips(w, u, true, acc, from, read);
    ArrayStarts(u, acc, from, read);
    NoItems(read);
    if u[0] == ']' {
      items, comma, gap := [], false, w;
      EmptyArray(w, u);
      assert acc + [] == acc;
    } else {
      CleanJoin(w, u);
      ValueIsShorter(u, read);
      var v := ParseValue(u, |u|, read);
      var x, more, y, last, c, g := ArrayTail(v.rest, acc + [v.value], from, read);
      var d := ValueForm(u, |u|, read);
      var item := Item(w, d, x);
      if more {
        items, comma, gap := [item] + last, c || last == [], g;
        ItemSplit(w, d, x, "," + y);
        MoreItems(item, y, last, c, g, r.rest);
        ItemsCons(item, last, read);
      } else {
        items, comma, gap := [item], false, "";
        ItemSplit(w, d, x, "]" + r.rest);
        LastItem(item, r.rest);
        ItemsCons(item, [], read);
        assert [item] + [] == [item];
      }
      Appended(acc, v.value, EraseItems(last, read));
    }
  }

  lemma NoItems(read: Reader)
    ensures ItemsOk([], read) && EraseItems([], read) == [] && FieldsOk([], read)
    ensures forall m :: EraseFields([], m, read) == m
  {
  }

  lemma EmptyArray(w: string, u: string)
    requires AllWs(w) && u != "" && u[0] == ']'
    ensures ArrayIs(w + u, [], false, w, u[1..])
  {
    assert u == "]" + u[1..];
    assert Closing(false, w, "]") == w + "]";
  }

  lemma Appended<T>(a: seq<T>, x: T, b: seq<T>)
    ensures a + [x] + b == a + ([x] + b) && a + [x] + [] == a + [x]
  {
  }

  /** What follows an item: whitespace, and the closing bracket or a comma and more. */
  lemma {:induction false} ArrayTail(t: string, acc: seq<Value>, from: nat, read: Reader)
      returns (x: string, more: bool, u: string, items: seq<Item>, comma: bool, gap: string)
    requires Local(read) && Clean(t) && |t| <= from && ParseArray(t, false, acc, from, read).Ok?
    ensures var r := ParseArray(t, false, acc, from, read);
      && AllWs(x) && Delimits(t) && ItemsOk(items, read) && r.value == Array(acc + EraseItems(items, read))
      && (if more then t == x + ("," + u) && ArrayIs(u, items, comma, gap, r.rest) else t == x + ("]" + r.rest) && items == [])
    decreases |t|, 0
  {
    hide Local, ParseValue, ParseArray, Text, ItemsText, Closing, DocOk, Clean, EraseItems, ItemsOk, Erase, ArrayIs;
    var y;
    x, y := WsPrefix(t);
    ArraySkips(x, y, false, acc, from, read);
    ArrayContinues(y, acc, from, read);
    u := y[1..];
    assert y == [y[0]] + u;
    assert Delimits(t) by { if x != "" { assert t[0] == x[0]; } else { assert t == y; } }
    more := y[0] == ',';
    if more {
      CleanJoin(x, y);
      CleanEnd(y, 1);
      items, comma, gap := ArrayForm(u, acc, from, read);
    } else {
      items, comma, gap := [], false, "";
      NoItems(read);
      assert acc + [] == acc;
    }
  }

  // ----- Objects -----

  lemma ObjectStarts(u: string, key: string, m: map<string, Value>, from: nat, read: Reader)
    requires |u| <= from && ParseObject(u, SeekKey, key, m, from, read).Ok? && (u != "" ==> NotWs(u[0]))
    ensures u != "" && (u[0] == '}' || u[0] == '"')
    ensures u[0] == '}' ==> ParseObject(u, SeekKey, key, m, from, read) == Ok(Object(m), u[1..])
    ensures u[0] == '"' ==> var k := ParseString(u[1..], "", |u| - 1);
      && k.Ok? && k.value != ""
      && ParseObject(u, SeekKey, key, m, from, read) == ParseObject(k.rest, SeekSep, k.value, m, from, read)
  {
    hide ParseString, ParseValue;
  }

  lemma ObjectContinues(u: string, state: ObjectState, key: string, m: map<string, Value>, from: nat, read: Reader)
    requires |u| <= from && ParseObject(u, state, key, m, from, read).Ok? && (u != "" ==> NotWs(u[0]))
    ensures u != ""
    ensures state == SeekSep ==>
      u[0] == ':' && ParseObject(u, state, key, m, from, read) == ParseObject(u[1..], SeekVal, key, m, from, read)
    ensures state == SeekVal ==> var v := ParseValue(u, |u|, read);
      v.Ok? && ParseObject(u, state, key, m, from, read) == ParseObject(v.rest, SeekEnd, key, m[key := v.value], from, read)
    ensures state == SeekEnd ==> u[0] == '}' || u[0] == ','
    ensures state == SeekEnd && u[0] == '}' ==> ParseObject(u, state, key, m, from, read) == Ok(Object(m), u[1..])
    ensures state == SeekEnd && u[0] == ',' ==>
      ParseObject(u, state, key, m, from, read) == ParseObject(u[1..], SeekKey, key, m, from, read)
  {
    hide ParseString, ParseValue;
  }

  /** A key: its token, and the text from behind the colon on. */
  lemma KeyForm(u: string, key: string, m: map<string, Value>, from: nat, read: Reader)
      returns (ps: seq<Piece>, a: string, b: string, z: string)
    requires Clean(u) && |u| <= from && ParseObject(u, SeekKey, key, m, from, read).Ok? && u != "" && u[0] == '"'
    ensures TokenOk(ps) && TokenChars(ps) != "" && AllWs(a) && AllWs(b) && Clean(z) && z != "" && NotWs(z[0])
    ensures u == "\"" + (TokenText(ps) + "\"" + (a + (":" + (b + z))))
    ensures ParseObject(u, SeekKey, key, m, from, read) == ParseObject(z, SeekVal, TokenChars(ps), m, from, read)
  {
    hide ParseString, ParseValue, ParseObject, TokenText, TokenChars, TokenOk, AllWs, Clean;
    ObjectStarts(u, key, m, from, read);
    var k := ParseString(u[1..], "", |u| - 1);
    ps := StringForm(u[1..], "", |u| - 1);
    assert "" + TokenChars(ps) == TokenChars(ps) && u == "\"" + u[1..];
    var y;
    a, y := WsPrefix(k.rest);
    ObjectSkips(a, y, SeekSep, k.value, m, from, read);
    ObjectContinues(y, SeekSep, k.value, m, from, read);
    assert y == ":" + y[1..];
    b, z := WsPrefix(y[1..]);
    ObjectSkips(b, z, SeekVal, k.value, m, from, read);
    ObjectContinues(z, SeekVal, k.value, m, from, read);
    CleanTail(u, TokenText(ps) + "\"", a, b, z);
  }

  lemma CleanTail(u: string, k: string, a: string, b: string, z: string)
    requires Clean(u) && u == "\"" + (k + (a + (":" + (b + z))))
    ensures Clean(z)
  {
    hide Clean;
    CleanJoin("\"", k + (a + (":" + (b + z))));
    CleanJoin(k, a + (":" + (b + z)));
    CleanJoin(a, ":" + (b + z));
    CleanJoin(":", b + z);
    CleanJoin(b, z);
  }

  lemma EmptyObject(w: string, u: string)
    requires AllWs(w) && u != "" && u[0] == '}'
    ensures ObjectIs(w + u, [], false, w, u[1..])
  {
    assert u == "}" + u[1..];
    assert Closing(false, w, "}") == w + "}";
  }

  lemma FieldShapeIs(f: Field)
    requires AllWs(f.before) && AllWs(f.afterKey) && AllWs(f.beforeValue) && AllWs(f.after)
    requires TokenOk(f.key) && TokenChars(f.key) != ""
    ensures FieldShape(f)
  {
  }

  lemma {:induction false} ObjectForm(t: string, key: string, m: map<string, Value>, from: nat, read: Reader)
      returns (fields: seq<Field>, comma: bool, gap: string)
    requires Local(read) && Clean(t) && |t| <= from && ParseObject(t, SeekKey, key, m, from, read).Ok?
    ensures FieldsOk(fields, read) && ObjectIs(t, fields, comma, gap, ParseObject(t, SeekKey, key, m, from, read).rest)
    ensures ParseObject(t, SeekKey, key, m, from, read).value == Object(EraseFields(fields, m, read))
    decreases |t|, 2
  {
    hide Local, ParseValue, ParseObject, Text, FieldsText, Closing, DocOk, Clean, EraseFields, FieldsOk, Erase, FieldText,
      FieldShape, TokenText, TokenChars, TokenOk, AllWs;
    var w, u := WsPrefix(t);
    var r := ParseObject(t, SeekKey, key, m, from, read);
    ObjectSkips(w, u, SeekKey, key, m, from, read);
    ObjectStarts(u, key, m, from, read);
    NoItems(read);
    if u[0] == '}' {
      fields, comma, gap := [], false, w;
      EmptyObject(w, u);
    } else {
      CleanJoin(w, u);
      var ps, a, b, z := KeyForm(u, key, m, from, read);
      var k := TokenChars(ps);
      ObjectContinues(z, SeekVal, k, m, from, read);
      ValueIsShorter(z, read);
      var v := ParseValue(z, |z|, read);
      var x, more, y, last, c, g := ObjectTail(v.rest, k, m[k := v.value], from, read);
      var d := ValueForm(z, |z|, read);
      var f := Field(w, ps, a, b, d, x);
      FieldShapeIs(f);
      if more {
        fields, comma, gap := [f] + last, c || last == [], g;
        FieldSplit(f, "," + y);
        MoreFields(f, y, last, c, g, r.rest);
        FieldsCons(f, last, m, read);
      } else {
        fields, comma, gap := [f], false, "";
        FieldSplit(f, "}" + r.rest);
        LastField(f, r.rest);
        FieldsCons(f, [], m, read);
        assert [f] + [] == [f];
      }
    }
  }

  /** What follows a field: whitespace, and the closing brace or a comma and more. */
  lemma {:induction false} ObjectTail(t: string, key: string, m: map<string, Value>, from: nat, read: Reader)
      returns (x: string, more: bool, u: string, fields: seq<Field>, comma: bool, gap: string)
    requires Local(read) && Clean(t) && |t| <= from && ParseObject(t, SeekEnd, key, m, from, read).Ok?
    ensures var r := ParseObject(t, SeekEnd, key, m, from, read);
      && AllWs(x) && Delimits(t) && FieldsOk(fields, read) && r.value == Object(EraseFields(fields, m, read))
      && (if more then t == x + ("," + u) && ObjectIs(u, fields, comma, gap, r.rest) else t == x + ("}" + r.rest) && fields == [])
    decreases |t|, 0
  {
    hide Local, ParseValue, ParseObject, Text, FieldsText, Closing, DocOk, Clean, EraseFields, FieldsOk, Erase, ObjectIs;
    var y;
    x, y := WsPrefix(t);
    ObjectSkips(x, y, SeekEnd, key, m, from, read);
    ObjectContinues(y, SeekEnd, key, m, from, read);
    u := y[1..];
    assert y == [y[0]] + u;
    assert Delimits(t) by { if x != "" { assert t[0] == x[0]; } else { assert t == y; } }
    more := y[0] == ',';
    if more {
      CleanJoin(x, y);
      CleanEnd(y, 1);
      fields, comma, gap := ObjectForm(u, key, m, from, read);
    } else {
      fields, comma, gap := [], false, "";
      NoItems(read);
    }
  }

  // ----- The whole text -----

  lemma RootTail(t: string, state: RootState, v: Value, read: Reader) returns (x: string, repeated: bool, after: string)
    requires (state == RootObject || state == RootArray) && ParseRoot(t, state, v, read).Ok?
    ensures ParseRoot(t, state, v, read).value == v && AllWs(x) && AllWs(after) && Delimits(t)
    ensures t == x + (if repeated then (if state == RootArray then "]" else "}") + after else "")
  {
    hide ParseObject, ParseArray;
    var y;
    x, y := WsPrefix(t);
    RootSkips(x, y, state, v, read);
    assert Delimits(t) by { if x != "" { assert t[0] == x[0]; } else { assert t == y; } }
    if y == "" {
      repeated, after := false, "";
    } else {
      repeated := true;
      assert y == [y[0]] + y[1..];
      var z;
      after, z := WsPrefix(y[1..]);
      RootSkips(after, z, RootEnd, v, read);
      assert after + "" == after;
    }
  }

  /** The text is w, a document for v, x, and perhaps its closing bracket once more. */
  ghost predicate IsTextOf(s: string, d: Doc, w: string, x: string, repeated: bool, after: string, v: Value, read: Reader) {
    && DocOk(d, read) && (d.ArrayDoc? || d.ObjectDoc?) && AllWs(w) && AllWs(x) && AllWs(after)
    && s == w + Text(d) + x + Again(d, repeated, after) && v == Erase(d, read)
  }

  /** The texts that are accepted, and the value each is read as. */
  ghost predicate Accepts(s: string, v: Value, read: Reader) {
    || (AllWs(s) && v == Null)
    || exists d, w, x, repeated, after :: IsTextOf(s, d, w, x, repeated, after, v, read)
  }

  lemma RootStarts(u: string, read: Reader)
    requires ParseRoot(u, RootBegin, Null, read).Ok? && u != "" && NotWs(u[0])
    ensures u[0] == '{' || u[0] == '['
    ensures u[0] == '{' ==> var o := ParseObject(u[1..], SeekKey, "", map[], |u| - 1, read);
      o.Ok? && ParseRoot(u, RootBegin, Null, read) == ParseRoot(o.rest, RootObject, o.value, read)
    ensures u[0] == '[' ==> var a := ParseArray(u[1..], true, [], |u| - 1, read);
      a.Ok? && ParseRoot(u, RootBegin, Null, read) == ParseRoot(a.rest, RootArray, a.value, read)
  {
    hide ParseObject, ParseArray;
  }

  lemma BracketedForm(u: string, read: Reader) returns (d: Doc, x: string, repeated: bool, after: string)
    requires Local(read) && Clean(u) && u != "" && NotWs(u[0]) && ParseRoot(u, RootBegin, Null, read).Ok?
    ensures DocOk(d, read) && (d.ArrayDoc? || d.ObjectDoc?) && AllWs(x) && AllWs(after)
    ensures u == Text(d) + (x + Again(d, repeated, after))
    ensures ParseRoot(u, RootBegin, Null, read).value == Erase(d, read)
  {
    hide Local, ParseRoot, ParseObject, ParseArray, ParseValue, Text, DocOk, Erase, Clean, AllWs;
    RootStarts(u, read);
    Opens(u, u[1..], |u|, read);
    var p := ParseValue(u, |u|, read);
    x, repeated, after := RootTail(p.rest, if u[0] == '{' then RootObject else RootArray, p.value, read);
    d := ValueForm(u, |u|, read);
    RootKind(d, u, p.rest, read);
  }

  lemma RootForm(s: string, read: Reader)
    requires Local(read) && Clean(s) && ParseRoot(s, RootBegin, Null, read).Ok?
    ensures Accepts(s, ParseRoot(s, RootBegin, Null, read).value, read)
  {
    hide Local, ParseRoot, Text, DocOk, Erase, Clean, Again;
    var w, u := WsPrefix(s);
    RootSkips(w, u, RootBegin, Null, read);
    if u == "" {
      RootEnds(RootBegin, Null, s, read);
      assert w + "" == w;
    } else {
      CleanJoin(w, u);
      var d, x, repeated, after := BracketedForm(u, read);
      Splice(w, Text(d), x, Again(d, repeated, after));
      assert IsTextOf(s, d, w, x, repeated, after, Erase(d, read), read);
    }
  }

  lemma Splice(a: string, b: string, c: string, d: string)
    ensures a + (b + (c + d)) == a + b + c + d
  {
  }

  lemma RootKind(d: Doc, u: string, rest: string, read: Reader)
    requires DocOk(d, read) && u == Text(d) + rest
    ensures u != "" && (u[0] == '[' <==> d.ArrayDoc?) && (u[0] == '{' <==> d.ObjectDoc?)
  {
  }

  /**
   * The language of the parser: a text is read as v exactly if it is blank and v is
   * null, or if it is a text of the grammar for v, with an array or an object at its
   * root.
   */
  lemma ParsesExactly(raw: string, v: Value, read: Reader)
    requires Local(read)
    ensures Parse(raw, read) == Parsed(v) <==> Accepts(CString(raw), v, read)
  {
    hide Local, ParseRoot, IsTextOf;
    var s := CString(raw);
    assert Clean(s);
    if ParseRoot(s, RootBegin, Null, read).Ok? { RootForm(s, read); }
    if AllWs(s) { RootEnds(RootBegin, Null, s, read); }
    forall d, w, x, repeated, after, u | IsTextOf(s, d, w, x, repeated, after, u, read)
      ensures ParseRoot(s, RootBegin, Null, read) == Ok(u, "")
    {
      TextIsParsed(s, d, w, x, repeated, after, u, read);
    }
  }

  lemma TextIsParsed(s: string, d: Doc, w: string, x: string, repeated: bool, after: string, v: Value, read: Reader)
    requires IsTextOf(s, d, w, x, repeated, after, v, read)
    ensures ParseRoot(s, RootBegin, Null, read) == Ok(v, "")
  {
    hide ParseRoot, Text, Erase, DocOk, Again;
    RootReads(d, w, x, repeated, after, read);
    assert s == w + (Text(d) + (x + Again(d, repeated, after)));
  }
}
