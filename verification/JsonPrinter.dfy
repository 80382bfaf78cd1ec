/** The text the JSON printer writes for a value, as a document without whitespace. */
module JsonPrinter {
  import opened DiyFp
  import opened Keys
  import opened NumberText
  import opened JsonParser
  import opened JsonGrammar

  // ----- Strings -----

  /** Bytes below 0x20; bytes from 0x80 on are negative where `char` is signed, so they count as well. */
  predicate IsLow(c: char) { c < ' ' || c as int >= 0x80 }

  /** The letter of the escape for the five control characters that have one. */
  function Letter(c: char): string {
    if c as int == 8 then "b"
    else if c as int == 12 then "f"
    else if c == '\n' then "n"
    else if c == '\r' then "r"
    else if c == '\t' then "t"
    else ""
  }

  /** A low character without an escape is dropped. */
  function EscapeOf(c: char): string {
    if IsLow(c) then if Letter(c) == "" then "" else "\\" + Letter(c)
    else if c == '"' then "\\\""
    else if c == '\\' then "\\\\"
    else [c]
  }

  function Escaped(s: string): string {
    if s == "" then "" else EscapeOf(s[0]) + Escaped(s[1..])
  }

  /** What comes back: the ASCII characters but the control characters without an escape of their own. */
  predicate Keeps(c: char) {
    var code := c as int;
    code == 8 || code == 9 || code == 10 || code == 12 || code == 13 || 0x20 <= code <= 0x7F
  }

  /** The characters that are not dropped. */
  function Kept(s: string): string {
    if s == "" then "" else (if Keeps(s[0]) then [s[0]] else "") + Kept(s[1..])
  }

  function PieceOf(c: char): Piece
    requires Keeps(c)
  {
    if IsLow(c) then Esc(Letter(c)[0]) else if c == '"' || c == '\\' then Esc(c) else Raw(c)
  }

  function PiecesOf(s: string): seq<Piece> {
    if s == "" then [] else (if Keeps(s[0]) then [PieceOf(s[0])] else []) + PiecesOf(s[1..])
  }

  lemma OnePiece(c: char)
    requires Keeps(c)
    ensures PieceOk(PieceOf(c)) && PieceText(PieceOf(c)) == EscapeOf(c) && PieceChars(PieceOf(c)) == [c]
  {
  }

  /** What is printed for a string is a token for the characters that are kept. */
  lemma {:induction false} EscapedIsToken(s: string)
    ensures TokenOk(PiecesOf(s)) && TokenText(PiecesOf(s)) == Escaped(s) && TokenChars(PiecesOf(s)) == Kept(s)
  {
    hide TokenText, TokenChars, TokenOk, PieceOk, PieceText, PieceChars, PieceOf, EscapeOf, Keeps;
    if s == "" {
      NoPieces();
    } else {
      EscapedIsToken(s[1..]);
      if Keeps(s[0]) {
        OnePiece(s[0]);
        TokenCons(PieceOf(s[0]), PiecesOf(s[1..]));
      } else {
        DroppedIsNothing(s[0]);
        assert [] + PiecesOf(s[1..]) == PiecesOf(s[1..]) && "" + Escaped(s[1..]) == Escaped(s[1..]);
      }
    }
  }

  lemma NoPieces()
    ensures TokenOk([]) && TokenText([]) == "" && TokenChars([]) == ""
  {
  }

  lemma DroppedIsNothing(c: char)
    requires !Keeps(c)
    ensures EscapeOf(c) == ""
  {
  }

  lemma {:induction false} KeptLength(s: string)
    ensures |Kept(s)| <= |s|
    ensures |Kept(s)| == |s| ==> forall i :: 0 <= i < |s| ==> Keeps(s[i])
    ensures (forall i :: 0 <= i < |s| ==> Keeps(s[i])) ==> Kept(s) == s
  {
    if s != "" {
      KeptLength(s[1..]);
      assert s == [s[0]] + s[1..];
      assert (forall i :: 0 <= i < |s| ==> Keeps(s[i])) ==> forall i :: 0 <= i < |s[1..]| ==> Keeps(s[1..][i]);
    }
  }

  /** A printed string is read back without the dropped characters, so it is read back unchanged if none is dropped, and only then. */
  lemma StringReadsBack(s: string, rest: string, from: nat)
    requires |Escaped(s) + "\"" + rest| <= from
    ensures ParseString(Escaped(s) + "\"" + rest, "", from) == Ok(Kept(s), rest)
    ensures Kept(s) == s <==> forall i :: 0 <= i < |s| ==> Keeps(s[i])
  {
    EscapedIsToken(s);
    TokenParses(PiecesOf(s), rest, "", from);
    assert "" + Kept(s) == Kept(s);
    KeptLength(s);
  }

  // ----- Keys, which are printed as they are -----

  function RawKey(k: string): seq<Piece> { seq(|k|, i requires 0 <= i < |k| => Raw(k[i])) }

  predicate KeyOk(k: string) { forall i :: 0 <= i < |k| ==> IsPlainChar(k[i]) }

  lemma {:induction false} RawKeyText(k: string)
    ensures TokenText(RawKey(k)) == k
    ensures TokenOk(RawKey(k)) <==> KeyOk(k)
    ensures KeyOk(k) ==> TokenChars(RawKey(k)) == k
  {
    assert TokenOk(RawKey(k)) <==> KeyOk(k) by {
      assert forall i :: 0 <= i < |k| ==> RawKey(k)[i] == Raw(k[i]);
    }
    if k != "" {
      RawKeyText(k[1..]);
      assert RawKey(k)[1..] == RawKey(k[1..]) && k == [k[0]] + k[1..];
      assert TokenText(RawKey(k)) == PieceText(Raw(k[0])) + TokenText(RawKey(k[1..]));
    }
  }

  /** Reading never makes a string longer, and shortens it at every escape. */
  lemma {:induction false} ReadingShrinks(t: string, acc: string, from: nat)
    requires |t| <= from && ParseString(t, acc, from).Ok?
    ensures var r := ParseString(t, acc, from);
      && |r.value| + |r.rest| + 1 <= |acc| + |t|
      && (|r.value| + |r.rest| + 1 == |acc| + |t| ==> forall i :: 0 <= i < |t| - |r.rest| - 1 ==> IsPlainChar(t[i]))
    decreases |t|
  {
    if t[0] != '"' {
      var n := if t[0] != '\\' then 1 else if t[1] == 'u' then 6 else 2;
      var more := if n == 1 then [t[0]] else if n == 2 then [Unescape(t[1])] else Utf8(Code(t[2..][..4]));
      ReadingShrinks(t[n..], acc + more, from);
      if n == 1 { assert forall i :: 1 <= i < |t| ==> t[i] == t[1..][i - 1]; }
    }
  }

  /** A printed key is read back unchanged if it has no quote, backslash or control character, and only then. */
  lemma KeyReadsBack(k: string, rest: string, from: nat)
    requires |k + "\"" + rest| <= from
    ensures ParseString(k + "\"" + rest, "", from) == Ok(k, rest) <==> KeyOk(k)
  {
    var t := k + "\"" + rest;
    if KeyOk(k) {
      RawKeyText(k);
      TokenParses(RawKey(k), rest, "", from);
      assert "" + k == k;
    }
    if ParseString(t, "", from) == Ok(k, rest) {
      ReadingShrinks(t, "", from);
      assert forall i :: 0 <= i < |k| ==> k[i] == t[i];
    }
  }

  // ----- Values -----

  /** The document has the structure and the tokens of the value's text; its whitespace is free. */
  ghost predicate Shows(v: Value, d: Doc)
    decreases v
  {
    match v
    case Null => d == NullDoc
    case Bool(b) => d == BoolDoc(b)
    case Number(bits) => d.NumberDoc? && Printed(d.text, bits)
    case String(s) => d == StringDoc(PiecesOf(s))
    case Array(items) =>
      d.ArrayDoc? && |d.items| == |items| && forall i :: 0 <= i < |items| ==> Shows(items[i], d.items[i].doc)
    case Object(m) =>
      var ks := Sorted(m.Keys);
      && d.ObjectDoc? && |d.fields| == |ks|
      && forall i :: 0 <= i < |ks| ==> d.fields[i].key == RawKey(ks[i]) && Shows(m[ks[i]], d.fields[i].doc)
  }

  /** No whitespace and no comma in front of a closing bracket. */
  ghost predicate Compact(d: Doc)
    decreases d
  {
    match d
    case ArrayDoc(items, comma, gap) =>
      !comma && gap == "" && forall i :: 0 <= i < |items| ==>
        items[i].before == "" && items[i].after == "" && Compact(items[i].doc)
    case ObjectDoc(fields, comma, gap) =>
      !comma && gap == "" && forall i :: 0 <= i < |fields| ==> Tight(fields[i]) && Compact(fields[i].doc)
    case _ => true
  }

  predicate Tight(f: Field) { f.before == "" && f.afterKey == "" && f.beforeValue == "" && f.after == "" }

  // ----- Printing -----

  /** Writes a string with its escapes; runs of other characters are copied as a whole. */
  method StrToString(buffer: string, s: string) returns (r: string)
    ensures r == buffer + ("\"" + Escaped(s) + "\"")
  {
    hide Escaped, EscapeOf, IsLow, Letter;
    r := buffer + "\"";
    EscapedNothing();
    ghost var front := r;
    var a, c := 0, 0;
    assert s[..0] == "" && r + s[0..0] == front + "";
    while c < |s|
      invariant a <= c <= |s|
      invariant r + s[a..c] == front + Escaped(s[..c])
    {
      EscapedSnoc(s, c);
      EscapeCases(s[c]);
      RunSteps(r, s, a, c);
      if IsLow(s[c]) {
        r := r + s[a..c];
        a := c + 1;
        r := r + (if Letter(s[c]) == "" then "" else "\\" + Letter(s[c]));
      } else if s[c] == '"' {
        r := r + s[a..c];
        r := r + "\\\"";
        a := c + 1;
      } else if s[c] == '\\' {
        r := r + s[a..c];
        r := r + "\\\\";
        a := c + 1;
      }
      c := c + 1;
      Associate3(front, Escaped(s[..c - 1]), EscapeOf(s[c - 1]));
    }
    assert s[..c] == s;
    r := r + s[a..c];
    r := r + "\"";
    assert front + Escaped(s) + "\"" == buffer + ("\"" + Escaped(s) + "\"");
  }

  lemma EscapedNothing()
    ensures Escaped("") == ""
  {
  }

  lemma EscapeCases(c: char)
    ensures IsLow(c) ==> EscapeOf(c) == if Letter(c) == "" then "" else "\\" + Letter(c)
    ensures !IsLow(c) && c == '"' ==> EscapeOf(c) == "\\\""
    ensures !IsLow(c) && c == '\\' ==> EscapeOf(c) == "\\\\"
    ensures !IsLow(c) && c != '"' && c != '\\' ==> EscapeOf(c) == [c]
  {
  }

  /** The run is copied and a new one begins behind c, or the run grows by c. */
  lemma RunSteps(r: string, s: string, a: nat, c: nat)
    requires a <= c < |s|
    ensures forall e: string :: r + s[a..c] + e + s[c + 1..c + 1] == (r + s[a..c]) + e
    ensures r + s[a..c + 1] == (r + s[a..c]) + [s[c]]
  {
    assert s[c + 1..c + 1] == "";
    assert s[a..c + 1] == s[a..c] + [s[c]];
  }

  lemma Associate3(a: string, b: string, c: string)
    ensures (a + b) + c == a + (b + c)
  {
  }

  lemma {:induction false} EscapedJoin(a: string, b: string)
    ensures Escaped(a + b) == Escaped(a) + Escaped(b)
  {
    if a == "" {
      assert a + b == b;
    } else {
      assert (a + b)[1..] == a[1..] + b;
      EscapedJoin(a[1..], b);
    }
  }

  lemma EscapedSnoc(s: string, c: nat)
    requires c < |s|
    ensures Escaped(s[..c + 1]) == Escaped(s[..c]) + EscapeOf(s[c])
  {
    assert s[..c + 1] == s[..c] + [s[c]];
    EscapedJoin(s[..c], [s[c]]);
  }

  /** Reserves 50 characters for the number and keeps those that were written. */
  method NumToString(buffer: string, bits: u64) returns (r: string)
    ensures buffer <= r && Printed(r[|buffer|..], bits)
  {
    hide Printed;
    var reserved := new char[50];
    var len := FpconvDtoa(bits, reserved);
    r := buffer + reserved[..len];
    assert r[|buffer|..] == reserved[..len];
  }

  function JoinItem(done: string, more: bool, text: string): string {
    if more then done + "," + text else done + text
  }

  lemma {:induction false} ItemsSnoc(items: seq<Item>, item: Item)
    ensures ItemsText(items + [item]) == JoinItem(ItemsText(items), items != [], ItemText(item))
  {
    hide ItemText;
    var all := items + [item];
    if items == [] {
      assert all == [item] && ItemsText([item]) == ItemText(item) + "";
    } else {
      ItemsSnoc(items[1..], item);
      assert all[0] == items[0] && all[1..] == items[1..] + [item];
    }
  }

  lemma {:induction false} FieldsSnoc(fields: seq<Field>, f: Field)
    ensures FieldsText(fields + [f]) == JoinItem(FieldsText(fields), fields != [], FieldText(f))
  {
    hide FieldText;
    var all := fields + [f];
    if fields == [] {
      assert all == [f] && FieldsText([f]) == FieldText(f) + "";
    } else {
      FieldsSnoc(fields[1..], f);
      assert all[0] == fields[0] && all[1..] == fields[1..] + [f];
    }
  }

  lemma TightText(k: string, d: Doc)
    ensures FieldText(Field("", RawKey(k), "", "", d, "")) == "\"" + k + "\":" + Text(d)
  {
    hide Text, TokenText, RawKey;
    RawKeyText(k);
  }

  /** The text shows the value, without whitespace. */
  ghost predicate PrintedAs(text: string, v: Value) {
    exists d :: text == Text(d) && Shows(v, d) && Compact(d)
  }

  /** Appends the text of a value to the buffer. */
  method ToStringRecurse(v: Value, buffer: string) returns (r: string, ghost d: Doc)
    ensures buffer <= r && PrintedAs(r[|buffer|..], v)
    ensures r == buffer + Text(d) && Shows(v, d) && Compact(d)
    decreases v, 1
  {
    hide Printed, PiecesOf, Sorted;
    match v {
      case Null => r, d := buffer + "null", NullDoc;
      case Bool(b) => r, d := buffer + (if b then "true" else "false"), BoolDoc(b);
      case Number(bits) =>
        r := NumToString(buffer, bits);
        d := NumberDoc(r[|buffer|..]);
      case String(s) =>
        r := StrToString(buffer, s);
        d := StringDoc(PiecesOf(s));
        EscapedIsToken(s);
      case Array(items) => r, d := ArrayToString(v, buffer);
      case Object(m) => r, d := ObjectToString(v, buffer);
    }
    assert r[|buffer|..] == Text(d);
  }

  method ArrayToString(v: Value, buffer: string) returns (r: string, ghost d: Doc)
    requires v.Array?
    ensures r == buffer + Text(d) && Shows(v, d) && Compact(d)
    decreases v, 0
  {
    hide Text, ItemText, Shows, Compact;
    r := buffer + "[";
    ghost var front := r;
    ghost var items: seq<Item> := [];
    var i := 0;
    while i < |v.items|
      invariant 0 <= i <= |v.items| && |items| == i
      invariant r == front + ItemsText(items)
      invariant forall j :: 0 <= j < i ==>
        items[j].before == "" && items[j].after == "" && Compact(items[j].doc) && Shows(v.items[j], items[j].doc)
    {
      if i != 0 { r := r + ","; }
      ghost var doc;
      r, doc := ToStringRecurse(v.items[i], r);
      ItemsSnoc(items, Item("", doc, ""));
      PlainItem(doc);
      items := items + [Item("", doc, "")];
      i := i + 1;
    }
    r := r + "]";
    d := ArrayDoc(items, false, "");
    ArrayText(buffer, items);
    ArrayShown(v, items);
  }

  lemma PlainItem(doc: Doc)
    ensures ItemText(Item("", doc, "")) == Text(doc)
  {
    hide Text;
  }

  lemma ArrayText(buffer: string, items: seq<Item>)
    ensures buffer + "[" + ItemsText(items) + "]" == buffer + Text(ArrayDoc(items, false, ""))
  {
    hide ItemsText;
    assert Closing(false, "", "]") == "]";
  }

  lemma ObjectText(buffer: string, fields: seq<Field>)
    ensures buffer + "{" + FieldsText(fields) + "}" == buffer + Text(ObjectDoc(fields, false, ""))
  {
    hide FieldsText;
    assert Closing(false, "", "}") == "}";
  }

  method ObjectToString(v: Value, buffer: string) returns (r: string, ghost d: Doc)
    requires v.Object?
    ensures r == buffer + Text(d) && Shows(v, d) && Compact(d)
    decreases v, 0
  {
    hide Text, FieldText, FieldsText, JoinItem, RawKey, Sorted, Shows, Compact;
    NoFields();
    r := buffer + "{";
    ghost var front := r;
    ghost var fields: seq<Field> := [];
    var ks := Sorted(v.members.Keys);
    var i := 0;
    while i < |ks|
      invariant 0 <= i <= |ks| && |fields| == i
      invariant r == front + FieldsText(fields)
      invariant forall j :: 0 <= j < i ==> fields[j].key == RawKey(ks[j]) && Tight(fields[j]) && Compact(fields[j].doc)
      invariant forall j :: 0 <= j < i ==> Shows(v.members[ks[j]], fields[j].doc)
    {
      assert ks[i] in v.members;
      r := r + (if i != 0 then ",\"" else "\"");
      r := r + ks[i];
      r := r + "\":";
      ghost var doc;
      r, doc := ToStringRecurse(v.members[ks[i]], r);
      ghost var f := Field("", RawKey(ks[i]), "", "", doc, "");
      assert Tight(f);
      FieldsSnoc(fields, f);
      TightText(ks[i], doc);
      JoinedField(front, FieldsText(fields), i != 0, ks[i], Text(doc));
      fields := fields + [f];
      i := i + 1;
    }
    r := r + "}";
    d := ObjectDoc(fields, false, "");
    ObjectText(buffer, fields);
    ObjectShown(v, ks, fields);
  }

  lemma NoFields()
    ensures FieldsText([]) == ""
  {
  }

  lemma JoinedField(front: string, done: string, more: bool, k: string, text: string)
    requires !more ==> done == ""
    ensures front + done + (if more then ",\"" else "\"") + k + "\":" + text
      == front + JoinItem(done, more, "\"" + k + "\":" + text)
  {
    var s := k + "\":" + text;
    var q := if more then ",\"" else "\"";
    assert front + done + q + k + "\":" + text == front + done + q + s;
    assert "\"" + k + "\":" + text == "\"" + s;
    if more {
      assert q == "," + "\"";
      assert front + done + ("," + "\"") + s == front + (done + "," + ("\"" + s));
    } else {
      assert front + done + q + s == front + (done + (q + s));
    }
  }

  lemma ArrayShown(v: Value, items: seq<Item>)
    requires v.Array? && |items| == |v.items|
    requires forall j :: 0 <= j < |items| ==>
      items[j].before == "" && items[j].after == "" && Compact(items[j].doc) && Shows(v.items[j], items[j].doc)
    ensures Shows(v, ArrayDoc(items, false, "")) && Compact(ArrayDoc(items, false, ""))
  {
  }

  lemma ObjectShown(v: Value, ks: seq<string>, fields: seq<Field>)
    requires v.Object? && ks == Sorted(v.members.Keys) && |fields| == |ks|
    requires forall j :: 0 <= j < |ks| ==> fields[j].key == RawKey(ks[j]) && Tight(fields[j]) && Compact(fields[j].doc)
    requires forall j :: 0 <= j < |ks| ==> Shows(v.members[ks[j]], fields[j].doc)
    ensures Shows(v, ObjectDoc(fields, false, "")) && Compact(ObjectDoc(fields, false, ""))
  {
    hide RawKey, Tight;
  }
}
