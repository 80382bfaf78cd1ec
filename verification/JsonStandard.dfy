/**
 * The texts of RFC 8259, and how the parser's language differs from them. The proof
 * rests on a scan that decides from the text alone what every document for it must
 * contain: which numbers, whether a comma stands in front of a closing bracket,
 * whether a name is empty, and how the brackets are balanced.
 */
module JsonStandard {
  import opened DecimalText
  import opened DiyFp
  import opened JsonParser
  import opened JsonGrammar
  import opened JsonLanguage

  // ----- Documents -----

  /** A character that is neither whitespace nor NUL nor a mark of the grammar. */
  predicate IsWordChar(c: char) {
    !IsSpace(c) && c != NUL && c != ',' && c != ':' && c != '"' && c != '[' && c != ']' && c != '{' && c != '}'
  }

  predicate IsWord(s: string) { s != "" && forall i :: 0 <= i < |s| ==> IsWordChar(s[i]) }

  /** Every token is one, whatever number or name it is. */
  predicate Lexical(d: Doc)
    decreases d
  {
    match d
    case NumberDoc(text) => IsWord(text) && StartsNumeral(text[0])
    case StringDoc(token) => TokenOk(token)
    case ArrayDoc(items, _, gap) => AllWs(gap) && LexicalItems(items)
    case ObjectDoc(fields, _, gap) => AllWs(gap) && LexicalFields(fields)
    case _ => true
  }

  predicate LexicalItems(items: seq<Item>)
    decreases items
  {
    items != [] ==> ItemShape(items[0]) && Lexical(items[0].doc) && LexicalItems(items[1..])
  }

  predicate LexicalFields(fields: seq<Field>)
    decreases fields
  {
    fields != [] ==> FieldSpaces(fields[0]) && TokenOk(fields[0].key) && Lexical(fields[0].doc) && LexicalFields(fields[1..])
  }

  /** No comma in front of a closing bracket, and every number is one of the standard. */
  ghost predicate Strict(d: Doc)
    decreases d
  {
    match d
    case NumberDoc(text) => RfcNumber(text)
    case ArrayDoc(items, comma, _) => !comma && StrictItems(items)
    case ObjectDoc(fields, comma, _) => !comma && StrictFields(fields)
    case _ => true
  }

  ghost predicate StrictItems(items: seq<Item>)
    decreases items
  {
    items != [] ==> Strict(items[0].doc) && StrictItems(items[1..])
  }

  ghost predicate StrictFields(fields: seq<Field>)
    decreases fields
  {
    fields != [] ==> Strict(fields[0].doc) && StrictFields(fields[1..])
  }

  /** No name is empty. */
  predicate Named(d: Doc)
    decreases d
  {
    match d
    case ArrayDoc(items, _, _) => NamedItems(items)
    case ObjectDoc(fields, _, _) => NamedFields(fields)
    case _ => true
  }

  predicate NamedItems(items: seq<Item>)
    decreases items
  {
    items != [] ==> Named(items[0].doc) && NamedItems(items[1..])
  }

  predicate NamedFields(fields: seq<Field>)
    decreases fields
  {
    fields != [] ==> fields[0].key != [] && Named(fields[0].doc) && NamedFields(fields[1..])
  }

  /** The text of a document with whitespace around it. */
  ghost predicate IsSpacedText(s: string, d: Doc, w: string, x: string) {
    Lexical(d) && AllWs(w) && AllWs(x) && s == w + Text(d) + x
  }

  ghost predicate IsRfcTextOf(s: string, d: Doc, w: string, x: string) {
    IsSpacedText(s, d, w, x) && Strict(d)
  }

  /** The JSON texts of RFC 8259: any value with whitespace around it. */
  ghost predicate IsRfcText(s: string) {
    exists d, w, x :: IsRfcTextOf(s, d, w, x)
  }

  // ----- The scan -----

  datatype Mode = Outside | AfterComma | Inside | Escaped

  datatype Scan = Scan(mode: Mode, word: string, depth: int, strict: bool, blank: bool, named: bool)

  /** The end of a word: it has to be a number of the standard or one of the three names. */
  ghost function Settle(st: Scan): Scan {
    if st.word == "" then st else st.(word := "", strict := st.strict && RfcWord(st.word))
  }

  ghost predicate RfcWord(word: string) {
    word == "null" || word == "true" || word == "false" || RfcNumber(word)
  }

  ghost function Step(st: Scan, c: char): Scan {
    match st.mode
    case Escaped => st.(mode := Inside)
    case Inside =>
      if c == '"' then st.(mode := Outside)
      else st.(mode := if c == '\\' then Escaped else Inside, blank := false)
    case _ =>
      if IsWordChar(c) then st.(word := st.word + [c], mode := Outside, blank := false)
      else if c == ',' then Settle(st).(mode := AfterComma, blank := false)
      else if c == ':' then Settle(st).(mode := Outside, blank := false, named := st.named && !st.blank)
      else if c == '[' || c == '{' then Settle(st).(mode := Outside, blank := false, depth := st.depth + 1)
      else if c == ']' || c == '}' then
        var r := Settle(st);
        r.(mode := Outside, blank := false, depth := st.depth - 1, strict := r.strict && st.mode != AfterComma)
      else if c == '"' then Settle(st).(mode := Inside, blank := true)
      else Settle(st)
  }

  ghost function Run(st: Scan, s: string): Scan
    decreases |s|
  {
    if s == "" then st else Run(Step(st, s[0]), s[1..])
  }

  lemma {:induction false} RunJoin(st: Scan, a: string, b: string)
    ensures Run(st, a + b) == Run(Run(st, a), b)
    decreases |a|
  {
    hide Step;
    if a == "" {
      assert a + b == b;
    } else {
      assert (a + b)[0] == a[0] && (a + b)[1..] == a[1..] + b;
      RunJoin(Step(st, a[0]), a[1..], b);
    }
  }

  lemma RunJoin3(st: Scan, a: string, b: string, c: string)
    ensures Run(st, a + b + c) == Run(Run(Run(st, a), b), c)
  {
    RunJoin(st, a + b, c);
    RunJoin(st, a, b);
  }

  lemma RunOne(st: Scan, c: char)
    ensures Run(st, [c]) == Step(st, c)
  {
    hide Step;
    assert [c][1..] == "";
    assert Run(Step(st, c), "") == Step(st, c);
  }

  // ----- What the scan makes of each token -----

  predicate Outer(st: Scan) { st.mode == Outside || st.mode == AfterComma }

  /** Between tokens. */
  predicate Ready(st: Scan) { Outer(st) && st.word == "" }

  /** The state with the last word ended and the last string forgotten. */
  ghost function Calm(st: Scan): Scan { Settle(st).(blank := false) }

  lemma {:induction false} SpacesScan(st: Scan, w: string)
    requires AllWs(w) && Outer(st)
    ensures Run(st, w) == if w == "" then st else Settle(st)
    decreases |w|
  {
    if w != "" { SpacesScan(Settle(st), w[1..]); }
  }

  lemma {:induction false} WordScan(st: Scan, s: string)
    requires IsWord(s) && Outer(st)
    ensures Run(st, s) == st.(word := st.word + s, mode := Outside, blank := false)
    decreases |s|
  {
    hide Settle;
    var next := st.(word := st.word + [s[0]], mode := Outside, blank := false);
    assert Step(st, s[0]) == next;
    assert s == [s[0]] + s[1..];
    assert st.word + s == st.word + [s[0]] + s[1..];
    if |s| > 1 {
      assert forall i :: 0 <= i < |s[1..]| ==> s[1..][i] == s[i + 1];
      WordScan(next, s[1..]);
    }
  }

  lemma PieceScan(st: Scan, p: Piece)
    requires PieceOk(p) && st.mode == Inside
    ensures Run(st, PieceText(p)) == st.(blank := false)
  {
    hide Settle, Utf8;
    match p
    case Raw(c) => RunOne(st, c);
    case Esc(c) =>
      assert ['\\', c] == ['\\'] + [c];
      RunJoin(st, ['\\'], [c]);
      RunOne(st, '\\');
      RunOne(st.(mode := Escaped, blank := false), c);
    case Uni(h) =>
      var esc := st.(mode := Escaped, blank := false);
      assert ['\\', 'u'] + h == ['\\'] + ['u'] + h;
      RunJoin3(st, ['\\'], ['u'], h);
      RunOne(st, '\\');
      RunOne(esc, 'u');
      HexScan(st.(blank := false), h);
  }

  lemma {:induction false} HexScan(st: Scan, h: string)
    requires AllHex(h) && st.mode == Inside && !st.blank
    ensures Run(st, h) == st
    decreases |h|
  {
    hide Settle;
    if h != "" {
      assert Step(st, h[0]) == st;
      HexScan(st, h[1..]);
    }
  }

  lemma {:induction false} TokenScan(st: Scan, ps: seq<Piece>)
    requires TokenOk(ps) && st.mode == Inside
    ensures Run(st, TokenText(ps)) == st.(blank := st.blank && ps == [])
    decreases |ps|
  {
    hide Step, PieceText;
    if ps != [] {
      PieceScan(st, ps[0]);
      RunJoin(st, PieceText(ps[0]), TokenText(ps[1..]));
      TokenScan(st.(blank := false), ps[1..]);
    }
  }

  /** A string with its quotes. */
  lemma QuotedScan(st: Scan, ps: seq<Piece>)
    requires TokenOk(ps) && Ready(st)
    ensures Run(st, "\"" + TokenText(ps) + "\"") == st.(mode := Outside, blank := ps == [])
  {
    hide TokenText;
    var inside := st.(mode := Inside, blank := true);
    RunJoin3(st, "\"", TokenText(ps), "\"");
    RunOne(st, '"');
    TokenScan(inside, ps);
    RunOne(inside.(blank := ps == []), '"');
  }

  // ----- What the scan makes of a document -----

  /** The state behind something balanced that is strict and named as said. */
  ghost function Past(st: Scan, strict: bool, named: bool): Scan {
    Scan(Outside, "", st.depth, st.strict && strict, false, st.named && named)
  }

  /** A comma or a closing bracket ends whatever stands in front of it. */
  lemma MarkScan(st: Scan, s: string)
    requires Outer(st) && s != "" && (s[0] == ',' || s[0] == ']' || s[0] == '}')
    ensures Run(st, s) == Run(Calm(st), s)
  {
    assert Step(st, s[0]) == Step(Calm(st), s[0]);
    hide Step, Calm;
  }

  lemma CommaScan(st: Scan, comma: bool)
    requires st.mode == Outside
    ensures Run(st, if comma then "," else "") == if comma then Settle(st).(mode := AfterComma, blank := false) else st
  {
    hide Step, Settle;
    if comma {
      RunOne(st, ',');
      assert "," == [','];
      CommaStep(st);
    } else {
      NothingScan(st);
    }
  }

  lemma CommaStep(st: Scan)
    requires st.mode == Outside
    ensures Step(st, ',') == Settle(st).(mode := AfterComma, blank := false)
  {
  }

  lemma BracketStep(st: Scan, c: char)
    requires Outer(st) && (c == ']' || c == '}')
    ensures Step(st, c) == Scan(Outside, "", st.depth - 1, Calm(st).strict && st.mode != AfterComma, false, st.named)
  {
  }

  lemma SettledOnce(st: Scan)
    ensures Calm(Settle(st)) == Calm(st) && Settle(st).mode == st.mode
    ensures Settle(st).depth == st.depth && Settle(st).named == st.named && Calm(st).named == st.named
    ensures Calm(Settle(st).(mode := AfterComma, blank := false)).strict == Calm(st).strict
  {
  }

  lemma ClosingScan(st: Scan, comma: bool, gap: string, bracket: string)
    requires st.mode == Outside && AllWs(gap) && (bracket == "]" || bracket == "}")
    ensures Run(st, Closing(comma, gap, bracket)) ==
      Scan(Outside, "", st.depth - 1, Calm(st).strict && !comma, false, st.named)
  {
    hide RfcWord, Run, Step, Settle, Calm;
    var lead := if comma then "," else "";
    RunJoin3(st, lead, gap, bracket);
    CommaScan(st, comma);
    var a := Run(st, lead);
    SpacesScan(a, gap);
    SettledOnce(st);
    SettledOnce(a);
    RunOne(Run(a, gap), bracket[0]);
    BracketStep(Run(a, gap), bracket[0]);
    assert [bracket[0]] == bracket;
  }

  lemma LeafScan(st: Scan, d: Doc)
    requires Lexical(d) && Ready(st) && !d.ArrayDoc? && !d.ObjectDoc?
    ensures Calm(Run(st, Text(d))) == Past(st, Strict(d), Named(d))
  {
    hide RfcNumber, Run, TokenText;
    match d
    case NullDoc => WordScan(st, "null");
    case BoolDoc(b) => WordScan(st, if b then "true" else "false");
    case NumberDoc(text) => WordScan(st, text); assert "" + text == text;
    case StringDoc(token) => QuotedScan(st, token);
  }

  lemma ItemScan(st: Scan, item: Item)
    requires ItemShape(item) && Lexical(item.doc) && Ready(st)
    requires Calm(Run(st, Text(item.doc))) == Past(st, Strict(item.doc), Named(item.doc))
    ensures Calm(Run(st, ItemText(item))) == Past(st, Strict(item.doc), Named(item.doc))
  {
    hide Text, Strict, Named, Lexical, RfcWord;
    RunJoin3(st, item.before, Text(item.doc), item.after);
    SpacesScan(st, item.before);
    SpacesScan(Run(st, Text(item.doc)), item.after);
  }

  /** The state behind the colon. */
  ghost function BehindKey(st: Scan, f: Field): Scan { Past(st, true, f.key != []) }

  lemma FieldScan(st: Scan, f: Field)
    requires FieldSpaces(f) && TokenOk(f.key) && Lexical(f.doc) && Ready(st)
    requires Calm(Run(BehindKey(st, f), Text(f.doc))) == Past(BehindKey(st, f), Strict(f.doc), Named(f.doc))
    ensures Calm(Run(st, FieldText(f))) == Past(st, Strict(f.doc), f.key != [] && Named(f.doc))
  {
    hide Text, Strict, Named, Lexical, RfcWord, TokenText;
    var key := "\"" + TokenText(f.key) + "\"";
    var s1 := st.(mode := Outside, blank := f.key == []);
    var s2 := BehindKey(st, f);
    FieldJoin(f);
    RunJoin3(st, f.before, key, f.afterKey);
    RunJoin3(st, f.before + key + f.afterKey, ":", f.beforeValue);
    RunJoin3(st, f.before + key + f.afterKey + ":" + f.beforeValue, Text(f.doc), f.after);
    SpacesScan(st, f.before);
    QuotedScan(st, f.key);
    SpacesScan(s1, f.afterKey);
    RunOne(s1, ':');
    SpacesScan(s2, f.beforeValue);
    SpacesScan(Run(s2, Text(f.doc)), f.after);
  }

  lemma FieldJoin(f: Field)
    ensures FieldText(f) == f.before + ("\"" + TokenText(f.key) + "\"") + f.afterKey + ":" + f.beforeValue + Text(f.doc) + f.after
  {
    hide Text, TokenText;
  }

  /** Behind a document the scan stands where it stood in front, and knows what the document contains. */
  lemma {:induction false} DocScan(st: Scan, d: Doc)
    requires Lexical(d) && Ready(st)
    ensures Calm(Run(st, Text(d))) == Past(st, Strict(d), Named(d))
    decreases d, 0
  {
    hide Run, RfcNumber, RfcWord, Step, ItemsText, FieldsText, Closing;
    if d.ArrayDoc? || d.ObjectDoc? {
      var open := if d.ArrayDoc? then "[" else "{";
      var list := if d.ArrayDoc? then ItemsText(d.items) else FieldsText(d.fields);
      var close := Closing(d.comma, d.gap, if d.ArrayDoc? then "]" else "}");
      RunJoin3(st, open, list, close);
      RunOne(st, open[0]);
      assert [open[0]] == open;
      var inner := Past(st, true, true).(depth := st.depth + 1);
      Opening(st, open[0]);
      if d.ArrayDoc? { ItemsScan(inner, d.items); } else { FieldsScan(inner, d.fields); }
      ClosingScan(Run(inner, list), d.comma, d.gap, if d.ArrayDoc? then "]" else "}");
    } else {
      LeafScan(st, d);
    }
  }

  lemma Opening(st: Scan, c: char)
    requires Ready(st) && (c == '[' || c == '{')
    ensures Step(st, c) == Past(st, true, true).(depth := st.depth + 1)
  {
  }

  lemma CalmIsReady(st: Scan)
    requires st.word == ""
    ensures Calm(st) == st.(blank := false)
  {
  }

  lemma NothingScan(st: Scan)
    ensures Run(st, "") == st
  {
  }

  /** Behind a part and a comma the scan goes on with the rest of the list. */
  lemma ListScan(st: Scan, x: string, list: string, strict: bool, named: bool)
    requires Calm(Run(st, x)) == Past(st, strict, named)
    ensures Run(st, x + ("," + list)) == Run(Past(st, strict, named).(mode := AfterComma), list)
  {
    hide Run, RfcWord;
    RunJoin(st, x, "," + list);
    MarkScan(Run(st, x), "," + list);
    RunJoin(Past(st, strict, named), ",", list);
    RunOne(Past(st, strict, named), ',');
  }

  lemma {:induction false} ItemsScan(st: Scan, items: seq<Item>)
    requires LexicalItems(items) && st == Past(st, true, true).(mode := st.mode) && Outer(st)
    ensures Calm(Run(st, ItemsText(items))) == Past(st, StrictItems(items), NamedItems(items)).(mode := if items == [] then st.mode else Outside)
    decreases items, 1
  {
    hide Run, RfcNumber, RfcWord, Text, ItemText, Strict, Named, Lexical, Calm, Step, ItemShape;
    if items == [] {
      NothingScan(st);
      CalmIsReady(st);
    } else {
      var first := Past(st, Strict(items[0].doc), Named(items[0].doc));
      DocScan(st, items[0].doc);
      ItemScan(st, items[0]);
      if |items| > 1 {
        ListScan(st, ItemText(items[0]), ItemsText(items[1..]), Strict(items[0].doc), Named(items[0].doc));
        ItemsScan(first.(mode := AfterComma), items[1..]);
      } else {
        assert ItemsText(items) == ItemText(items[0]) + "" == ItemText(items[0]);
      }
    }
  }

  lemma OneField(fields: seq<Field>)
    requires |fields| == 1
    ensures FieldsText(fields) == FieldText(fields[0])
    ensures StrictFields(fields) == Strict(fields[0].doc)
    ensures NamedFields(fields) == (fields[0].key != [] && Named(fields[0].doc))
  {
    hide FieldText, Strict, Named;
    assert fields[1..] == [];
    assert FieldText(fields[0]) + "" == FieldText(fields[0]);
  }

  lemma {:induction false} FieldsScan(st: Scan, fields: seq<Field>)
    requires LexicalFields(fields) && st == Past(st, true, true).(mode := st.mode) && Outer(st)
    ensures Calm(Run(st, FieldsText(fields))) == Past(st, StrictFields(fields), NamedFields(fields)).(mode := if fields == [] then st.mode else Outside)
    decreases fields, 1
  {
    hide Run, RfcNumber, RfcWord, Text, FieldText, Strict, Named, Lexical, Calm, Step, FieldSpaces, TokenOk;
    if fields == [] {
      NothingScan(st);
      CalmIsReady(st);
    } else {
      var f := fields[0];
      DocScan(BehindKey(st, f), f.doc);
      FieldScan(st, f);
      if |fields| > 1 {
        ListScan(st, FieldText(f), FieldsText(fields[1..]), Strict(f.doc), f.key != [] && Named(f.doc));
        FieldsScan(Past(st, Strict(f.doc), f.key != [] && Named(f.doc)).(mode := AfterComma), fields[1..]);
      } else {
        OneField(fields);
      }
    }
  }

  // ----- Texts -----

  const START: Scan := Scan(Outside, "", 0, true, false, true)

  lemma WholeScan(d: Doc, w: string, x: string, repeated: bool, after: string)
    requires Lexical(d) && AllWs(w) && AllWs(x) && AllWs(after)
    ensures Calm(Run(START, w + Text(d) + x + Again(d, repeated, after))) ==
      Scan(Outside, "", if repeated then -1 else 0, Strict(d), false, Named(d))
  {
    hide Run, Text, Strict, Named, Lexical, RfcWord, Again, AllWs, Calm, Settle;
    SpacedScan(d, w, x);
    RunJoin(START, w + Text(d) + x, Again(d, repeated, after));
    AgainScan(Run(START, w + Text(d) + x), d, repeated, after);
  }

  lemma SpacedScan(d: Doc, w: string, x: string)
    requires Lexical(d) && AllWs(w) && AllWs(x)
    ensures var st := Run(START, w + Text(d) + x);
      st.mode == Outside && st.depth == 0 && Calm(st) == Scan(Outside, "", 0, Strict(d), false, Named(d))
  {
    hide Run, Text, Strict, Named, Lexical, RfcWord, AllWs;
    RunJoin3(START, w, Text(d), x);
    SpacesScan(START, w);
    DocScan(START, d);
    SpacesScan(Run(START, Text(d)), x);
  }

  lemma AgainScan(st: Scan, d: Doc, repeated: bool, after: string)
    requires st.mode == Outside && AllWs(after)
    ensures Calm(Run(st, Again(d, repeated, after))) == Calm(st).(depth := if repeated then st.depth - 1 else st.depth)
  {
    hide Run, RfcWord;
    if repeated {
      var bracket := if d.ArrayDoc? then ']' else '}';
      RunJoin(st, [bracket], after);
      RunOne(st, bracket);
      BracketStep(st, bracket);
      SpacesScan(Step(st, bracket), after);
    } else {
      NothingScan(st);
    }
  }

  /** Where a number starts, the reader takes nothing but characters of words. */
  ghost predicate ReadsWords(read: Reader) {
    forall t: string, i: nat :: t != "" && StartsNumeral(t[0]) && i < read(t).1 ==> IsWordChar(t[i])
  }

  /** The reader takes every number of the standard as a whole. */
  ghost predicate ReadsStandard(read: Reader) {
    forall text: string :: RfcNumber(text) ==> NumberOk(text, read)
  }

  lemma NumberIsWord(text: string, read: Reader)
    requires ReadsWords(read) && NumberOk(text, read)
    ensures IsWord(text)
  {
    assert Delimits("");
    assert text + "" == text;
    forall i: nat | i < |text| ensures IsWordChar(text[i]) {
      assert i < read(text).1;
    }
  }

  lemma NoEmptyToken(ps: seq<Piece>)
    requires TokenOk(ps)
    ensures TokenChars(ps) == "" <==> ps == []
  {
  }

  lemma {:induction false} DocIsLexical(d: Doc, read: Reader)
    requires DocOk(d, read) && ReadsWords(read)
    ensures Lexical(d) && Named(d)
    decreases d
  {
    hide ReadsWords, NumberOk;
    match d
    case NumberDoc(text) => NumberIsWord(text, read); NumberStarts(text, read);
    case ArrayDoc(items, _, _) => ItemsAreLexical(items, read);
    case ObjectDoc(fields, _, _) => FieldsAreLexical(fields, read);
    case _ =>
  }

  lemma NumberStarts(text: string, read: Reader)
    requires NumberOk(text, read)
    ensures text != "" && StartsNumeral(text[0])
  {
  }

  lemma {:induction false} ItemsAreLexical(items: seq<Item>, read: Reader)
    requires ItemsOk(items, read) && ReadsWords(read)
    ensures LexicalItems(items) && NamedItems(items)
    decreases items
  {
    hide ReadsWords, DocOk, Lexical, Named;
    if items != [] {
      DocIsLexical(items[0].doc, read);
      ItemsAreLexical(items[1..], read);
    }
  }

  lemma {:induction false} FieldsAreLexical(fields: seq<Field>, read: Reader)
    requires FieldsOk(fields, read) && ReadsWords(read)
    ensures LexicalFields(fields) && NamedFields(fields)
    decreases fields
  {
    hide ReadsWords, DocOk, Lexical, Named, TokenChars;
    if fields != [] {
      NoEmptyToken(fields[0].key);
      DocIsLexical(fields[0].doc, read);
      FieldsAreLexical(fields[1..], read);
    }
  }

  /**
   * An accepted text is a text of the standard exactly if no comma stands in front of
   * a closing bracket, every number is one of the standard, and the last bracket is not
   * repeated.
   */
  lemma StandardExactly(s: string, d: Doc, w: string, x: string, repeated: bool, after: string, v: Value, read: Reader)
    requires IsTextOf(s, d, w, x, repeated, after, v, read) && ReadsWords(read)
    ensures IsRfcText(s) <==> Strict(d) && !repeated
  {
    hide ReadsWords, Text, DocOk, Erase, Run, Strict, Named, Lexical;
    DocIsLexical(d, read);
    WholeScan(d, w, x, repeated, after);
    forall e, y, z | IsRfcTextOf(s, e, y, z) ensures Strict(d) && !repeated {
      WholeScan(e, y, z, false, "");
      assert y + Text(e) + z + "" == s;
    }
    if !repeated {
      assert w + Text(d) + x + "" == s;
      if Strict(d) { assert IsRfcTextOf(s, d, w, x); }
    }
  }

  // ----- Texts of the standard that are rejected -----

  lemma {:induction false} LexicalIsClean(d: Doc)
    requires Lexical(d)
    ensures Clean(Text(d))
    decreases d
  {
    hide Clean, Closing, TokenText;
    CleanMarks();
    match d
    case ArrayDoc(items, comma, gap) =>
      LexicalItemsAreClean(items);
      ClosingIsClean(comma, gap, "]");
      CleanJoin3("[", ItemsText(items), Closing(comma, gap, "]"));
    case ObjectDoc(fields, comma, gap) =>
      LexicalFieldsAreClean(fields);
      ClosingIsClean(comma, gap, "}");
      CleanJoin3("{", FieldsText(fields), Closing(comma, gap, "}"));
    case StringDoc(token) =>
      TokenIsClean(token);
      CleanJoin3("\"", TokenText(token), "\"");
    case _ => ScalarIsClean(d);
  }

  lemma ScalarIsClean(d: Doc)
    requires Lexical(d) && (d.NullDoc? || d.BoolDoc? || d.NumberDoc?)
    ensures Clean(Text(d))
  {
  }

  lemma {:induction false} LexicalItemsAreClean(items: seq<Item>)
    requires LexicalItems(items)
    ensures Clean(ItemsText(items))
    decreases items
  {
    hide Clean, Text, Lexical;
    CleanMarks();
    if items != [] {
      LexicalIsClean(items[0].doc);
      LexicalItemsAreClean(items[1..]);
      WsIsClean(items[0].before);
      WsIsClean(items[0].after);
      CleanJoin3(items[0].before, Text(items[0].doc), items[0].after);
      ListedIsClean(ItemText(items[0]), |items| > 1, ItemsText(items[1..]));
    }
  }

  lemma {:induction false} LexicalFieldsAreClean(fields: seq<Field>)
    requires LexicalFields(fields)
    ensures Clean(FieldsText(fields))
    decreases fields
  {
    hide Clean, Text, FieldText, Lexical;
    CleanMarks();
    if fields != [] {
      LexicalIsClean(fields[0].doc);
      LexicalFieldsAreClean(fields[1..]);
      FieldIsClean(fields[0]);
      ListedIsClean(FieldText(fields[0]), |fields| > 1, FieldsText(fields[1..]));
    }
  }

  lemma {:induction false} StandardDocIsOk(d: Doc, read: Reader)
    requires Lexical(d) && Strict(d) && Named(d) && ReadsStandard(read)
    ensures DocOk(d, read)
    decreases d
  {
    hide NumberOk, RfcNumber;
    match d
    case ArrayDoc(items, _, _) => StandardItemsAreOk(items, read);
    case ObjectDoc(fields, _, _) => StandardFieldsAreOk(fields, read);
    case _ =>
  }

  lemma {:induction false} StandardItemsAreOk(items: seq<Item>, read: Reader)
    requires LexicalItems(items) && StrictItems(items) && NamedItems(items) && ReadsStandard(read)
    ensures ItemsOk(items, read)
    decreases items
  {
    hide ReadsStandard, DocOk, Lexical, Strict, Named;
    if items != [] {
      StandardDocIsOk(items[0].doc, read);
      StandardItemsAreOk(items[1..], read);
    }
  }

  lemma {:induction false} StandardFieldsAreOk(fields: seq<Field>, read: Reader)
    requires LexicalFields(fields) && StrictFields(fields) && NamedFields(fields) && ReadsStandard(read)
    ensures FieldsOk(fields, read)
    decreases fields
  {
    hide ReadsStandard, DocOk, Lexical, Strict, Named, TokenChars;
    if fields != [] {
      NoEmptyToken(fields[0].key);
      StandardDocIsOk(fields[0].doc, read);
      StandardFieldsAreOk(fields[1..], read);
    }
  }

  lemma LexicalStarts(d: Doc)
    requires Lexical(d)
    ensures Text(d) != "" && NotWs(Text(d)[0])
    ensures Text(d)[0] == '{' || Text(d)[0] == '[' ==> d.ArrayDoc? || d.ObjectDoc?
  {
  }

  lemma RootIsBracket(d: Doc, w: string, x: string, read: Reader)
    requires Lexical(d) && AllWs(w) && ParseRoot(w + Text(d) + x, RootBegin, Null, read).Ok?
    ensures d.ArrayDoc? || d.ObjectDoc?
  {
    hide ParseRoot, Text;
    LexicalStarts(d);
    Regroup(w, Text(d), x, "");
    RootSkips(w, Text(d) + x, RootBegin, Null, read);
    RootStarts(Text(d) + x, read);
  }

  lemma NamesAreSeen(s: string, d: Doc, w: string, x: string, v: Value, read: Reader)
    requires IsSpacedText(s, d, w, x) && Accepts(s, v, read) && !AllWs(s) && ReadsWords(read)
    ensures Named(d)
  {
    hide ReadsWords, Text, DocOk, Erase, Run, Strict, Named, Lexical;
    var e, y, z, repeated, after :| IsTextOf(s, e, y, z, repeated, after, v, read);
    DocIsLexical(e, read);
    WholeScan(e, y, z, repeated, after);
    WholeScan(d, w, x, false, "");
    assert w + Text(d) + x + "" == s;
  }

  lemma NotBlank(s: string, d: Doc, w: string, x: string)
    requires IsSpacedText(s, d, w, x)
    ensures !AllWs(s)
  {
    LexicalStarts(d);
    hide Text, Lexical;
    assert s[|w|] == Text(d)[0];
  }

  /**
   * A text of the standard is accepted exactly if its root is an object or an array
   * and none of its names is empty; it is then read as the value of its document.
   */
  lemma StandardIsRead(s: string, d: Doc, w: string, x: string, read: Reader)
    requires IsRfcTextOf(s, d, w, x)
    requires Local(read) && ReadsWords(read) && ReadsStandard(read)
    ensures Parse(s, read).Parsed? <==> (d.ArrayDoc? || d.ObjectDoc?) && Named(d)
    ensures (d.ArrayDoc? || d.ObjectDoc?) && Named(d) ==> DocOk(d, read) && Parse(s, read) == Parsed(Erase(d, read))
  {
    hide Local, ReadsWords, ReadsStandard, Text, DocOk, Erase, Strict, Named, Lexical, ParseRoot, Accepts;
    SpacedIsClean(s, d, w, x);
    WholeCString(s);
    if Parse(s, read).Parsed? {
      var v := Parse(s, read).value;
      ParsesExactly(s, v, read);
      RootIsBracket(d, w, x, read);
      NotBlank(s, d, w, x);
      NamesAreSeen(s, d, w, x, v, read);
    }
    if (d.ArrayDoc? || d.ObjectDoc?) && Named(d) {
      StandardDocIsOk(d, read);
      TextIsRead(d, w, x, false, "", read);
      assert w + Text(d) + x + "" == s;
    }
  }

  lemma SpacedIsClean(s: string, d: Doc, w: string, x: string)
    requires IsSpacedText(s, d, w, x)
    ensures Clean(s)
  {
    LexicalIsClean(d);
    hide Text, Lexical;
    WsIsClean(w);
    WsIsClean(x);
    CleanJoin3(w, Text(d), x);
  }

  // ----- One text for each difference -----

  /** `[1,]` is read as an array of one number, and is no text of the standard. */
  lemma CommaIsAccepted(b: u64, read: Reader)
    requires NumberOk("1", read) && read("1").0 == b && ReadsWords(read)
    ensures Parse("[1,]", read) == Parsed(Array([Number(b)])) && !IsRfcText("[1,]")
  {
    var d := ArrayDoc([Item("", NumberDoc("1"), "")], true, "");
    assert d.items[1..] == [];
    assert DocOk(d, read);
    assert Text(d) == "[1,]" && "" + "[1,]" + "" + Again(d, false, "") == "[1,]";
    assert Erase(d, read) == Array([Number(b)]);
    TextIsRead(d, "", "", false, "", read);
    StandardExactly("[1,]", d, "", "", false, "", Array([Number(b)]), read);
  }

  /** `[]]` is read as an empty array, and is no text of the standard. */
  lemma RepetitionIsAccepted(read: Reader)
    requires ReadsWords(read)
    ensures Parse("[]]", read) == Parsed(Array([])) && !IsRfcText("[]]")
  {
    var d := ArrayDoc([], false, "");
    assert Text(d) == "[]" && "" + "[]" + "" + Again(d, true, "") == "[]]";
    TextIsRead(d, "", "", true, "", read);
    StandardExactly("[]]", d, "", "", true, "", Array([]), read);
  }

  /** `[01]` is accepted by a reader that takes `01` for a number, and is no text of the standard. */
  lemma LeadingZeroIsAccepted(b: u64, read: Reader)
    requires NumberOk("01", read) && read("01").0 == b && ReadsWords(read)
    ensures Parse("[01]", read) == Parsed(Array([Number(b)])) && !IsRfcText("[01]")
  {
    var d := ArrayDoc([Item("", NumberDoc("01"), "")], false, "");
    assert d.items[1..] == [];
    assert DocOk(d, read);
    assert Text(d) == "[01]" && "" + "[01]" + "" + Again(d, false, "") == "[01]";
    assert Erase(d, read) == Array([Number(b)]);
    TextIsRead(d, "", "", false, "", read);
    StandardExactly("[01]", d, "", "", false, "", Array([Number(b)]), read);
    NotStandard01();
  }

  lemma NotStandard01()
    ensures !RfcNumber("01")
  {
  }

  /** A blank text is read as null, and is no text of the standard. */
  lemma BlankIsAccepted(raw: string, read: Reader)
    requires AllWs(CString(raw))
    ensures Parse(raw, read) == Parsed(Null) && !IsRfcText(CString(raw))
  {
    hide ParseRoot, IsSpacedText;
    RootEnds(RootBegin, Null, CString(raw), read);
    forall d, w, x | IsRfcTextOf(CString(raw), d, w, x) ensures false {
      NotBlank(CString(raw), d, w, x);
    }
  }

  lemma OneIsNumber()
    ensures RfcNumber("1") && IsWord("1")
  {
    assert IsInteger("1") && IsFraction("") && IsExponent("");
    assert "1" == "1" + "" + "";
    assert IsMagnitude("1");
    assert "1"[0] != '-';
  }

  lemma EmptyNameText() returns (d: Doc)
    ensures IsRfcTextOf("{\"\":1}", d, "", "")
  {
    var f := Field("", [], "", "", NumberDoc("1"), "");
    d := ObjectDoc([f], false, "");
    OneIsNumber();
    hide RfcNumber;
    assert [f][1..] == [];
    assert Closing(false, "", "}") == "}";
    assert FieldText(f) == "\"\":1";
    assert Text(d) == "{" + "\"\":1" + "}";
    assert "{\"\":1}" == "" + Text(d) + "";
    assert LexicalFields([]) && StrictFields([]);
    assert Lexical(f.doc) && Strict(f.doc);
    assert LexicalFields([f]) && StrictFields([f]);
  }

  lemma EmptyNameFails(read: Reader)
    ensures ParseObject("\"\":1}", SeekKey, "", map[], 5, read) == Err(InvalidKey, 4)
  {
    var t := "\"\":1}";
    assert t[1..][0] == '"' && t[1..][1..] == ":1}";
    assert ParseString(t[1..], "", 4) == Ok("", ":1}");
  }

  /** `{"":1}` is a text of the standard, and is rejected at the quote that closes the empty name. */
  lemma EmptyNameIsRejected(read: Reader)
    ensures Parse("{\"\":1}", read) == Failed(InvalidKey, 2) && IsRfcText("{\"\":1}")
  {
    hide ParseObject, IsRfcTextOf;
    var d := EmptyNameText();
    var s := "{\"\":1}";
    EmptyNameFails(read);
    WholeCString(s);
    assert s[1..] == "\"\":1}";
  }

  /** `true` is a text of the standard, and is rejected at its first character. */
  lemma ScalarIsRejected(read: Reader)
    ensures Parse("true", read) == Failed(InvalidChar, 0) && IsRfcText("true")
  {
    hide ParseObject, ParseArray;
    WholeCString("true");
    assert "" + Text(BoolDoc(true)) + "" == "true";
    assert IsRfcTextOf("true", BoolDoc(true), "", "");
  }
}
