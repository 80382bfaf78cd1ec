/** Exactly which printed values are read back unchanged. */
module JsonLosses {
  import opened DiyFp
  import opened Keys
  import opened NumberText
  import opened JsonParser
  import opened JsonGrammar
  import opened JsonLanguage
  import opened JsonStandard
  import opened JsonPrinter
  import opened JsonRoundTrip

  lemma PrintedIsWord(text: string, bits: u64)
    requires Printed(text, bits) && !IsSpecial(bits)
    ensures IsWord(text) && StartsNumeral(text[0])
  {
    PrintedStarts(text, bits);
    PrintedChars(text, bits);
    hide Printed, IsSpecial;
    forall i | 0 <= i < |text| ensures IsWordChar(text[i]) {
      NumberCharIsWordChar(text[i]);
    }
  }

  lemma NumberCharIsWordChar(c: char)
    requires IsNumberChar(c)
    ensures IsWordChar(c)
  {
  }

  lemma NoKey(k: string)
    ensures RawKey(k) == [] <==> k == ""
  {
  }

  /** The document of a value names what the value names. */
  lemma {:induction false} ShownIsNamed(v: Value, d: Doc)
    requires Shows(v, d) && Spaced(d) && Printable(v)
    ensures Lexical(d) && (Named(d) <==> Nameable(v))
    decreases v, 1
  {
    hide Printed, IsSpecial, Sorted, Keeps, LexicalItems, LexicalFields, NamedItems, NamedFields;
    match v
    case Number(bits) => PrintedIsWord(d.text, bits);
    case String(s) => EscapedIsToken(s);
    case Array(items) =>
      ItemsAreNamed(v, d, 0);
      assert d.items[0..] == d.items;
    case Object(m) =>
      FieldsAreNamed(v, d, 0);
      assert d.fields[0..] == d.fields;
      assert forall k :: k in m <==> k in Sorted(m.Keys);
    case _ =>
  }

  lemma {:induction false} ItemsAreNamed(v: Value, d: Doc, i: nat)
    requires v.Array? && Shows(v, d) && Spaced(d) && Printable(v) && i <= |v.items|
    ensures LexicalItems(d.items[i..])
    ensures NamedItems(d.items[i..]) <==> forall j :: i <= j < |v.items| ==> Nameable(v.items[j])
    decreases v, 0, |v.items| - i
  {
    hide Shows, Spaced, Printable, Nameable, Lexical, Named, ItemShape;
    ShownItem(v, d, i);
    if i < |v.items| {
      var rest := d.items[i..];
      assert rest[0] == d.items[i] && rest[1..] == d.items[i + 1..];
      ShownIsNamed(v.items[i], d.items[i].doc);
      ItemsAreNamed(v, d, i + 1);
    }
  }

  lemma {:induction false} FieldsAreNamed(v: Value, d: Doc, i: nat)
    requires v.Object? && Shows(v, d) && Spaced(d) && Printable(v) && i <= |Sorted(v.members.Keys)|
    ensures var ks := Sorted(v.members.Keys);
      && LexicalFields(d.fields[i..])
      && (NamedFields(d.fields[i..]) <==> forall j :: i <= j < |ks| ==> ks[j] != "" && Nameable(v.members[ks[j]]))
    decreases v, 0, |Sorted(v.members.Keys)| - i
  {
    hide Shows, Spaced, Printable, Nameable, Lexical, Named, Sorted, RawKey, KeyOk;
    ShownField(v, d, i);
    var ks := Sorted(v.members.Keys);
    if i < |ks| {
      var rest, k := d.fields[i..], ks[i];
      assert rest[0] == d.fields[i] && rest[1..] == d.fields[i + 1..];
      RawKeyText(k);
      NoKey(k);
      ShownIsNamed(v.members[k], d.fields[i].doc);
      FieldsAreNamed(v, d, i + 1);
    }
  }

  lemma RejectedNames(v: Value, d: Doc, w: string, x: string, read: Reader)
    requires (v.Object? || v.Array?) && Printable(v) && Local(read) && ReadsWords(read)
    requires Shows(v, d) && Spaced(d) && AllWs(w) && AllWs(x) && Parse(w + Text(d) + x, read).Parsed?
    ensures Nameable(v)
  {
    ShownIsNamed(v, d);
    hide Shows, Spaced, Printable, Nameable, Local, ReadsWords, Text, Lexical, Named, Accepts, ParseRoot;
    var s := w + Text(d) + x;
    var u := Parse(s, read).value;
    SpacedIsClean(s, d, w, x);
    WholeCString(s);
    ParsesExactly(s, u, read);
    NotBlank(s, d, w, x);
    NamesAreSeen(s, d, w, x, u, read);
  }

  /**
   * A value with finite numbers and plain keys is read back unchanged exactly if its
   * strings hold nothing that the printer drops and none of its keys is empty; the text
   * of a value with an empty key is not read at all.
   */
  lemma RoundTripExactly(v: Value, d: Doc, w: string, x: string, read: Reader)
    requires (v.Object? || v.Array?) && Printable(v)
    requires RoundsToNearest(read) && Local(read) && ReadsWords(read)
    requires Shows(v, d) && Spaced(d) && AllWs(w) && AllWs(x)
    ensures Parse(w + Text(d) + x, read).Parsed? <==> Nameable(v)
    ensures Parse(w + Text(d) + x, read) == Parsed(v) <==> Storable(v)
  {
    hide Shows, Spaced, Printable, Nameable, Storable, KeptValue, RoundsToNearest, Local, ReadsWords, Text, Parse;
    StorableIs(v);
    if Nameable(v) {
      KeptIsRead(v, d, w, x, read);
    }
    if Parse(w + Text(d) + x, read).Parsed? {
      RejectedNames(v, d, w, x, read);
    }
  }
}
