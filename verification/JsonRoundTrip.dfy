/** Reading what was printed gives the value back, whatever whitespace was inserted in between. */
module JsonRoundTrip {
  import opened DiyFp
  import opened Keys
  import opened DigitGeneration
  import opened Grisu
  import opened NumberText
  import opened JsonParser
  import opened JsonGrammar
  import opened JsonPrinter

  // ----- Which values, and which reader of numbers -----

  /** A `strtod` that gives the double nearest to a decimal text, if one double is nearer than all others. */
  ghost predicate RoundsToNearest(read: Reader) {
    forall t: string, bits: u64 :: IsNumberText(t) && !IsSpecial(bits) && NearestTo(t, bits) ==>
      read(t) == (bits, ReadSigned(t).length)
  }

  /** The text starts with a decimal number, and what follows it cannot belong to a number. */
  predicate IsNumberText(t: string) { ReadSigned(t).length > 0 && Delimits(t[ReadSigned(t).length..]) }

  /** Finite numbers, strings of characters that are not dropped, and keys that need no escapes. */
  ghost predicate Storable(v: Value)
    decreases v
  {
    match v
    case Number(bits) => !IsSpecial(bits)
    case String(s) => forall i :: 0 <= i < |s| ==> Keeps(s[i])
    case Array(items) => forall i :: 0 <= i < |items| ==> Storable(items[i])
    case Object(m) => forall k :: k in m ==> k != "" && KeyOk(k) && Storable(m[k])
    case _ => true
  }

  /** Only whitespace between the tokens, and no comma that follows nothing. */
  ghost predicate Spaced(d: Doc)
    decreases d
  {
    match d
    case ArrayDoc(items, comma, gap) =>
      AllWs(gap) && (comma ==> items != []) && forall i :: 0 <= i < |items| ==> ItemShape(items[i]) && Spaced(items[i].doc)
    case ObjectDoc(fields, comma, gap) =>
      AllWs(gap) && (comma ==> fields != []) && forall i :: 0 <= i < |fields| ==> FieldSpaces(fields[i]) && Spaced(fields[i].doc)
    case _ => true
  }

  lemma {:induction false} CompactIsSpaced(d: Doc)
    requires Compact(d)
    ensures Spaced(d)
    decreases d
  {
    match d
    case ArrayDoc(items, _, _) =>
      forall i | 0 <= i < |items| ensures ItemShape(items[i]) && Spaced(items[i].doc) { CompactIsSpaced(items[i].doc); }
    case ObjectDoc(fields, _, _) =>
      forall i | 0 <= i < |fields| ensures FieldSpaces(fields[i]) && Spaced(fields[i].doc) { CompactIsSpaced(fields[i].doc); }
    case _ =>
  }

  // ----- Numbers -----

  /** The characters of a printed number. */
  predicate IsNumberChar(c: char) { IsDigit(c) || c == '.' || c == 'e' || c == '+' || c == '-' }

  predicate NumberChars(s: string) { forall i :: 0 <= i < |s| ==> IsNumberChar(s[i]) }

  lemma NumberJoin(a: string, b: string)
    requires NumberChars(a) && NumberChars(b)
    ensures NumberChars(a + b)
  {
  }

  lemma DigitsAreChars(ds: string)
    requires AllDigits(ds)
    ensures NumberChars(ds)
  {
  }

  lemma ScientificChars(e: int)
    requires Abs(e) < 1000
    ensures NumberChars(Scientific(e))
  {
    hide ExponentDigits;
    ExponentValue(Abs(e));
    DigitsAreChars(ExponentDigits(Abs(e)));
    NumberJoin("e" + (if e < 0 then "-" else "+"), ExponentDigits(Abs(e)));
  }

  lemma LayoutChars(ds: string, k: int)
    requires AllDigits(ds) && ds != "" && Abs(k + |ds| - 1) < 1000
    ensures NumberChars(Layout(ds, k)) && Layout(ds, k) != "" && IsDigit(Layout(ds, k)[0])
  {
    hide Layout, Scientific, NumberChars, AllDigits, Zeros;
    var n := |ds|;
    LayoutCases(ds, k);
    ScientificChars(k + n - 1);
    DigitsAreChars(ds);
    Marks();
    FirstDigit(ds);
    if IsPlain(n, k) {
      DigitsAreChars(Zeros(k));
      NumberJoin(ds, Zeros(k));
    } else if !IsDecimal(n, k) {
      SliceDigits(ds, 1);
      DigitsAreChars(ds[..1]);
      DigitsAreChars(ds[1..]);
      NumberJoin(".", ds[1..]);
      NumberJoin(ds[..1], if n > 1 then "." + ds[1..] else "");
      NumberJoin([ds[0]] + (if n > 1 then "." + ds[1..] else ""), Scientific(k + n - 1));
    } else if n + k <= 0 {
      DigitsAreChars(Zeros(-k - n));
      NumberJoin("0.", Zeros(-k - n));
      NumberJoin("0." + Zeros(-k - n), ds);
    } else {
      SliceDigits(ds, n + k);
      DigitsAreChars(ds[..n + k]);
      DigitsAreChars(ds[n + k..]);
      NumberJoin(ds[..n + k], ".");
      NumberJoin(ds[..n + k] + ".", ds[n + k..]);
    }
  }

  lemma Marks()
    ensures NumberChars("") && NumberChars(".") && NumberChars("0.")
  {
  }

  lemma FirstDigit(ds: string)
    requires AllDigits(ds) && ds != ""
    ensures IsDigit(ds[0]) && ds[..1] == [ds[0]]
  {
  }

  lemma PrintedChars(text: string, bits: u64)
    requires Printed(text, bits) && !IsSpecial(bits)
    ensures NumberChars(text)
  {
    hide Layout, BuildFp, Decimal, LowerMidpoint, UpperMidpoint, AllDigits;
    var body := text[|Sign(bits)|..];
    if !IsZero(bits) {
      var ds, k :| DigitsFor(ds, k, BuildFp(bits)) && body == Layout(ds, k);
      DigitsForParts(ds, k, BuildFp(bits));
      LayoutChars(ds, k);
    }
    assert text == Sign(bits) + body && NumberChars(body);
    NumberJoin(Sign(bits), body);
  }

  lemma PrintedStarts(text: string, bits: u64)
    requires Printed(text, bits) && !IsSpecial(bits)
    ensures text != "" && StartsNumeral(text[0]) && NUL !in text
  {
    hide Layout, BuildFp, Decimal, LowerMidpoint, UpperMidpoint, AllDigits;
    var body := text[|Sign(bits)|..];
    if IsZero(bits) {
      assert body == "0";
    } else {
      var ds, k :| DigitsFor(ds, k, BuildFp(bits)) && body == Layout(ds, k);
      DigitsForParts(ds, k, BuildFp(bits));
      LayoutChars(ds, k);
    }
    assert text == Sign(bits) + body && NumberChars(body) && IsDigit(body[0]);
    NumberJoin(Sign(bits), body);
    assert forall i :: 0 <= i < |text| ==> IsNumberChar(text[i]);
  }

  lemma DigitsForParts(ds: string, k: int, w: Fp)
    requires DigitsFor(ds, k, w)
    ensures AllDigits(ds) && 1 <= |ds| <= 17 && Abs(k + |ds| - 1) < 1000
  {
  }

  lemma DelimitersEndNumbers(rest: string)
    requires Delimits(rest)
    ensures Ends(rest)
  {
  }

  /** A printed number is read as the double it was printed for, wherever it stands. */
  lemma PrintedNumberIsRead(text: string, bits: u64, rest: string, read: Reader)
    requires RoundsToNearest(read) && Printed(text, bits) && !IsSpecial(bits) && Delimits(rest)
    ensures read(text + rest) == (bits, |text|)
  {
    hide Printed, NearestTo, ReadSigned, IsSpecial;
    DelimitersEndNumbers(rest);
    PrintedIsNearest(text, bits, rest);
    assert (text + rest)[|text|..] == rest;
    assert IsNumberText(text + rest);
  }

  lemma PrintedNumberOk(text: string, bits: u64, read: Reader)
    requires RoundsToNearest(read) && Printed(text, bits) && !IsSpecial(bits)
    ensures NumberOk(text, read) && read(text).0 == bits
  {
    hide RoundsToNearest, Printed, IsSpecial;
    PrintedStarts(text, bits);
    PrintedNumberIsRead(text, bits, "", read);
    assert text + "" == text;
    forall rest | Delimits(rest) ensures read(text + rest) == (read(text).0, |text|) {
      PrintedNumberIsRead(text, bits, rest, read);
    }
  }

  // ----- Values -----

  /** Finite numbers, and keys that need no escapes. */
  ghost predicate Printable(v: Value)
    decreases v
  {
    match v
    case Number(bits) => !IsSpecial(bits)
    case Array(items) => forall i :: 0 <= i < |items| ==> Printable(items[i])
    case Object(m) => forall k :: k in m ==> KeyOk(k) && Printable(m[k])
    case _ => true
  }

  /** No key is empty. */
  ghost predicate Nameable(v: Value)
    decreases v
  {
    match v
    case Array(items) => forall i :: 0 <= i < |items| ==> Nameable(items[i])
    case Object(m) => forall k :: k in m ==> k != "" && Nameable(m[k])
    case _ => true
  }

  /** The value without the characters that the printer drops. */
  ghost function KeptValue(v: Value): Value
    decreases v
  {
    match v
    case String(s) => String(Kept(s))
    case Array(items) => Array(seq(|items|, i requires 0 <= i < |items| => KeptValue(items[i])))
    case Object(m) => Object(map k | k in m :: KeptValue(m[k]))
    case _ => v
  }

  lemma {:induction false} StorableIs(v: Value)
    ensures Storable(v) <==> Printable(v) && Nameable(v) && KeptValue(v) == v
    decreases v
  {
    hide IsSpecial, Keeps, KeyOk, Kept;
    match v
    case String(s) => KeptLength(s);
    case Array(items) =>
      forall i | 0 <= i < |items| ensures Storable(items[i]) <==> Printable(items[i]) && Nameable(items[i]) && KeptValue(items[i]) == items[i] {
        StorableIs(items[i]);
      }
      var kept := seq(|items|, i requires 0 <= i < |items| => KeptValue(items[i]));
      assert kept == items <==> forall i :: 0 <= i < |items| ==> KeptValue(items[i]) == items[i];
    case Object(m) =>
      forall k | k in m ensures Storable(m[k]) <==> Printable(m[k]) && Nameable(m[k]) && KeptValue(m[k]) == m[k] {
        StorableIs(m[k]);
      }
      var kept := map k | k in m :: KeptValue(m[k]);
      assert kept == m <==> forall k :: k in m ==> KeptValue(m[k]) == m[k];
    case _ =>
  }

  /** A text with the tokens of a value has what the printer kept of it for its value. */
  lemma {:induction false} ShownIsRead(v: Value, d: Doc, read: Reader)
    requires Shows(v, d) && Spaced(d) && Printable(v) && Nameable(v) && RoundsToNearest(read)
    ensures DocOk(d, read) && Erase(d, read) == KeptValue(v)
    decreases v, 1
  {
    hide RoundsToNearest, Printed, IsSpecial, NumberOk, ItemsOk, FieldsOk, Sorted, Keeps;
    match v
    case Number(bits) => PrintedNumberOk(d.text, bits, read);
    case String(s) => EscapedIsToken(s);
    case Array(items) =>
      ItemsAreRead(v, d, 0, read);
      assert d.items[0..] == d.items && KeptValue(v).items[0..] == KeptValue(v).items;
    case Object(m) =>
      FieldsAreRead(v, d, 0, map[], read);
      assert d.fields[0..] == d.fields;
      assert KeptValue(v).members.Keys == m.Keys;
      AllMembers(KeptValue(v).members);
    case _ =>
  }

  lemma ShownItem(v: Value, d: Doc, i: nat)
    requires v.Array? && Shows(v, d) && Spaced(d) && Printable(v)
    ensures d.ArrayDoc? && KeptValue(v).Array? && |d.items| == |v.items| == |KeptValue(v).items|
    ensures i < |v.items| ==>
      && Shows(v.items[i], d.items[i].doc) && Spaced(d.items[i].doc) && ItemShape(d.items[i])
      && Printable(v.items[i]) && KeptValue(v).items[i] == KeptValue(v.items[i])
      && (Nameable(v) ==> Nameable(v.items[i]))
  {
    hide ItemShape;
  }

  lemma ShownField(v: Value, d: Doc, i: nat)
    requires v.Object? && Shows(v, d) && Spaced(d) && Printable(v)
    ensures var ks := Sorted(v.members.Keys);
      && d.ObjectDoc? && KeptValue(v).Object? && |d.fields| == |ks| && KeptValue(v).members.Keys == v.members.Keys
      && (i < |ks| ==> var f, k := d.fields[i], ks[i];
            && k in v.members && f.key == RawKey(k) && KeyOk(k) && FieldSpaces(f)
            && Shows(v.members[k], f.doc) && Spaced(f.doc) && Printable(v.members[k])
            && KeptValue(v).members[k] == KeptValue(v.members[k])
            && (Nameable(v) ==> k != "" && Nameable(v.members[k])))
  {
    hide Sorted, RawKey, KeyOk, FieldSpaces;
  }

  lemma {:induction false} ItemsAreRead(v: Value, d: Doc, i: nat, read: Reader)
    requires v.Array? && Shows(v, d) && Spaced(d) && Printable(v) && Nameable(v) && RoundsToNearest(read) && i <= |v.items|
    ensures ItemsOk(d.items[i..], read) && EraseItems(d.items[i..], read) == KeptValue(v).items[i..]
    decreases v, 0, |v.items| - i
  {
    hide RoundsToNearest, Erase, DocOk, Shows, Spaced, Printable, Nameable, KeptValue, ItemShape;
    ShownItem(v, d, i);
    if i < |v.items| {
      var rest := d.items[i..];
      assert rest[0] == d.items[i] && rest[1..] == d.items[i + 1..];
      ShownIsRead(v.items[i], d.items[i].doc, read);
      ItemsAreRead(v, d, i + 1, read);
      var kept := KeptValue(v).items;
      assert kept[i..] == [kept[i]] + kept[i + 1..];
    }
  }

  /** m and the members with the given keys. */
  function Gather(m: map<string, Value>, ks: seq<string>, members: map<string, Value>): map<string, Value>
    requires forall k :: k in ks ==> k in members
    decreases |ks|
  {
    if ks == [] then m else Gather(m[ks[0] := members[ks[0]]], ks[1..], members)
  }

  lemma {:induction false} GatherAdds(m: map<string, Value>, ks: seq<string>, members: map<string, Value>)
    requires forall k :: k in ks ==> k in members
    ensures forall k :: k in Gather(m, ks, members) <==> k in m || k in ks
    ensures forall k :: k in Gather(m, ks, members) ==>
      Gather(m, ks, members)[k] == if k in ks then members[k] else m[k]
    decreases |ks|
  {
    if ks != [] {
      GatherAdds(m[ks[0] := members[ks[0]]], ks[1..], members);
      assert ks == [ks[0]] + ks[1..];
    }
  }

  lemma AllMembers(m: map<string, Value>)
    ensures Gather(map[], Sorted(m.Keys)[0..], m) == m
  {
    hide Sorted;
    GatherAdds(map[], Sorted(m.Keys)[0..], m);
  }

  lemma {:induction false} FieldsAreRead(v: Value, d: Doc, i: nat, m: map<string, Value>, read: Reader)
    requires v.Object? && Shows(v, d) && Spaced(d) && Printable(v) && Nameable(v) && RoundsToNearest(read)
    requires i <= |Sorted(v.members.Keys)|
    ensures var ks := Sorted(v.members.Keys);
      && (forall k :: k in ks[i..] ==> k in KeptValue(v).members)
      && FieldsOk(d.fields[i..], read) && EraseFields(d.fields[i..], m, read) == Gather(m, ks[i..], KeptValue(v).members)
    decreases v, 0, |Sorted(v.members.Keys)| - i
  {
    hide RoundsToNearest, Erase, DocOk, Sorted, Shows, Spaced, Printable, Nameable, KeptValue, KeyOk, RawKey;
    ShownField(v, d, i);
    var ks := Sorted(v.members.Keys);
    if i < |ks| {
      var rest, k := d.fields[i..], ks[i];
      assert rest[0] == d.fields[i] && rest[1..] == d.fields[i + 1..];
      assert ks[i..][0] == k && ks[i..][1..] == ks[i + 1..];
      assert k in v.members;
      RawKeyText(k);
      ShownIsRead(v.members[k], d.fields[i].doc, read);
      FieldsAreRead(v, d, i + 1, m[k := KeptValue(v.members[k])], read);
    }
  }

  // ----- The round trip -----

  /** A text with the tokens of an object or array is read as what the printer kept of it. */
  lemma KeptIsRead(v: Value, d: Doc, w: string, x: string, read: Reader)
    requires (v.Object? || v.Array?) && Printable(v) && Nameable(v) && RoundsToNearest(read)
    requires Shows(v, d) && Spaced(d) && AllWs(w) && AllWs(x)
    ensures Parse(w + Text(d) + x, read) == Parsed(KeptValue(v))
  {
    ShownIsRead(v, d, read);
    TextIsRead(d, w, x, false, "", read);
    hide Text, Parse;
    assert w + Text(d) + x + "" == w + Text(d) + x;
  }

  /**
   * Every text with the tokens of a storable object or array is read as that value,
   * whatever whitespace stands between the tokens.
   */
  lemma RoundTrip(v: Value, d: Doc, w: string, x: string, read: Reader)
    requires (v.Object? || v.Array?) && Storable(v) && RoundsToNearest(read)
    requires Shows(v, d) && Spaced(d) && AllWs(w) && AllWs(x)
    ensures Parse(w + Text(d) + x, read) == Parsed(v)
  {
    StorableIs(v);
    hide Shows, Storable, Printable, Nameable, KeptValue, RoundsToNearest, Parse;
    KeptIsRead(v, d, w, x, read);
  }

  /** The whole text of a value; reading it gives the value back. */
  method ToString(v: Value) returns (text: string, ghost d: Doc)
    ensures text == Text(d) && Shows(v, d) && Compact(d)
    ensures forall read: Reader :: (v.Object? || v.Array?) && Storable(v) && RoundsToNearest(read) ==>
      Parse(text, read) == Parsed(v)
  {
    hide Text, Shows, Compact, Storable, RoundsToNearest, Parse;
    text, d := ToStringRecurse(v, "");
    assert "" + Text(d) == Text(d);
    forall read: Reader | (v.Object? || v.Array?) && Storable(v) && RoundsToNearest(read)
      ensures Parse(text, read) == Parsed(v)
    {
      CompactIsSpaced(d);
      RoundTrip(v, d, "", "", read);
      assert "" + Text(d) + "" == Text(d);
    }
  }
}
