/**
 * A `strtod` that every result about numbers may assume exists: it rounds to the
 * nearest double, looks no further than the end of the number, and takes every number
 * of RFC 8259 as a whole.
 */
module IdealReader {
  import opened DiyFp
  import opened NumberText
  import opened DecimalText
  import opened JsonParser
  import opened JsonGrammar
  import opened JsonLanguage
  import opened JsonRoundTrip
  import opened JsonStandard

  // ----- The reader -----

  ghost predicate Nearest(t: string, bits: u64) { !IsSpecial(bits) && NearestTo(t, bits) }

  /** The double nearest to the number a text starts with, or 0 if two are equally near. */
  ghost function Ideal(t: string): (r: (u64, nat))
    ensures r.1 <= |t|
  {
    if !IsNumberText(t) then (0, 0)
    else if exists bits :: Nearest(t, bits) then (
      var bits :| Nearest(t, bits);
      (bits, ReadSigned(t).length)
    ) else (0, ReadSigned(t).length)
  }

  lemma IdealIsNearest(t: string, bits: u64)
    requires IsNumberText(t) && Nearest(t, bits)
    ensures Ideal(t) == (bits, ReadSigned(t).length)
  {
    hide NearestTo, ReadSigned, IsSpecial;
    NearestIsUnique(t, bits, Ideal(t).0);
  }

  lemma SameReading(s: string, t: string)
    requires IsNumberText(s) && IsNumberText(t) && ReadSigned(s) == ReadSigned(t) && Minus(s) == Minus(t)
    ensures Ideal(s) == Ideal(t)
  {
    hide ReadSigned, IsSpecial, Minus, Negative;
    assert forall b: u64 :: Nearest(s, b) <==> Nearest(t, b);
    if b: u64 :| Nearest(s, b) {
      IdealIsNearest(s, b);
      IdealIsNearest(t, b);
    }
  }

  lemma IdealIsLocal(t: string, rest: string)
    requires Ideal(t).1 > 0 && Delimits(t[Ideal(t).1..]) && Delimits(rest)
    ensures Ideal(t[..Ideal(t).1] + rest) == Ideal(t)
  {
    hide ReadSigned, NearestTo, Minus, Ends;
    var n := Ideal(t).1;
    DelimitersEndNumbers(rest);
    DelimitersEndNumbers(t[n..]);
    SignedIsLocal(t, rest);
    assert (t[..n] + rest)[n..] == rest;
    SameReading(t[..n] + rest, t);
  }

  lemma IdealReadsStandard(text: string, rest: string)
    requires RfcNumber(text) && Delimits(rest)
    ensures Ideal(text + rest) == (Ideal(text).0, |text|)
  {
    hide ReadSigned, NearestTo, RfcNumber, Ends;
    DelimitersEndNumbers(rest);
    DelimitersEndNumbers("");
    StandardReads(text, rest);
    StandardReads(text, "");
    assert text + "" == text && text[..|text|] == text;
    assert (text + rest)[|text|..] == rest;
    IdealIsLocal(text, rest);
  }

  // ----- Leading whitespace -----

  /** How much whitespace a text starts with. */
  function Leading(t: string): (k: nat)
    ensures k <= |t| && AllWs(t[..k]) && (k < |t| ==> !IsSpace(t[k]))
  {
    if t == "" || !IsSpace(t[0]) then 0
    else (
      var k := 1 + Leading(t[1..]);
      assert t[..k] == [t[0]] + t[1..][..k - 1];
      k
    )
  }

  lemma WsPrefixIs(t: string, k: nat)
    requires k <= |t| && AllWs(t[..k])
    ensures forall i :: 0 <= i < k ==> IsSpace(t[i])
  {
    assert forall i :: 0 <= i < k ==> t[..k][i] == t[i];
  }

  lemma LeadingIs(t: string, k: nat)
    requires k <= |t| && AllWs(t[..k]) && (k < |t| ==> !IsSpace(t[k]))
    ensures Leading(t) == k
  {
    WsPrefixIs(t, k);
    WsPrefixIs(t, Leading(t));
  }

  /** The number behind the whitespace; the length counts the whitespace too. */
  ghost function Skipping(t: string): (r: (u64, nat))
    ensures r.1 <= |t|
  {
    var k := Leading(t);
    var r := Ideal(t[k..]);
    if r.1 == 0 then r else (r.0, k + r.1)
  }

  /** Whatever whitespace it stands behind, a number is the same number. */
  ghost predicate SkipsSpaces(read: Reader) {
    forall w: string, t: string :: AllWs(w) && read(t).1 > 0 ==> read(w + t) == (read(t).0, |w| + read(t).1)
  }

  lemma NumbersStart(t: string)
    requires Ideal(t).1 > 0 || (t != "" && StartsNumeral(t[0]))
    ensures t != "" && !IsSpace(t[0]) && Skipping(t) == Ideal(t)
  {
    hide Ideal, ReadSigned;
    IdealLength(t);
    if Ideal(t).1 > 0 {
      SignedChars(t, 0);
      DecimalIsWordChar(t[0]);
    }
    LeadingIs(t, 0);
    assert t[0..] == t;
  }

  lemma SkippingIs(w: string, t: string)
    requires AllWs(w) && Ideal(t).1 > 0
    ensures Skipping(w + t) == (Ideal(t).0, |w| + Ideal(t).1)
  {
    hide Ideal;
    NumbersStart(t);
    assert (w + t)[..|w|] == w && (w + t)[|w|..] == t;
    LeadingIs(w + t, |w|);
  }

  lemma SkippingIsLocal(t: string, rest: string)
    requires Skipping(t).1 > 0 && Delimits(t[Skipping(t).1..]) && Delimits(rest)
    ensures Skipping(t[..Skipping(t).1] + rest) == Skipping(t)
  {
    hide Ideal, Delimits;
    var k, n := Leading(t), Skipping(t).1;
    var u := t[k..];
    var m := Ideal(u).1;
    assert t[n..] == u[m..];
    IdealIsLocal(u, rest);
    assert t[..n] + rest == t[..k] + (u[..m] + rest);
    SkippingIs(t[..k], u[..m] + rest);
  }

  lemma SkippingSkips(w: string, t: string)
    requires AllWs(w) && Skipping(t).1 > 0
    ensures Skipping(w + t) == (Skipping(t).0, |w| + Skipping(t).1)
  {
    hide Ideal;
    var k := Leading(t);
    assert w + t == (w + t[..k]) + t[k..];
    SkippingIs(w + t[..k], t[k..]);
  }

  lemma RoundsAndSkips(t: string, bits: u64)
    requires IsNumberText(t) && Nearest(t, bits)
    ensures Skipping(t) == (bits, ReadSigned(t).length)
  {
    hide ReadSigned, Nearest, IsNumberText, Ideal, Skipping;
    IdealIsNearest(t, bits);
    NumberTextLength(t);
    NumbersStart(t);
  }

  lemma SkippingIsWord(t: string, i: nat)
    requires t != "" && StartsNumeral(t[0]) && i < Skipping(t).1
    ensures IsWordChar(t[i])
  {
    hide ReadSigned, Ideal, Skipping, IsWordChar;
    NumbersStart(t);
    IdealLength(t);
    SignedChars(t, i);
    DecimalIsWordChar(t[i]);
  }

  ghost predicate IsSkipping(read: Reader) { forall t: string :: read(t) == Skipping(t) }

  lemma SkippingRounds(read: Reader)
    requires IsSkipping(read)
    ensures RoundsToNearest(read)
  {
    hide ReadSigned, NearestTo, IsSpecial, IsNumberText, Ideal, Skipping;
    forall t: string, bits: u64 | IsNumberText(t) && !IsSpecial(bits) && NearestTo(t, bits)
      ensures read(t) == (bits, ReadSigned(t).length)
    {
      RoundsAndSkips(t, bits);
    }
  }

  lemma SkippingLocal(read: Reader)
    requires IsSkipping(read)
    ensures Local(read)
  {
    hide Delimits, Ideal, Skipping;
    forall t: string, rest: string | read(t).1 > 0 && Delimits(t[read(t).1..]) && Delimits(rest)
      ensures read(t[..read(t).1] + rest) == read(t)
    {
      SkippingIsLocal(t, rest);
    }
  }

  lemma SkippingWords(read: Reader)
    requires IsSkipping(read)
    ensures ReadsWords(read)
  {
    hide IsWordChar, Ideal, Skipping;
    forall t: string, i: nat | t != "" && StartsNumeral(t[0]) && i < read(t).1 ensures IsWordChar(t[i]) {
      SkippingIsWord(t, i);
    }
  }

  lemma SkippingStandard(read: Reader)
    requires IsSkipping(read)
    ensures ReadsStandard(read)
  {
    hide RfcNumber, NumberOk, Skipping;
    forall text: string | RfcNumber(text) ensures NumberOk(text, read) { StandardIsOk(text, read); }
  }

  lemma SkippingSpaces(read: Reader)
    requires IsSkipping(read)
    ensures SkipsSpaces(read)
  {
    hide Skipping;
    forall w: string, t: string | AllWs(w) && read(t).1 > 0 ensures read(w + t) == (read(t).0, |w| + read(t).1) {
      SkippingSkips(w, t);
    }
  }

  /**
   * There is a reader with every property that the results about texts ask of one, and
   * it skips leading whitespace as `strtod` does.
   */
  lemma ReaderExists()
    ensures exists read: Reader ::
      RoundsToNearest(read) && Local(read) && ReadsWords(read) && ReadsStandard(read) && SkipsSpaces(read)
  {
    hide RoundsToNearest, Local, ReadsWords, ReadsStandard, SkipsSpaces, Skipping;
    var read: Reader := t => Skipping(t);
    SkippingRounds(read);
    SkippingLocal(read);
    SkippingWords(read);
    SkippingStandard(read);
    SkippingSpaces(read);
  }

  lemma NumberTextLength(t: string)
    requires IsNumberText(t)
    ensures ReadSigned(t).length > 0
  {
  }

  lemma DecimalIsWordChar(c: char)
    requires IsDecimalChar(c)
    ensures IsWordChar(c) && c != NUL
  {
  }

  lemma IdealLength(t: string)
    ensures Ideal(t).1 == if IsNumberText(t) then ReadSigned(t).length else 0
  {
  }

  lemma StandardIsOk(text: string, read: Reader)
    requires RfcNumber(text) && IsSkipping(read)
    ensures NumberOk(text, read)
  {
    hide RfcNumber, Ideal, Skipping;
    StandardReads(text, "");
    assert text + "" == text;
    forall i: nat | i < |text| ensures text[i] != NUL { SignedChars(text, i); DecimalIsWordChar(text[i]); }
    assert Delimits("");
    IdealReadsStandard(text, "");
    NumbersStart(text);
    forall rest | Delimits(rest) ensures read(text + rest) == (read(text).0, |text|) {
      IdealReadsStandard(text, rest);
      NumbersStart(text + rest);
    }
  }
}
