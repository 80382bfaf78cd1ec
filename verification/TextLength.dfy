/** When the text of a number does not fit into the 24 characters declared for it. */
module TextLength {
  import opened Powers
  import opened DiyFp
  import opened DigitGeneration
  import opened Grisu
  import opened NumberText

  lemma LongestLayout(ds: string, k: int)
    requires 1 <= |ds| <= 17 && Abs(k + |ds| - 1) < 1000
    ensures |Layout(ds, k)| == 24 <==> |ds| == 17 && k == 7
  {
    LayoutCases(ds, k);
    hide Layout, Scientific, ExponentDigits, Zeros;
    ScientificLength(k + |ds| - 1);
  }

  lemma ScientificLength(e: int)
    requires Abs(e) < 1000
    ensures |Scientific(e)| <= 5
  {
    ExponentValue(Abs(e));
  }

  /** A negative number that is printed with 17 digits, the last of them worth 10^7. */
  ghost predicate IsLong(text: string, bits: u64) {
    && Negative(bits) && !IsZero(bits) && !IsSpecial(bits)
    && exists ds :: DigitsFor(ds, 7, BuildFp(bits)) && |ds| == 17 && text == "-" + Layout(ds, 7)
  }

  /** The numbers among which a text can be too long; a caller can compare both bounds beforehand. */
  ghost predicate InLongDecade(w: Fp) {
    LowerMidpoint(w) < 1000000000000000000000000.0 && UpperMidpoint(w) > 100000000000000000000000.0
  }

  lemma {:induction false} ValueBelow(ds: string)
    requires AllDigits(ds)
    ensures Value(ds) < Pow10(|ds|)
  {
    if ds != "" {
      ValueBelow(ds[..|ds| - 1]);
      assert Pow10(|ds|) == 10 * Pow10(|ds| - 1);
    }
  }

  lemma PowersOfTen()
    ensures Pow10(16) == 10000000000000000 && Pow10(17) == 100000000000000000
  {
    TensArePowers(2);
    TensArePowers(3);
  }

  lemma LongIsInDecade(ds: string, w: Fp)
    requires DigitsFor(ds, 7, w) && |ds| == 17
    ensures InLongDecade(w)
  {
    hide Scale, Value, AllDigits, Pow, LowerMidpoint, UpperMidpoint, NoMultipleFits, NoneCloser;
    ValueAtLeast(ds);
    ValueBelow(ds);
    PowersOfTen();
    SmallScales();
    TimesMonotone(10000000000000000.0, Value(ds) as real, 10000000.0);
    TimesMonotone(Value(ds) as real, 100000000000000000.0, 10000000.0);
    Congruent(Value(ds) as real, Scale(10, 7), 10000000.0);
  }

  lemma BodyLength(body: string, bits: u64)
    requires ShownAs(body, bits)
    ensures |body| <= 24
    ensures IsZero(bits) || IsSpecial(bits) ==> |body| <= 3
    ensures !IsZero(bits) && !IsSpecial(bits) ==>
      (|body| == 24 <==> exists ds :: DigitsFor(ds, 7, BuildFp(bits)) && |ds| == 17 && body == Layout(ds, 7))
  {
    hide Layout, Decimal, AllDigits, LowerMidpoint, UpperMidpoint, BuildFp, NoMultipleFits, NoneCloser;
    if !IsZero(bits) && !IsSpecial(bits) {
      var ds, k :| DigitsFor(ds, k, BuildFp(bits)) && body == Layout(ds, k);
      LayoutLength(ds, k);
      LongestLayout(ds, k);
      forall es | DigitsFor(es, 7, BuildFp(bits)) && |es| == 17 && body == Layout(es, 7) ensures |body| == 24 {
        LongestLayout(es, 7);
      }
    }
  }

  /**
   * The text of a call exceeds the declared `char[24]` exactly if it is that of a
   * negative number with 17 digits and exponent 7; so it fits for every number that is
   * not negative, and for every one outside of 10^23 to 10^24.
   */
  lemma TooLongForDeclaration(text: string, bits: u64)
    requires Printed(text, bits)
    ensures |text| > 24 <==> IsLong(text, bits)
    ensures |text| > 24 ==>
      |text| == 25 && Negative(bits) && !IsZero(bits) && !IsSpecial(bits) && InLongDecade(BuildFp(bits))
  {
    hide Layout, DigitsFor, BuildFp, InLongDecade, Negative, IsZero, IsSpecial;
    var body := text[|Sign(bits)|..];
    BodyLength(body, bits);
    assert text == Sign(bits) + body;
    forall ds | DigitsFor(ds, 7, BuildFp(bits)) && |ds| == 17 ensures InLongDecade(BuildFp(bits)) {
      LongIsInDecade(ds, BuildFp(bits));
    }
  }

  /** It is not if a multiple of 10^8 lies between the midpoints and not within 2^-60 of the number from one of them. */
  lemma NotTooLong(text: string, bits: u64, m: nat)
    requires Printed(text, bits) && FitsInside(BuildFp(bits), Multiple(m, 8))
    ensures |text| <= 24
  {
    hide FitsInside, Multiple, BuildFp, IsZero, IsSpecial, InLongDecade, IsLong;
    TooLongForDeclaration(text, bits);
    if IsLong(text, bits) { LongHasNone(text, bits); }
  }

  lemma LongHasNone(text: string, bits: u64)
    requires IsLong(text, bits)
    ensures NoMultipleFits(BuildFp(bits), 8)
  {
    hide Layout, BuildFp, NoMultipleFits, NoneCloser, Decimal, LowerMidpoint, UpperMidpoint;
  }

  ghost function HundredMillions(m: int): real { m as real * 100000000.0 }

  /** No multiple of 10^8 lies between the midpoints, so fewer than 17 digits do not do. */
  ghost predicate NeedsSeventeen(w: Fp) {
    && LowerMidpoint(w) >= 100000000000000000000000.0
    && forall m: int :: !(LowerMidpoint(w) < HundredMillions(m) < UpperMidpoint(w))
  }

  /** Conversely, the text is too long for every negative number from 10^23 on between whose midpoints no multiple of 10^8 lies. */
  lemma AlwaysTooLong(text: string, bits: u64)
    requires Printed(text, bits) && Negative(bits) && !IsZero(bits) && !IsSpecial(bits) && NeedsSeventeen(BuildFp(bits))
    ensures |text| == 25
  {
    hide Layout, BuildFp, NeedsSeventeen, IsZero, IsSpecial, AllDigits, LowerMidpoint, UpperMidpoint, Decimal, NoMultipleFits, NoneCloser;
    var body := text[1..];
    var ds, k :| DigitsFor(ds, k, BuildFp(bits)) && body == Layout(ds, k);
    LongDigits(ds, k, BuildFp(bits));
    LongestLayout(ds, k);
  }

  lemma LongDigits(ds: string, k: int, w: Fp)
    requires DigitsFor(ds, k, w) && NeedsSeventeen(w)
    ensures |ds| == 17 && k == 7
  {
    hide Scale, Value, AllDigits, Pow, Tens, LowerMidpoint, UpperMidpoint, NoMultipleFits, NoneCloser;
    ValueBelow(ds);
    PowIncreases(10, |ds|, 17);
    if |ds| < 17 { PowIncreases(10, |ds|, 16); }
    PowersOfTen();
    LargeExponent(Value(ds), k, Decimal(ds, k));
    SmallExponent(Value(ds), k, Decimal(ds, k));
  }

  lemma LargeExponent(v: nat, k: int, d: real)
    requires d == v as real * Scale(10, k)
    ensures k >= 8 ==> exists m: int :: d == HundredMillions(m)
  {
    hide Scale, Pow10;
    if k >= 8 {
      InHundredMillions(v, k);
      assert d == HundredMillions(v * Pow10(k - 8));
    }
  }

  lemma UpTo(v: nat, most: real, k: int, j: int, p: real)
    requires v as real <= most && k <= j && Scale(10, j) == p
    ensures v as real * Scale(10, k) <= most * p
  {
    hide Scale;
    TenGrows(k, j - k);
    Larger(most, v as real, p, Scale(10, k));
  }

  lemma SmallExponent(v: nat, k: int, d: real)
    requires v < 100000000000000000 && d == v as real * Scale(10, k)
    ensures k < 7 || (k == 7 && v < 10000000000000000) ==> d < 100000000000000000000000.0
  {
    hide Scale;
    SmallScales();
    if k < 7 {
      UpTo(v, 99999999999999999.0, k, 6, 1000000.0);
    } else if k == 7 && v < 10000000000000000 {
      UpTo(v, 9999999999999999.0, k, 7, 10000000.0);
    }
  }

  lemma InHundredMillions(v: nat, k: int)
    requires k >= 8
    ensures v as real * Scale(10, k) == (v * Pow10(k - 8)) as real * 100000000.0
  {
    hide Scale;
    SmallScales();
    ScaleAdd(10, 8, k - 8);
    WholeTen(k - 8);
    RealTimes(v, Pow10(k - 8));
    Regrouped(v as real, 100000000.0, Scale(10, k - 8));
    Congruent(v as real, Scale(10, k), 100000000.0 * Scale(10, k - 8));
  }

  lemma SmallScales()
    ensures Scale(10, 6) == 1000000.0 && Scale(10, 7) == 10000000.0 && Scale(10, 8) == 100000000.0
  {
    TensArePowers(11);
    TensArePowers(12);
    TensArePowers(13);
  }

  lemma {:induction false} TenGrows(e: int, n: nat)
    ensures Scale(10, e) <= Scale(10, e + n)
  {
    hide Scale;
    if n > 0 {
      TenGrows(e, n - 1);
      ScaleStep(10, e + n - 1);
    }
  }

  // ----- One such number -----

  /** The bits of -123456789012345669025792. */
  const LONG_BITS: u64 := 14175683025761771628

  lemma LongFp()
    ensures BuildFp(LONG_BITS) == Fp(7358598054191212, 24) && Negative(LONG_BITS)
    ensures !IsZero(LONG_BITS) && !IsSpecial(LONG_BITS)
  {
  }

  lemma LongMidpoints()
    ensures LowerMidpoint(Fp(7358598054191212, 24)) == 123456789012345660637184.0
    ensures UpperMidpoint(Fp(7358598054191212, 24)) == 123456789012345677414400.0
  {
    assert Pow(2, 23) == 8388608 by { PowAdd(2, 10, 13); PowAdd(2, 10, 3); TwoPowers(); assert Pow(2, 3) == 8; }
    assert Scale(2, 23) == 8388608.0;
    hide Scale, Pow;
  }

  lemma NoMultiple(m: int)
    ensures !(123456789012345660637184.0 < m as real * 100000000.0 < 123456789012345677414400.0)
  {
    if m <= 1234567890123456 {
      assert m as real <= 1234567890123456.0;
    } else {
      assert m as real >= 1234567890123457.0;
    }
  }

  lemma LongText(text: string)
    requires Printed(text, LONG_BITS)
    ensures |text| == 25
  {
    LongFp();
    LongMidpoints();
    hide BuildFp, Printed, LowerMidpoint, UpperMidpoint, Negative, IsZero, IsSpecial;
    forall m: int ensures !(LowerMidpoint(BuildFp(LONG_BITS)) < HundredMillions(m) < UpperMidpoint(BuildFp(LONG_BITS))) {
      NoMultiple(m);
    }
    AlwaysTooLong(text, LONG_BITS);
  }
}
