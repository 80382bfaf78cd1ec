/** What a double is worth, which notation its digits are printed in, and a text worked out in full. */
module NumberLaws {
  import opened Powers
  import opened DiyFp
  import opened DigitGeneration
  import opened Grisu
  import opened NumberText
  import opened TextLength

  // ----- The value of a double -----

  /**
   * The bits as binary64 has them: 52 bits of fraction, 11 of exponent, bias 1023. The
   * magnitude is 1.fraction * 2^(exponent - 1023), or 0.fraction * 2^-1022 for exponent 0.
   */
  lemma DoubleIs(bits: u64)
    requires bits / 0x10_0000_0000_0000 % 2048 != 2047
    ensures var fraction, exponent := bits % 0x10_0000_0000_0000, bits / 0x10_0000_0000_0000 % 2048;
      ValueOf(BuildFp(bits)) == if exponent == 0 then fraction as real * Scale(2, -1074)
                                else (0x10_0000_0000_0000 + fraction) as real * Scale(2, exponent - 1075)
    ensures IsSpecial(bits) <==> bits / 0x10_0000_0000_0000 % 2048 == 2047
    ensures Negative(bits) <==> bits >= 0x8000_0000_0000_0000
  {
    hide Scale;
  }

  // ----- The notation -----

  /**
   * An exponent is written exactly if more than seven zeros would be needed in front of
   * the point, or if the last digit is the seventh behind the point or further and the
   * first one is not within three places of 1.
   */
  lemma ExponentIsWritten(ds: string, k: int)
    requires ds != "" && AllDigits(ds) && Abs(k + |ds| - 1) < 1000
    ensures 'e' in Layout(ds, k) <==> k > 7 || (k <= -7 && (k + |ds| >= 5 || k + |ds| <= -3))
  {
    LayoutCases(ds, k);
    hide Layout, Zeros, ExponentDigits;
  }

  /** One number in each notation. */
  lemma Notations()
    ensures Layout("12", 2) == "1200" && Layout("12", -1) == "1.2" && Layout("12", -4) == "0.0012"
    ensures Layout("12", 8) == "1.2e+9" && Layout("1", -7) == "1e-7" && Layout("12", -130) == "1.2e-129"
  {
    WholeNotations();
    LayoutCases("12", 8);
    LayoutCases("1", -7);
    LayoutCases("12", -130);
    Exponents();
    hide Layout, Scientific;
  }

  lemma WholeNotations()
    ensures Layout("12", 2) == "1200" && Layout("12", -1) == "1.2" && Layout("12", -4) == "0.0012"
  {
    LayoutCases("12", 2);
    LayoutCases("12", -1);
    LayoutCases("12", -4);
    assert Zeros(2) == "00";
    hide Layout, Scientific;
  }

  lemma Exponents()
    ensures Scientific(9) == "e+9" && Scientific(-7) == "e-7" && Scientific(-129) == "e-129"
  {
    assert DigitChar(1) == '1' && DigitChar(2) == '2' && DigitChar(7) == '7' && DigitChar(9) == '9';
  }

  // ----- One text in full -----

  /** The double nearest to 0.1 + 0.2, which is not the one nearest to 0.3. */
  const SUM_BITS: u64 := 0x3FD3333333333334

  const SUM: Fp := Fp(5404319552844596, -54)

  lemma SumParts()
    ensures BuildFp(SUM_BITS) == SUM && !IsZero(SUM_BITS) && !IsSpecial(SUM_BITS) && Sign(SUM_BITS) == ""
  {
  }

  lemma SumScales()
    ensures Scale(2, -54) == 1.0 / 18014398509481984.0 && Scale(2, -55) == 1.0 / 36028797018963968.0
    ensures Scale(10, -16) == 1.0 / 10000000000000000.0 && Scale(10, -17) == 1.0 / 100000000000000000.0
  {
    TwoPowers();
    PowAdd(2, 53, 1);
    PowAdd(2, 54, 1);
    TensArePowers(2);
    TensArePowers(3);
  }

  /** In units of 10^-17. */
  lemma SumMidpoints()
    ensures 30000000000000001.6 < LowerMidpoint(SUM) * 100000000000000000.0 < 30000000000000001.7
    ensures 30000000000000007.2 < UpperMidpoint(SUM) * 100000000000000000.0 < 30000000000000007.3
    ensures 30000000000000004.44 < ValueOf(SUM) * 100000000000000000.0 < 30000000000000004.45
    ensures LowerEdge(SUM) == LowerMidpoint(SUM) && 0.0 < Margin(SUM) * 100000000000000000.0 < 0.03
  {
    SumScales();
    hide Scale;
  }

  /** x, in units of 10^-17, lies between the midpoints. */
  predicate NearSum(x: real) { 30000000000000001.6 < x * 100000000000000000.0 < 30000000000000007.3 }

  lemma NoSuchTen(v: nat, k: int, x: real)
    requires k >= -16 && x == v as real * Scale(10, k)
    ensures !NearSum(x)
  {
    hide Scale, Pow, NearSum;
    var p := Pow10(k + 16);
    SumScales();
    ScaleAdd(10, k + 16, -16);
    TenScale(k + 16);
    RealTimes(v, p);
    Thirds(v as real, p as real, Scale(10, -16), Scale(10, k));
    TenthsApart(v * p, x);
  }

  lemma TenScale(n: nat)
    ensures Scale(10, n) == Pow10(n) as real
  {
  }

  lemma Thirds(v: real, p: real, s: real, t: real)
    requires t == p * s
    ensures v * t == (v * p) * s
  {
  }

  lemma TenthsApart(n: nat, x: real)
    requires x == n as real * (1.0 / 10000000000000000.0)
    ensures !NearSum(x)
  {
    assert x * 100000000000000000.0 == (10 * n) as real;
  }

  lemma TooFewTens(v: nat, k: int, x: real)
    requires k <= -18 && v < 100000000000000000 && x == v as real * Scale(10, k)
    ensures !NearSum(x)
  {
    SumScales();
    ScaleStep(10, -18);
    TenGrows(k, -18 - k);
    hide Scale;
    var a, b := Scale(10, k), Scale(10, -18);
    if v > 0 { TimesMonotone(a, b, v as real); }
    TimesMonotone(v as real, 100000000000000000.0, b);
  }

  lemma SumClosest(v: nat, x: real)
    requires x == v as real * (1.0 / 100000000000000000.0) && NearSum(x)
    requires NoneCloser(SUM, x, -17)
    ensures v == 30000000000000004
  {
    SumMidpoints();
    SumScales();
    var y := Multiple(30000000000000004, -17);
    hide Scale, LowerMidpoint, UpperMidpoint, ValueOf, LowerEdge, Margin;
    assert y * 100000000000000000.0 == 30000000000000004.0;
    assert x * 100000000000000000.0 == v as real;
    assert FitsInside(SUM, y);
    assert Gap(x, ValueOf(SUM)) <= Gap(y, ValueOf(SUM)) + Margin(SUM);
  }

  lemma SumDigits(ds: string, k: int)
    requires DigitsFor(ds, k, SUM)
    ensures k == -17 && Value(ds) == 30000000000000004
  {
    hide Scale, AllDigits, Value, LowerMidpoint, UpperMidpoint, ValueOf, LowerEdge, Margin, NoMultipleFits, NoneCloser, Pow;
    SumMidpoints();
    assert NearSum(Decimal(ds, k));
    hide NearSum;
    ValueBelow(ds);
    PowersOfTen();
    PowIncreases(10, |ds|, 17);
    if k >= -16 { NoSuchTen(Value(ds), k, Decimal(ds, k)); }
    if k <= -18 { TooFewTens(Value(ds), k, Decimal(ds, k)); }
    SumScales();
    Congruent(Value(ds) as real, Scale(10, k), 1.0 / 100000000000000000.0);
    SumClosest(Value(ds), Decimal(ds, k));
  }

  lemma {:induction false} SameDigits(a: string, b: string)
    requires AllDigits(a) && AllDigits(b) && |a| == |b| && Value(a) == Value(b)
    ensures a == b
  {
    if a != "" {
      var m := |a| - 1;
      LastDigit(Value(a[..m]), DigitOf(a[m]), Value(b[..m]), DigitOf(b[m]));
      SameDigits(a[..m], b[..m]);
      hide Value, AllDigits;
      assert a == a[..m] + [a[m]] && b == b[..m] + [b[m]];
    }
  }

  lemma LastDigit(p: nat, c: nat, q: nat, d: nat)
    requires 10 * p + c == 10 * q + d && c < 10 && d < 10
    ensures p == q && c == d
  {
  }

  /** The text of 0.1 + 0.2 in full. */
  lemma SumText(text: string)
    requires Printed(text, SUM_BITS)
    ensures text == "0.30000000000000004"
  {
    SumParts();
    hide BuildFp, IsZero, IsSpecial, Layout, Sign, Decimal, AllDigits, NoneCloser, NoMultipleFits, LowerMidpoint, UpperMidpoint;
    assert text[0..] == text;
    var ds, k :| DigitsFor(ds, k, SUM) && text == Layout(ds, k);
    hide DigitsFor;
    SumDigits(ds, k);
    SumString(ds, k);
  }

  lemma SumString(ds: string, k: int)
    requires DigitsFor(ds, k, SUM) && k == -17 && Value(ds) == 30000000000000004
    ensures Layout(ds, k) == "0.30000000000000004"
  {
    hide Decimal, AllDigits, NoneCloser, NoMultipleFits, LowerMidpoint, UpperMidpoint, Layout, Value, Pow;
    SumValue();
    ValueBelow(ds);
    PowersOfTen();
    if |ds| <= 16 { PowIncreases(10, |ds|, 16); }
    SameDigits(ds, "3" + Zeros(15) + "4");
    LayoutCases(ds, -17);
    assert Zeros(0) == "";
    assert Zeros(15) == "000000000000000";
  }

  lemma SumValue()
    ensures AllDigits("3" + Zeros(15) + "4") && Value("3" + Zeros(15) + "4") == 30000000000000004
  {
    assert Value("3") == 3;
    ZerosAreNothing(15);
    ValueJoin("3", Zeros(15));
    ValueAppend("3" + Zeros(15), '4');
    TensArePowers(4);
    hide Value, Zeros, Tens;
    assert "3" + Zeros(15) + "4" == "3" + Zeros(15) + ['4'];
  }
}
