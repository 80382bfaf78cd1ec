/** Decimal numbers inside a longer text: what they are made of, and that reading them does not depend on what follows. */
module DecimalText {
  import opened DigitGeneration
  import opened Powers
  import opened NumberText

  // ----- Numbers of RFC 8259, section 6 -----

  predicate IsInteger(a: string) { AllDigits(a) && a != "" && (a[0] == '0' ==> |a| == 1) }

  predicate IsFraction(f: string) { f == "" || (f[0] == '.' && |f| > 1 && AllDigits(f[1..])) }

  predicate IsExponent(e: string) {
    || e == ""
    || ((e[0] == 'e' || e[0] == 'E') && |e| > 1 &&
        var ds := if e[1] == '+' || e[1] == '-' then e[2..] else e[1..]; ds != "" && AllDigits(ds))
  }

  ghost predicate IsMagnitude(t: string) {
    exists a, f, e :: t == a + f + e && IsInteger(a) && IsFraction(f) && IsExponent(e)
  }

  ghost predicate RfcNumber(t: string) {
    IsMagnitude(if t != "" && t[0] == '-' then t[1..] else t)
  }

  // ----- Reading decimal text does not depend on what follows it -----

  predicate IsPointPart(p: string) { p == "" || (p[0] == '.' && AllDigits(p[1..])) }

  /** An integer part, a point with digits behind it and an exponent, each of which may be missing. */
  predicate IsDecimalText(a: string, p: string, e: string) {
    AllDigits(a) && IsPointPart(p) && IsExponent(e) && (a != "" || |p| > 1)
  }

  lemma SignedRun(ds: string, rest: string)
    requires AllDigits(ds) && Ends(rest)
    ensures DigitRun(ds + rest) == |ds| == DigitRun(ds) && (ds + rest)[..|ds|] == ds[..|ds|] == ds
  {
    RunOf(ds, rest);
    RunOf(ds, "");
    assert ds + "" == ds;
  }

  lemma ExponentReads(e: string, rest: string)
    requires IsExponent(e) && Ends(rest)
    ensures ReadExponent(e + rest) == ReadExponent(e) && ReadExponent(e).length == |e|
  {
    if e == "" {
      NoExponent(rest);
      NoExponent("");
    } else {
      hide Value, DigitRun, AllDigits;
      var at := if e[1] == '+' || e[1] == '-' then 2 else 1;
      SignedRun(e[at..], rest);
      assert (e + rest)[at..] == e[at..] + rest;
    }
  }

  lemma ExponentIs(x: string)
    ensures IsExponent(x[..ReadExponent(x).length]) && ReadExponent(x).length <= |x|
  {
    hide Value;
    var e := ReadExponent(x);
    if e.length > 0 {
      var at := if |x| > 1 && (x[1] == '+' || x[1] == '-') then 2 else 1;
      var y := x[..e.length];
      assert y[at..] == x[at..][..DigitRun(x[at..])];
    }
  }

  /** What may follow the digits of a number: nothing that is a digit or a point. */
  predicate EndsDigits(y: string) { y == "" || !(IsDigit(y[0]) || y[0] == '.') }

  lemma PointIsRead(p: string, y: string)
    requires IsPointPart(p) && EndsDigits(y)
    ensures PointPart(p + y) == p && AllDigits(Behind(p))
    ensures p + y == "" || !IsDigit((p + y)[0])
  {
    if p == "" {
      assert p + y == y;
    } else {
      PointRun(p[1..], y);
      hide DigitRun, AllDigits, PointPart;
      assert p == "." + p[1..];
    }
  }

  lemma ExponentEnds(e: string, rest: string)
    requires IsExponent(e) && Ends(rest)
    ensures EndsDigits(e + rest)
  {
    assert e == "" ==> e + rest == rest;
  }

  lemma DecimalReads(a: string, p: string, e: string, rest: string)
    requires IsDecimalText(a, p, e) && Ends(rest)
    ensures AllDigits(Behind(p)) && ReadUnsigned(a + p + e + rest) == ReadParts(a, p, e)
    ensures ReadUnsigned(a + p + e + rest).length == |a + p + e|
  {
    hide DigitRun, ReadUnsigned, AllDigits, ReadExponent, ReadParts, Behind, PointPart, Ends, EndsDigits;
    ExponentReads(e, rest);
    ExponentEnds(e, rest);
    PointIsRead(p, e + rest);
    RunOf(a, p + (e + rest));
    Assembled(a, p, e + rest);
    assert a + p + e + rest == a + (p + (e + rest));
    SameParts(a, p, e, e + rest);
  }

  lemma SameParts(a: string, p: string, x: string, y: string)
    requires AllDigits(a) && AllDigits(Behind(p)) && ReadExponent(x) == ReadExponent(y)
    ensures ReadParts(a, p, x) == ReadParts(a, p, y)
    ensures a != "" || |p| > 1 ==> ReadParts(a, p, x).length == |a| + |p| + ReadExponent(x).length
  {
    hide ReadExponent, Value, Scale;
  }

  lemma DecimalIs(s: string) returns (a: string, p: string, e: string)
    requires ReadUnsigned(s).length > 0
    ensures IsDecimalText(a, p, e) && s[..ReadUnsigned(s).length] == a + p + e
  {
    hide Value, Scale, ReadExponent;
    a := s[..DigitRun(s)];
    p := PointPart(s[|a|..]);
    var x := s[|a| + |p|..];
    e := x[..ReadExponent(x).length];
    ExponentIs(x);
    PointIs(s[|a|..]);
    assert s == a + p + x;
  }

  lemma PointIs(y: string)
    ensures IsPointPart(PointPart(y)) && PointPart(y) <= y
  {
  }

  lemma UnsignedIsLocal(s: string, rest: string)
    requires ReadUnsigned(s).length > 0 && Ends(s[ReadUnsigned(s).length..]) && Ends(rest)
    ensures ReadUnsigned(s[..ReadUnsigned(s).length] + rest) == ReadUnsigned(s)
  {
    hide ReadUnsigned, IsDecimalText, ReadParts, AllDigits, Behind, Ends;
    var n := ReadUnsigned(s).length;
    var a, p, e := DecimalIs(s);
    DecimalReads(a, p, e, rest);
    DecimalReads(a, p, e, s[n..]);
    Whole(s, n);
  }

  lemma Whole(s: string, n: nat)
    requires n <= |s|
    ensures s[..n] + s[n..] == s
  {
  }

  lemma SignedIsLocal(s: string, rest: string)
    requires ReadSigned(s).length > 0 && Ends(s[ReadSigned(s).length..]) && Ends(rest)
    ensures var n := ReadSigned(s).length;
      ReadSigned(s[..n] + rest) == ReadSigned(s) && Minus(s[..n] + rest) == Minus(s)
  {
    hide ReadUnsigned;
    var n := ReadSigned(s).length;
    var t := s[..n] + rest;
    assert t[0] == s[0];
    if Minus(s) {
      UnsignedIsLocal(s[1..], rest);
      assert t[1..] == s[1..][..n - 1] + rest;
      assert s[1..][n - 1..] == s[n..];
    } else {
      UnsignedIsLocal(s, rest);
    }
  }

  /** The characters of decimal numbers. */
  predicate IsDecimalChar(c: char) { IsDigit(c) || c == '.' || c == 'e' || c == 'E' || c == '+' || c == '-' }

  lemma DecimalChars(a: string, p: string, e: string)
    requires IsDecimalText(a, p, e)
    ensures forall i :: 0 <= i < |a + p + e| ==> IsDecimalChar((a + p + e)[i])
  {
    DigitChars(a);
    if p != "" { DigitChars(p[1..]); assert p == "." + p[1..]; }
    ExponentChars(e);
    hide AllDigits, IsExponent;
  }

  lemma DigitChars(ds: string)
    requires AllDigits(ds)
    ensures forall i :: 0 <= i < |ds| ==> IsDecimalChar(ds[i])
  {
  }

  lemma ExponentChars(e: string)
    requires IsExponent(e)
    ensures forall i :: 0 <= i < |e| ==> IsDecimalChar(e[i])
  {
    if e != "" {
      var at := if e[1] == '+' || e[1] == '-' then 2 else 1;
      DigitChars(e[at..]);
      forall i | 0 <= i < |e| ensures IsDecimalChar(e[i]) {
        if i >= at { assert e[i] == e[at..][i - at]; }
      }
    }
  }

  lemma SignedChars(s: string, i: nat)
    requires i < ReadSigned(s).length
    ensures IsDecimalChar(s[i])
  {
    hide ReadUnsigned;
    if Minus(s) {
      var a, p, e := DecimalIs(s[1..]);
      DecimalChars(a, p, e);
      if i > 0 { assert s[i] == s[1..][..ReadUnsigned(s[1..]).length][i - 1]; }
    } else {
      var a, p, e := DecimalIs(s);
      DecimalChars(a, p, e);
      assert s[i] == s[..ReadUnsigned(s).length][i];
    }
  }

  lemma MagnitudeReads(u: string, rest: string)
    requires IsMagnitude(u) && Ends(rest)
    ensures ReadUnsigned(u + rest).length == |u| > 0 && IsDigit(u[0])
  {
    hide ReadUnsigned;
    var a, f, e :| u == a + f + e && IsInteger(a) && IsFraction(f) && IsExponent(e);
    hide IsExponent;
    assert u[0] == a[0];
    DecimalReads(a, f, e, rest);
  }

  /** A number of the standard is read to its end. */
  lemma StandardReads(text: string, rest: string)
    requires RfcNumber(text) && Ends(rest)
    ensures ReadSigned(text + rest).length == |text| > 0 && (text[0] == '-' || IsDigit(text[0]))
  {
    hide ReadUnsigned, IsMagnitude;
    if text != "" && text[0] == '-' {
      MagnitudeReads(text[1..], rest);
      assert (text + rest)[1..] == text[1..] + rest;
    } else {
      MagnitudeReads(text, rest);
      assert (text + rest)[0] == text[0];
    }
  }
}
