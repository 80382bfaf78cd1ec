/** The text of a number: how the digits are laid out, and what a reader of decimal text makes of it. */
module NumberText {
  import opened Powers
  import opened DiyFp
  import opened DigitGeneration
  import opened Grisu

  // ----- Reading decimal text -----

  /** How many digits the text starts with. */
  function DigitRun(s: string): (n: nat)
    ensures n <= |s| && AllDigits(s[..n])
  {
    if s == "" || !IsDigit(s[0]) then 0
    else (
      var n := DigitRun(s[1..]) + 1;
      assert s[..n] == [s[0]] + s[1..][..n - 1];
      n
    )
  }

  /** The value of a decimal text and its length; length 0 means that there is no number. */
  datatype Reading = Reading(value: real, length: nat)

  /** `e`, an optional sign and at least one digit; the value is the exponent. */
  datatype Exponent = Exponent(value: int, length: nat)

  function ReadExponent(s: string): (r: Exponent)
    ensures r.length <= |s|
  {
    if s == "" || !(s[0] == 'e' || s[0] == 'E') then Exponent(0, 0) else
      var signed := |s| > 1 && (s[1] == '+' || s[1] == '-');
      var at := if signed then 2 else 1;
      var n := DigitRun(s[at..]);
      if n == 0 then Exponent(0, 0) else
        var v: int := Value(s[at..][..n]);
        Exponent(if signed && s[1] == '-' then -v else v, at + n)
  }

  /** A decimal point and the digits behind it. */
  function PointPart(s: string): (p: string)
    ensures |p| <= |s| && AllDigits(Behind(p))
  {
    if s == "" || s[0] != '.' then ""
    else (
      var p := s[..1 + DigitRun(s[1..])];
      assert p[1..] == s[1..][..DigitRun(s[1..])];
      p
    )
  }

  function Behind(p: string): string { if p == "" then "" else p[1..] }

  lemma JoinDigits(a: string, b: string)
    requires AllDigits(a) && AllDigits(b)
    ensures AllDigits(a + b)
  {
  }

  /** Digits with an optional point and an optional exponent, as `strtod` reads them. */
  function ReadUnsigned(s: string): (r: Reading)
    ensures r.length <= |s|
  {
    var a := s[..DigitRun(s)];
    var p := PointPart(s[|a|..]);
    ReadParts(a, p, s[|a| + |p|..])
  }

  function ReadParts(a: string, p: string, x: string): (r: Reading)
    requires AllDigits(a) && AllDigits(Behind(p))
    ensures r.length <= |a| + |p| + |x|
  {
    if a == "" && Behind(p) == "" then Reading(0.0, 0) else
      JoinDigits(a, Behind(p));
      var e := ReadExponent(x);
      Reading(Value(a + Behind(p)) as real * Scale(10, e.value - |Behind(p)|), |a| + |p| + e.length)
  }

  // ----- Facts about digit strings -----

  function Zeros(n: nat): (s: string)
    ensures |s| == n && AllDigits(s)
  {
    seq(n, _ => '0')
  }

  lemma {:induction false} ValueJoin(a: string, b: string)
    requires AllDigits(a) && AllDigits(b)
    ensures AllDigits(a + b) && Value(a + b) == Value(a) * Pow10(|b|) + Value(b)
    decreases |b|
  {
    if b == "" {
      assert a + b == a;
    } else {
      var c, d := b[..|b| - 1], b[|b| - 1];
      ValueJoin(a, c);
      ValueAppend(a + c, d);
      ValueAppend(c, d);
      assert (a + c) + [d] == a + b && c + [d] == b;
      assert Pow10(|b|) == 10 * Pow10(|c|);
      TenMore(Value(a), Pow10(|c|), Value(c));
    }
  }

  lemma TenMore(v: nat, p: nat, c: nat)
    ensures 10 * (v * p + c) == v * (10 * p) + 10 * c
  {
  }

  lemma {:induction false} ZerosAreNothing(n: nat)
    ensures Value(Zeros(n)) == 0
  {
    if n > 0 {
      ZerosAreNothing(n - 1);
      assert Zeros(n) == Zeros(n - 1) + ['0'];
      ValueAppend(Zeros(n - 1), '0');
    }
  }

  /** A character that cannot continue a number. */
  predicate Ends(rest: string) {
    rest == "" || !(IsDigit(rest[0]) || rest[0] == '.' || rest[0] == 'e' || rest[0] == 'E')
  }

  lemma {:induction false} RunOf(ds: string, rest: string)
    requires AllDigits(ds) && (rest == "" || !IsDigit(rest[0]))
    ensures DigitRun(ds + rest) == |ds|
  {
    if ds == "" {
      assert ds + rest == rest;
    } else {
      RunOf(ds[1..], rest);
      assert (ds + rest)[1..] == ds[1..] + rest;
    }
  }

  // ----- The layouts -----

  function Abs(x: int): nat { if x < 0 then -x else x }

  /** The digits of a decimal exponent below 1000, without leading zeros. */
  function ExponentDigits(e: nat): string
    requires e < 1000
  {
    (if e > 99 then [DigitChar(e / 100)] else "")
    + (if e > 9 then [DigitChar(e / 10 % 10)] else "")
    + [DigitChar(e % 10)]
  }

  lemma SmallValues(a: nat, b: nat, c: nat)
    requires a < 10 && b < 10 && c < 10
    ensures var x, y, z := DigitChar(a), DigitChar(b), DigitChar(c);
      && AllDigits([z]) && Value([z]) == c && AllDigits([y, z]) && Value([y, z]) == 10 * b + c
      && AllDigits([x, y, z]) && Value([x, y, z]) == 100 * a + 10 * b + c
  {
    hide Value;
    var x, y, z := DigitChar(a), DigitChar(b), DigitChar(c);
    NoDigits();
    ValueAppend("", x);
    ValueAppend([x], y);
    ValueAppend([x, y], z);
    ValueAppend("", y);
    ValueAppend([y], z);
    ValueAppend("", z);
    assert "" + [x] == [x] && "" + [y] == [y] && "" + [z] == [z];
    assert [x] + [y] == [x, y] && [x, y] + [z] == [x, y, z] && [y] + [z] == [y, z];
  }

  lemma NoDigits()
    ensures Value("") == 0
  {
  }

  lemma ExponentValue(e: nat)
    requires e < 1000
    ensures var t := ExponentDigits(e); 1 <= |t| <= 3 && AllDigits(t) && Value(t) == e
  {
    hide Value, AllDigits, DigitChar;
    SmallValues(e / 100, e / 10 % 10, e % 10);
    var t, x, y, z := ExponentDigits(e), DigitChar(e / 100), DigitChar(e / 10 % 10), DigitChar(e % 10);
    if e > 99 {
      assert t == [x, y, z];
    } else if e > 9 {
      assert t == [y, z];
    } else {
      assert t == [z];
    }
  }

  predicate IsPlain(n: nat, k: int) { k >= 0 && Abs(k + n - 1) < n + 7 }

  predicate IsDecimal(n: nat, k: int) { k < 0 && (k > -7 || Abs(k + n - 1) < 4) }

  /** ds * 10^k as text. */
  function Layout(ds: string, k: int): string
    requires ds != "" && Abs(k + |ds| - 1) < 1000
  {
    var n := |ds|;
    if IsPlain(n, k) then ds + Zeros(k)
    else if IsDecimal(n, k) then
      if n + k <= 0 then "0." + Zeros(-k - n) + ds else ds[..n + k] + "." + ds[n + k..]
    else [ds[0]] + (if n > 1 then "." + ds[1..] else "") + Scientific(k + n - 1)
  }

  function Scientific(e: int): string
    requires Abs(e) < 1000
  {
    "e" + (if e < 0 then "-" else "+") + ExponentDigits(Abs(e))
  }

  lemma LayoutLength(ds: string, k: int)
    requires 1 <= |ds| <= 17 && Abs(k + |ds| - 1) < 1000
    ensures 1 <= |Layout(ds, k)| <= 24
  {
    hide Value, AllDigits, ExponentDigits;
    ExponentValue(Abs(k + |ds| - 1));
  }

  // ----- Reading a layout back -----

  lemma Cut(a: string, b: string)
    ensures (a + b)[..|a|] == a && (a + b)[|a|..] == b
  {
  }

  lemma Assembled(a: string, p: string, x: string)
    requires AllDigits(a) && AllDigits(Behind(p)) && DigitRun(a + (p + x)) == |a| && PointPart(p + x) == p
    ensures ReadUnsigned(a + (p + x)) == ReadParts(a, p, x)
  {
    hide DigitRun, PointPart, ReadParts, AllDigits, Behind;
    Cut(a, p + x);
    Cut(a + p, x);
    assert (a + p) + x == a + (p + x);
  }

  lemma NoPointParts(a: string, x: string, e: Exponent)
    requires AllDigits(a) && a != "" && ReadExponent(x) == e
    ensures AllDigits(Behind("")) && ReadParts(a, "", x) == Reading(Value(a) as real * Scale(10, e.value), |a| + e.length)
  {
    hide Value, Scale, ReadExponent;
    assert a + "" == a;
  }

  lemma WithoutPoint(a: string, x: string, e: Exponent)
    requires AllDigits(a) && a != "" && (x == "" || !(IsDigit(x[0]) || x[0] == '.')) && ReadExponent(x) == e
    ensures ReadUnsigned(a + x) == Reading(Value(a) as real * Scale(10, e.value), |a| + e.length)
  {
    hide Value, DigitRun, Scale, ReadExponent, ReadUnsigned, ReadParts, AllDigits;
    RunOf(a, x);
    NoPointParts(a, x, e);
    assert "" + x == x;
    Assembled(a, "", x);
  }

  lemma PlainReads(ds: string, k: nat, rest: string)
    requires AllDigits(ds) && ds != "" && Ends(rest)
    ensures var t := ds + Zeros(k); ReadUnsigned(t + rest) == Reading(Decimal(ds, k), |t|)
  {
    hide Value, Scale, ReadUnsigned, ReadExponent, Pow10, Zeros;
    ValueJoin(ds, Zeros(k));
    ZerosAreNothing(k);
    NoExponent(rest);
    WithoutPoint(ds + Zeros(k), rest, Exponent(0, 0));
    RealProduct(Value(ds), Pow10(k), k);
  }

  lemma RealProduct(v: nat, p: nat, k: nat)
    requires p == Pow10(k)
    ensures (v * p) as real * Scale(10, 0) == v as real * Scale(10, k)
  {
    RealTimes(v, p);
    WholeTen(k);
    ScaleZero(10);
    hide Scale, Pow10;
  }

  lemma WholeTen(k: nat)
    ensures Scale(10, k) == Pow10(k) as real
  {
  }

  lemma PointRun(b: string, x: string)
    requires AllDigits(b) && (x == "" || !IsDigit(x[0]))
    ensures PointPart("." + b + x) == "." + b && Behind("." + b) == b
  {
    hide DigitRun, AllDigits;
    RunOf(b, x);
    Cut("." + b, x);
    assert ("." + b + x)[1..] == b + x;
  }

  /** Digits around a decimal point, with or without an exponent behind them. */
  lemma PointReads(a: string, b: string, tail: string, rest: string, e: int)
    requires AllDigits(a) && AllDigits(b) && a != "" && (tail == "" || !IsDigit(tail[0]))
    requires Ends(rest) && ReadExponent(tail + rest) == Exponent(e, |tail|)
    ensures AllDigits(a + b)
    ensures var t := a + "." + b + tail;
      ReadUnsigned(t + rest) == Reading(Value(a + b) as real * Scale(10, e - |b|), |t|)
  {
    hide Value, Scale, ReadExponent, ReadUnsigned, AllDigits, PointPart, DigitRun, Behind;
    JoinDigits(a, b);
    PointRun(b, tail + rest);
    RunOf(a, "." + b + (tail + rest));
    Assembled(a, "." + b, tail + rest);
    assert a + "." + b + tail + rest == a + ("." + b + (tail + rest));
  }

  lemma ScientificReads(e: int, rest: string)
    requires Abs(e) < 1000 && Ends(rest)
    ensures ReadExponent(Scientific(e) + rest) == Exponent(e, |Scientific(e)|)
  {
    hide Value, DigitRun, ExponentDigits;
    var t := ExponentDigits(Abs(e));
    ExponentValue(Abs(e));
    RunOf(t, rest);
    Cut(t, rest);
    var s := Scientific(e) + rest;
    assert s[2..] == t + rest;
  }

  lemma NoExponent(rest: string)
    requires Ends(rest)
    ensures ReadExponent(rest) == ReadExponent("" + rest) == Exponent(0, 0)
  {
    assert "" + rest == rest;
  }

  lemma SliceDigits(ds: string, i: nat)
    requires AllDigits(ds) && i <= |ds|
    ensures AllDigits(ds[..i]) && AllDigits(ds[i..]) && ds[..i] + ds[i..] == ds
  {
  }

  lemma SmallReads(ds: string, k: int, rest: string)
    requires AllDigits(ds) && ds != "" && |ds| + k <= 0 && Ends(rest)
    ensures var t := "0." + Zeros(-k - |ds|) + ds; ReadUnsigned(t + rest) == Reading(Decimal(ds, k), |t|)
  {
    hide ReadUnsigned, ReadExponent, Scale, Value, IsDigit, AllDigits, Zeros;
    var z := Zeros(-k - |ds|);
    NoExponent(rest);
    LeadingZeros(z, ds);
    PointReads("0", z + ds, "", rest, 0);
    assert "0" + "." + (z + ds) + "" == "0." + z + ds;
  }

  lemma MiddleReads(ds: string, k: int, rest: string)
    requires AllDigits(ds) && k < 0 < |ds| + k && Ends(rest)
    ensures var t := ds[..|ds| + k] + "." + ds[|ds| + k..]; ReadUnsigned(t + rest) == Reading(Decimal(ds, k), |t|)
  {
    hide ReadUnsigned, ReadExponent, Scale, Value, IsDigit, AllDigits;
    NoExponent(rest);
    SliceDigits(ds, |ds| + k);
    PointReads(ds[..|ds| + k], ds[|ds| + k..], "", rest, 0);
    assert ds[..|ds| + k] + "." + ds[|ds| + k..] + "" == ds[..|ds| + k] + "." + ds[|ds| + k..];
  }

  lemma ScientificLayoutReads(ds: string, k: int, rest: string)
    requires AllDigits(ds) && ds != "" && Abs(k + |ds| - 1) < 1000 && Ends(rest)
    ensures var t := [ds[0]] + (if |ds| > 1 then "." + ds[1..] else "") + Scientific(k + |ds| - 1);
      ReadUnsigned(t + rest) == Reading(Decimal(ds, k), |t|)
  {
    hide ReadUnsigned, ReadExponent, Scale, Value, Scientific, AllDigits;
    var e := k + |ds| - 1;
    var x := Scientific(e);
    ScientificReads(e, rest);
    ScientificStarts(e);
    if |ds| > 1 {
      SliceDigits(ds, 1);
      assert ds[..1] == [ds[0]];
      PointReads([ds[0]], ds[1..], x, rest, e);
      assert [ds[0]] + ("." + ds[1..]) + x == [ds[0]] + "." + ds[1..] + x;
    } else {
      assert [ds[0]] + "" + x + rest == ds + (x + rest);
      WithoutPoint(ds, x + rest, Exponent(e, |x|));
    }
  }

  /** Every layout denotes digits * 10^k. */
  lemma LayoutReads(ds: string, k: int, rest: string)
    requires AllDigits(ds) && ds != "" && Abs(k + |ds| - 1) < 1000 && Ends(rest)
    ensures ReadUnsigned(Layout(ds, k) + rest) == Reading(Decimal(ds, k), |Layout(ds, k)|)
  {
    hide ReadUnsigned, Scale, Value, Decimal, AllDigits, Scientific, Zeros;
    if IsPlain(|ds|, k) {
      PlainReads(ds, k, rest);
    } else if !IsDecimal(|ds|, k) {
      ScientificLayoutReads(ds, k, rest);
    } else if |ds| + k <= 0 {
      SmallReads(ds, k, rest);
    } else {
      MiddleReads(ds, k, rest);
    }
  }

  lemma ScientificStarts(e: int)
    requires Abs(e) < 1000
    ensures Scientific(e) != "" && Scientific(e)[0] == 'e'
  {
  }

  lemma LeadingZeros(z: string, ds: string)
    requires AllDigits(ds) && z == Zeros(|z|)
    ensures AllDigits("0") && AllDigits(z + ds) && AllDigits("0" + (z + ds)) && Value("0" + (z + ds)) == Value(ds)
  {
    assert "0" + z == Zeros(|z| + 1);
    ZerosAreNothing(|z| + 1);
    ValueJoin("0" + z, ds);
    assert ("0" + z) + ds == "0" + (z + ds);
  }

  // ----- Writing the text -----

  /** `memcpy(dest + at, digits + from, count)`; t is the text written so far. */
  method CopyDigits(dest: array<char>, ghost start: nat, ghost t: string, at: nat, digits: array<char>, from: nat, count: nat)
    requires start <= at && at + count <= dest.Length && from + count <= digits.Length && dest != digits
    requires dest[start..at] == t
    modifies dest
    ensures dest[..start] == old(dest[..start])
    ensures dest[start..at + count] == t + digits[from..from + count]
  {
    forall i | 0 <= i < count { dest[at + i] := digits[from + i]; }
    assert dest[start..at] == t;
    assert dest[at..at + count] == digits[from..from + count];
    assert dest[start..at + count] == dest[start..at] + dest[at..at + count];
  }

  /** `memset(dest + at, '0', count)`. */
  method FillZeros(dest: array<char>, ghost start: nat, ghost t: string, at: nat, count: nat)
    requires start <= at && at + count <= dest.Length && dest[start..at] == t
    modifies dest
    ensures dest[..start] == old(dest[..start])
    ensures dest[start..at + count] == t + Zeros(count)
  {
    forall i | 0 <= i < count { dest[at + i] := '0'; }
  }

  /** `dest[at++] = c`. */
  method Put(dest: array<char>, ghost start: nat, ghost t: string, at: nat, c: char) returns (next: nat)
    requires start <= at < dest.Length && dest[start..at] == t
    modifies dest
    ensures next == at + 1 && dest[..start] == old(dest[..start])
    ensures dest[start..next] == t + [c]
  {
    dest[at] := c;
    next := at + 1;
  }

  lemma DigitsOf(e: nat)
    requires e < 1000
    ensures e > 99 ==> ExponentDigits(e) == [DigitChar(e / 100)] + [DigitChar(e / 10 % 10)] + [DigitChar(e % 10)]
    ensures 9 < e <= 99 ==> ExponentDigits(e) == [DigitChar(e / 10)] + [DigitChar(e % 10)]
    ensures e <= 9 ==> ExponentDigits(e) == [DigitChar(e)]
    ensures DigitChar(0) == '0'
  {
  }

  lemma Remainders(e: nat)
    requires e < 1000
    ensures 0 <= e / 100 < 10 && e % 10 < 10
    ensures var x := e - e / 100 * 100; x / 10 == e / 10 % 10 && x % 10 == (x - x / 10 * 10) % 10 == e % 10
    ensures e <= 99 ==> e / 10 < 10 && (e - e / 10 * 10) % 10 == e % 10
    ensures e <= 9 ==> e % 10 == e
    ensures e - e / 100 * 100 <= 9 ==> e / 10 % 10 == 0
  {
  }

  /** The exponent, digit by digit. */
  method EmitExponentDigits(dest: array<char>, at: nat, e: nat) returns (idx: nat)
    requires e < 1000 && at + 3 <= dest.Length
    modifies dest
    ensures dest[..at] == old(dest[..at]) && at <= idx <= at + 3 && dest[at..idx] == ExponentDigits(e)
  {
    hide ExponentDigits, DigitChar;
    DigitsOf(e);
    Remainders(e);
    var cent, exp := 0, e;
    ghost var t := "";
    idx := at;
    if exp > 99 {
      cent := exp / 100;
      idx := Put(dest, at, t, idx, DigitChar(cent));
      t := t + [DigitChar(cent)];
      exp := exp - cent * 100;
    }
    if exp > 9 {
      var dec := exp / 10;
      idx := Put(dest, at, t, idx, DigitChar(dec));
      t := t + [DigitChar(dec)];
      exp := exp - dec * 10;
    } else if cent != 0 {
      idx := Put(dest, at, t, idx, '0');
      t := t + ['0'];
    }
    idx := Put(dest, at, t, idx, DigitChar(exp % 10));
  }

  method EmitExponent(dest: array<char>, at: nat, e: int) returns (idx: nat)
    requires Abs(e) < 1000 && at + 5 <= dest.Length
    modifies dest
    ensures dest[..at] == old(dest[..at]) && at <= idx <= at + 5 && dest[at..idx] == Scientific(e)
  {
    hide ExponentDigits;
    idx := Put(dest, at, "", at, 'e');
    idx := Put(dest, at, "" + ['e'], idx, if e < 0 then '-' else '+');
    ghost var t := "e" + (if e < 0 then "-" else "+");
    assert dest[at..idx] == t;
    ghost var start := idx;
    Rejoined(dest[..start], at);
    idx := EmitExponentDigits(dest, idx, Abs(e));
    Rejoined(dest[..start], at);
    assert dest[at..idx] == dest[at..start] + dest[start..idx];
  }

  /** What lies in front of a prefix's end does not change with what follows it. */
  lemma Rejoined(s: string, at: nat)
    requires at <= |s|
    ensures s == s[..at] + s[at..]
  {
  }

  method EmitMantissa(digits: array<char>, n: nat, dest: array<char>, at: nat) returns (idx: nat)
    requires 1 <= n <= digits.Length && at + n + 1 <= dest.Length && dest != digits
    modifies dest
    ensures dest[..at] == old(dest[..at]) && at <= idx <= at + n + 1
    ensures dest[at..idx] == [digits[0]] + (if n > 1 then "." + digits[1..n] else "")
  {
    idx := Put(dest, at, "", at, digits[0]);
    if n > 1 {
      idx := Put(dest, at, [digits[0]], idx, '.');
      CopyDigits(dest, at, [digits[0]] + ['.'], idx, digits, 1, n - 1);
      idx := idx + n - 1;
    }
  }

  /** One digit, a point and the other digits if there are any, and the exponent. */
  method EmitScientific(digits: array<char>, n: nat, dest: array<char>, at: nat, e: int) returns (len: nat)
    requires 1 <= n <= 17 && n <= digits.Length && Abs(e) < 1000
    requires at + 24 <= dest.Length && dest != digits
    modifies dest
    ensures dest[..at] == old(dest[..at]) && at + len <= dest.Length
    ensures dest[at..at + len] == [digits[0]] + (if n > 1 then "." + digits[1..n] else "") + Scientific(e)
  {
    hide Scientific;
    var idx := EmitMantissa(digits, n, dest, at);
    ghost var start, t := idx, dest[at..idx];
    Rejoined(dest[..start], at);
    idx := EmitExponent(dest, idx, e);
    Rejoined(dest[..start], at);
    assert dest[at..idx] == t + dest[start..idx];
    len := idx - at;
  }

  /** Digits and zeros. */
  method EmitPlain(digits: array<char>, n: nat, dest: array<char>, at: nat, k: nat)
    requires n <= digits.Length && dest != digits && at + n + k <= dest.Length
    modifies dest
    ensures dest[..at] == old(dest[..at])
    ensures dest[at..at + n + k] == digits[..n] + Zeros(k)
  {
    hide Zeros;
    CopyDigits(dest, at, "", at, digits, 0, n);
    FillZeros(dest, at, digits[..n], at + n, k);
  }

  /** Digits behind `0.` and zeros. */
  method EmitSmall(digits: array<char>, n: nat, dest: array<char>, at: nat, zeros: nat)
    requires n <= digits.Length && dest != digits && at + n + 2 + zeros <= dest.Length
    modifies dest
    ensures dest[..at] == old(dest[..at])
    ensures dest[at..at + n + 2 + zeros] == "0." + Zeros(zeros) + digits[..n]
  {
    hide Zeros;
    var idx := Put(dest, at, "", at, '0');
    idx := Put(dest, at, "0", idx, '.');
    FillZeros(dest, at, "0.", idx, zeros);
    CopyDigits(dest, at, "0." + Zeros(zeros), idx + zeros, digits, 0, n);
  }

  /** Digits around a point. */
  method EmitMiddle(digits: array<char>, n: nat, dest: array<char>, at: nat, offset: nat)
    requires offset <= n <= digits.Length && dest != digits && at + n + 1 <= dest.Length
    modifies dest
    ensures dest[..at] == old(dest[..at])
    ensures dest[at..at + n + 1] == digits[..offset] + "." + digits[offset..n]
  {
    CopyDigits(dest, at, "", at, digits, 0, offset);
    var idx := Put(dest, at, digits[..offset], at + offset, '.');
    CopyDigits(dest, at, digits[..offset] + ".", idx, digits, offset, n - offset);
  }

  /** Writes a layout of the digits behind the `at` characters that are there already. */
  method EmitDigits(digits: array<char>, n: nat, dest: array<char>, at: nat, k: int, neg: bool) returns (len: nat)
    requires 1 <= n <= 17 && n <= digits.Length && AllDigits(digits[..n]) && Abs(k + n - 1) < 1000
    requires at + 24 <= dest.Length && dest != digits
    modifies dest
    ensures len == |Layout(digits[..n], k)| <= 24
    ensures dest[..at] == old(dest[..at]) && dest[at..at + len] == Layout(digits[..n], k)
  {
    hide AllDigits, Scientific, Zeros, Layout;
    LayoutLength(digits[..n], k);
    LayoutSlices(digits, n, k);
    var exp := Abs(k + n - 1);
    if k >= 0 && exp < n + 7 {
      EmitPlain(digits, n, dest, at, k);
      return n + k;
    }
    if k < 0 && (k > -7 || exp < 4) {
      var offset := n - Abs(k);
      if offset <= 0 {
        offset := -offset;
        EmitSmall(digits, n, dest, at, offset);
        return n + 2 + offset;
      } else {
        EmitMiddle(digits, n, dest, at, offset);
        return n + 1;
      }
    }
    var most := if neg then 17 else 18;
    var ndigits := if n < most then n else most;
    len := EmitScientific(digits, ndigits, dest, at, k + ndigits - 1);
  }

  lemma Slices(a: array<char>, n: nat)
    requires 1 <= n <= a.Length
    ensures a[..n][0] == a[0] && a[..n][1..] == a[1..n]
    ensures forall i :: 0 <= i <= n ==> a[..n][..i] == a[..i] && a[..n][i..] == a[i..n]
  {
  }

  /** The layouts, in terms of the slices of the array that holds the digits. */
  lemma LayoutSlices(a: array<char>, n: nat, k: int)
    requires 1 <= n <= a.Length && Abs(k + n - 1) < 1000
    ensures var text := Layout(a[..n], k);
      && (IsPlain(n, k) ==> text == a[..n] + Zeros(k) && |text| == n + k)
      && (IsDecimal(n, k) && n + k <= 0 ==> text == "0." + Zeros(-k - n) + a[..n] && |text| == 2 - k)
      && (IsDecimal(n, k) && n + k > 0 ==> text == a[..n + k] + "." + a[n + k..n] && |text| == n + 1)
      && (!IsPlain(n, k) && !IsDecimal(n, k) ==>
            text == [a[0]] + (if n > 1 then "." + a[1..n] else "") + Scientific(k + n - 1))
  {
    hide Scientific, Layout, Zeros;
    Slices(a, n);
    LayoutCases(a[..n], k);
  }

  lemma LayoutCases(ds: string, k: int)
    requires ds != "" && Abs(k + |ds| - 1) < 1000
    ensures IsPlain(|ds|, k) ==> Layout(ds, k) == ds + Zeros(k) && |Layout(ds, k)| == |ds| + k
    ensures IsDecimal(|ds|, k) && |ds| + k <= 0 ==>
      Layout(ds, k) == "0." + Zeros(-k - |ds|) + ds && |Layout(ds, k)| == 2 - k
    ensures IsDecimal(|ds|, k) && |ds| + k > 0 ==>
      Layout(ds, k) == ds[..|ds| + k] + "." + ds[|ds| + k..] && |Layout(ds, k)| == |ds| + 1
    ensures !IsPlain(|ds|, k) && !IsDecimal(|ds|, k) ==>
      Layout(ds, k) == [ds[0]] + (if |ds| > 1 then "." + ds[1..] else "") + Scientific(k + |ds| - 1)
  {
    hide Scientific;
  }

  // ----- The whole text -----

  predicate Negative(bits: u64) { bits / TWO_63 == 1 }

  function Sign(bits: u64): string { if Negative(bits) then "-" else "" }

  predicate IsZero(bits: u64) { bits % TWO_63 == 0 }

  predicate IsSpecial(bits: u64) { bits / HIDDEN_BIT % 2048 == 2047 }

  lemma FiniteNonzero(bits: u64)
    requires !IsZero(bits) && !IsSpecial(bits)
    ensures IsFiniteNonzero(BuildFp(bits))
  {
  }

  /** The digits and the exponent stand for a number strictly between w's midpoints, and are as few and as close as the margins allow. */
  ghost predicate DigitsFor(ds: string, k: int, w: Fp) {
    && 1 <= |ds| <= 17 && AllDigits(ds) && ds[0] != '0' && -356 <= k <= 357
    && LowerMidpoint(w) < Decimal(ds, k) < UpperMidpoint(w)
    && NoMultipleFits(w, k + 1) && NoneCloser(w, Decimal(ds, k), k)
  }

  /** What is printed for the magnitude of a double. */
  ghost predicate ShownAs(body: string, bits: u64) {
    if IsZero(bits) then body == "0"
    else if IsSpecial(bits) then body == (if bits % HIDDEN_BIT != 0 then "nan" else "inf")
    else exists ds, k :: DigitsFor(ds, k, BuildFp(bits)) && body == Layout(ds, k)
  }

  ghost predicate Printed(text: string, bits: u64) {
    Sign(bits) <= text && ShownAs(text[|Sign(bits)|..], bits)
  }

  /** Writes `0`, `nan` or `inf`; 0 for any other number. */
  method FilterSpecial(bits: u64, dest: array<char>, at: nat) returns (len: nat)
    requires at + 3 <= dest.Length
    modifies dest
    ensures dest[..at] == old(dest[..at]) && at + len <= dest.Length
    ensures len == 0 <==> !IsZero(bits) && !IsSpecial(bits)
    ensures len != 0 ==> ShownAs(dest[at..at + len], bits)
  {
    if bits % TWO_63 == 0 {
      dest[at] := '0';
      assert dest[at..at + 1] == "0";
      return 1;
    }
    if bits / HIDDEN_BIT % 2048 != 2047 {
      return 0;
    }
    if bits % HIDDEN_BIT != 0 {
      dest[at], dest[at + 1], dest[at + 2] := 'n', 'a', 'n';
      assert dest[at..at + 3] == "nan";
    } else {
      dest[at], dest[at + 1], dest[at + 2] := 'i', 'n', 'f';
      assert dest[at..at + 3] == "inf";
    }
    return 3;
  }

  /** The text of the double with the given bits. */
  method FpconvDtoa(bits: u64, dest: array<char>) returns (len: nat)
    requires dest.Length >= 25
    modifies dest
    ensures len <= 25 && Printed(dest[..len], bits)
  {
    hide Layout, Decimal, LowerMidpoint, UpperMidpoint, AllDigits, BuildFp, NoMultipleFits, NoneCloser;
    var digits := new char[18];
    len := 0;
    var neg := bits / TWO_63 == 1;
    if neg {
      dest[0] := '-';
      len := 1;
    }
    assert dest[..len] == Sign(bits);
    var spec := FilterSpecial(bits, dest, len);
    if spec != 0 {
      Rejoined(dest[..len + spec], len);
      return len + spec;
    }
    FiniteNonzero(bits);
    var n, k := Grisu2(BuildFp(bits), digits);
    ghost var ds := digits[..n];
    assert DigitsFor(ds, k, BuildFp(bits));
    var count := EmitDigits(digits, n, dest, len, k, neg);
    assert ShownAs(dest[len..len + count], bits);
    Rejoined(dest[..len + count], len);
    len := len + count;
  }

  // ----- What a reader makes of it -----

  /** A text with an optional minus sign. */
  function ReadSigned(s: string): (r: Reading)
    ensures r.length <= |s|
  {
    if s != "" && s[0] == '-' then (
      var r := ReadUnsigned(s[1..]);
      Reading(r.value, if r.length == 0 then 0 else r.length + 1)
    ) else ReadUnsigned(s)
  }

  predicate Minus(s: string) { s != "" && s[0] == '-' }

  /** bits has the sign of the text, and its magnitude is closer to what the text denotes than that of any other double. */
  ghost predicate NearestTo(s: string, bits: u64) {
    && Minus(s) == Negative(bits)
    && forall x: Fp :: IsBinary64(x) && x != BuildFp(bits) ==>
         Gap(ReadSigned(s).value, ValueOf(BuildFp(bits))) < Gap(ReadSigned(s).value, ValueOf(x))
  }

  lemma BodyReads(body: string, bits: u64, rest: string)
    requires ShownAs(body, bits) && !IsSpecial(bits) && Ends(rest)
    ensures body != "" && body[0] != '-' && ReadUnsigned(body + rest).length == |body|
    ensures forall x: Fp :: IsBinary64(x) && x != BuildFp(bits) ==>
      Gap(ReadUnsigned(body + rest).value, ValueOf(BuildFp(bits))) < Gap(ReadUnsigned(body + rest).value, ValueOf(x))
  {
    var w := BuildFp(bits);
    if IsZero(bits) {
      ZeroReads(rest);
      forall x: Fp | IsBinary64(x) && x != w ensures Gap(0.0, ValueOf(w)) < Gap(0.0, ValueOf(x)) {
        NotZero(x, w);
      }
    } else {
      FiniteNonzero(bits);
      hide BuildFp, ReadUnsigned, Scale, Value, Decimal, ValueOf, IsBinary64, Layout, LowerMidpoint, UpperMidpoint, Gap, NoMultipleFits, NoneCloser;
      var ds, k :| DigitsFor(ds, k, w) && body == Layout(ds, k);
      LayoutReads(ds, k, rest);
      LayoutStarts(ds, k);
      forall x: Fp | IsBinary64(x) && x != w ensures Gap(Decimal(ds, k), ValueOf(w)) < Gap(Decimal(ds, k), ValueOf(x)) {
        ReadsBack(w, Decimal(ds, k), x);
      }
    }
  }

  lemma ZeroReads(rest: string)
    requires Ends(rest)
    ensures ReadUnsigned("0" + rest) == Reading(0.0, 1)
  {
    NoExponent(rest);
    WithoutPoint("0", rest, Exponent(0, 0));
    assert Value("0") == 0 by { ValueAppend("", '0'); }
  }

  lemma NotZero(x: Fp, w: Fp)
    requires IsBinary64(x) && IsBinary64(w) && w.frac == 0 && x != w
    ensures Gap(0.0, ValueOf(w)) < Gap(0.0, ValueOf(x))
  {
    hide Scale;
    assert x.frac > 0;
    TimesMonotone(0.0, x.frac as real, Scale(2, x.exp));
  }

  lemma LayoutStarts(ds: string, k: int)
    requires AllDigits(ds) && ds != "" && Abs(k + |ds| - 1) < 1000
    ensures Layout(ds, k) != "" && Layout(ds, k)[0] != '-'
  {
    LayoutCases(ds, k);
    hide Layout;
  }

  /** The printed text is read to its end, and the double it was printed for is the nearest to what it denotes. */
  lemma PrintedIsNearest(text: string, bits: u64, rest: string)
    requires Printed(text, bits) && !IsSpecial(bits) && Ends(rest)
    ensures ReadSigned(text + rest).length == |text| > 0 && NearestTo(text + rest, bits)
  {
    hide ShownAs, ReadUnsigned, BuildFp, IsBinary64, ValueOf, Gap, Ends, IsSpecial;
    var body := text[|Sign(bits)|..];
    BodyReads(body, bits, rest);
    var s := text + rest;
    if Negative(bits) {
      assert s[1..] == body + rest && s[0] == '-';
    } else {
      assert text == body && s[0] == body[0];
    }
  }

  lemma BitsParts(bits: u64)
    ensures var f, e, s := bits % HIDDEN_BIT, bits / HIDDEN_BIT % 2048, bits / TWO_63;
      bits == s * TWO_63 + e * HIDDEN_BIT + f && 0 <= s <= 1 && (s == 1 <==> Negative(bits))
  {
  }

  /** Sign, fraction and exponent determine the bits. */
  lemma DecodingLosesNothing(a: u64, b: u64)
    requires BuildFp(a) == BuildFp(b) && Negative(a) == Negative(b)
    ensures a == b
  {
    BitsParts(a);
    BitsParts(b);
    hide Negative;
    assert a % HIDDEN_BIT < HIDDEN_BIT && b % HIDDEN_BIT < HIDDEN_BIT;
  }

  /** No text is nearest to two doubles, so a reader can honour every one of them. */
  lemma NearestIsUnique(s: string, a: u64, b: u64)
    requires NearestTo(s, a) && NearestTo(s, b)
    ensures a == b
  {
    assert IsBinary64(BuildFp(a)) && IsBinary64(BuildFp(b));
    if BuildFp(a) == BuildFp(b) { DecodingLosesNothing(a, b); }
  }
}
