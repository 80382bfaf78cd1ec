/** The decimal digits of a number inside an interval: as few as the interval allows, and the closest of those. */
module DigitGeneration {
  import opened Powers
  import opened DiyFp

  // ----- Digit strings -----

  predicate IsDigit(c: char) { '0' <= c <= '9' }

  predicate AllDigits(ds: seq<char>) {
    forall i :: 0 <= i < |ds| ==> IsDigit(ds[i])
  }

  function DigitOf(c: char): nat
    requires IsDigit(c)
  {
    c as int - '0' as int
  }

  function DigitChar(d: nat): char
    requires d < 10
  {
    (d + '0' as int) as char
  }

  function Value(ds: seq<char>): nat
    requires AllDigits(ds)
  {
    if ds == [] then 0 else 10 * Value(ds[..|ds| - 1]) + DigitOf(ds[|ds| - 1])
  }

  lemma ValueAppend(ds: seq<char>, c: char)
    requires AllDigits(ds) && IsDigit(c)
    ensures AllDigits(ds + [c]) && Value(ds + [c]) == 10 * Value(ds) + DigitOf(c)
  {
    assert (ds + [c])[..|ds|] == ds;
  }

  // ----- The table of integer powers -----

  const N_TENS: nat := 20

  function Tens(i: nat): u64
    requires i < N_TENS
  {
    match i
    case 0 => 10000000000000000000
    case 1 => 1000000000000000000
    case 2 => 100000000000000000
    case 3 => 10000000000000000
    case 4 => 1000000000000000
    case 5 => 100000000000000
    case 6 => 10000000000000
    case 7 => 1000000000000
    case 8 => 100000000000
    case 9 => 10000000000
    case 10 => 1000000000
    case 11 => 100000000
    case 12 => 10000000
    case 13 => 1000000
    case 14 => 100000
    case 15 => 10000
    case 16 => 1000
    case 17 => 100
    case 18 => 10
    case _ => 1
  }

  lemma {:induction false} TensArePowers(i: nat)
    requires i < N_TENS
    ensures Tens(i) == Pow10(19 - i)
    decreases 19 - i
  {
    if i < 19 {
      TensArePowers(i + 1);
      assert Tens(i) == 10 * Tens(i + 1);
      hide Tens;
      assert Pow10(19 - i) == 10 * Pow10(18 - i);
    }
  }

  // ----- What the digits are for -----

  /** 10^kappa for kappa >= 0, else 1. */
  function Unit(kappa: int): nat { Pow10(if kappa >= 0 then kappa else 0) }

  /** 10^-kappa for kappa < 0, else 1. */
  function Fine(kappa: int): nat { Pow10(if kappa < 0 then -kappa else 0) }

  /** low <= d * 10^kappa * one <= high. */
  ghost predicate Within(d: nat, kappa: int, one: nat, low: nat, high: nat) {
    low * Fine(kappa) <= d * (Unit(kappa) * one) <= high * Fine(kappa)
  }

  function Distance(a: int, b: int): nat { if a < b then b - a else a - b }

  /** No multiple of 10^(kappa + 1) * one lies above low and not above high, so no shorter decimal does. */
  ghost predicate NoneCoarser(kappa: int, one: nat, low: nat, high: nat) {
    forall m: nat :: !(low * Fine(kappa) < m * (10 * (Unit(kappa) * one)) <= high * Fine(kappa))
  }

  /** Of the multiples of 10^kappa * one in the interval, d is closest to w. */
  ghost predicate Closest(d: nat, kappa: int, one: nat, low: nat, high: nat, w: nat) {
    forall m: nat :: Within(m, kappa, one, low, high) ==>
      Distance(d * (Unit(kappa) * one), w * Fine(kappa)) <= Distance(m * (Unit(kappa) * one), w * Fine(kappa))
  }

  // ----- Rounding the last digit -----

  lemma StepMore(j: nat, k: nat)
    ensures (j + 1) * k == j * k + k
  {
  }

  lemma Distribute(a: nat, b: nat, k: nat)
    ensures (a + b) * k == a * k + b * k && b * k >= 0
  {
  }

  lemma MoreSteps(i: nat, j: nat, k: nat)
    ensures i <= j ==> i * k <= j * k
    ensures i < j ==> i * k + k <= j * k
  {
    if i < j {
      Distribute(i + 1, j - i - 1, k);
      Distribute(i, 1, k);
    }
  }

  /**
   * Lowers the last digit while that brings the remainder closer to frac without
   * passing delta. `j` is how far it was lowered.
   */
  method RoundDigit(digits: array<char>, ndigits: nat, delta: u64, rem: u64, kappa: u64, frac: u64)
      returns (ghost j: nat)
    requires 1 <= ndigits <= digits.Length && IsDigit(digits[ndigits - 1])
    requires kappa > 0 && rem <= delta && frac <= delta
    requires DigitOf(digits[ndigits - 1]) * kappa + rem >= delta
    modifies digits
    ensures j <= old(DigitOf(digits[ndigits - 1]))
    ensures digits[..] == old(digits[..])[ndigits - 1 := DigitChar(old(DigitOf(digits[ndigits - 1])) - j)]
    ensures rem + j * kappa <= delta
    ensures forall i: nat :: rem + i * kappa <= delta ==>
      Distance(rem + j * kappa, frac) <= Distance(rem + i * kappa, frac)
  {
    ghost var d := DigitOf(digits[ndigits - 1]);
    var r: u64 := rem;
    j := 0;
    while r < frac && delta - r >= kappa && (r + kappa < frac || frac - r > r + kappa - frac)
      invariant r == rem + j * kappa <= delta && j <= d
      invariant digits[..] == old(digits[..])[ndigits - 1 := DigitChar(d - j)]
      invariant forall i: nat :: i < j ==> Distance(r, frac) < Distance(rem + i * kappa, frac)
      decreases delta - r
    {
      StepMore(j, kappa);
      MoreSteps(d, j, kappa);
      ghost var before := r;
      assert digits[ndigits - 1] == digits[..][ndigits - 1] == DigitChar(d - j);
      digits[ndigits - 1] := (digits[ndigits - 1] as int - 1) as char;
      r := r + kappa;
      j := j + 1;
    }
    forall i: nat | rem + i * kappa <= delta
      ensures Distance(rem + j * kappa, frac) <= Distance(rem + i * kappa, frac)
    {
      MoreSteps(j, i, kappa);
    }
  }

  // ----- Why the result is right, on one common scale -----

  lemma Lowered(v: nat, j: nat, g: nat)
    requires j <= v
    ensures (v - j) * g == v * g - j * g
  {
  }

  /** The lowered digits stay in the interval. */
  lemma StaysWithin(v: nat, j: nat, g: nat, rem: nat, top: nat, delta: nat)
    requires top == v * g + rem && delta <= top && j <= v && rem + j * g <= delta
    ensures top - delta <= (v - j) * g <= top
  {
    Lowered(v, j, g);
  }

  /** No multiple of ten units lies in the interval: the digit before could not be the last. */
  lemma NoShorter(vp: nat, d0: nat, g: nat, rem: nat, top: nat, delta: nat, m: nat)
    requires top == (10 * vp + d0) * g + rem && delta <= top && d0 <= 9 && rem < g
    requires d0 * g + rem >= delta
    ensures !(top - delta < m * (10 * g) <= top)
  {
    assert (10 * vp + d0) * g == vp * (10 * g) + d0 * g;
    MoreSteps(d0, 9, g);
    if m <= vp {
      MoreSteps(m, vp, 10 * g);
    } else {
      MoreSteps(vp, m, 10 * g);
    }
  }

  /** The lowered digits are the closest of all multiples in the interval. */
  lemma IsClosest(v: nat, j: nat, g: nat, rem: nat, top: nat, delta: nat, frac: nat, m: nat)
    requires top == v * g + rem && rem < g && frac <= delta <= top && j <= v
    requires forall i: nat :: rem + i * g <= delta ==> Distance(rem + j * g, frac) <= Distance(rem + i * g, frac)
    requires top - delta <= m * g <= top
    ensures Distance((v - j) * g, top - frac) <= Distance(m * g, top - frac)
  {
    Lowered(v, j, g);
    if m > v { MoreSteps(v, m, g); }
    Lowered(v, v - m, g);
    assert rem + (v - m) * g <= delta;
  }

  /** What is known when the remainder first fits into the interval. */
  ghost predicate Fits(vp: nat, d0: nat, kappa: int, one: nat, rem: nat, low: nat, w: nat, high: nat) {
    var g, s := Unit(kappa) * one, Fine(kappa);
    && low <= w <= high && d0 <= 9 && rem < g
    && high * s == (10 * vp + d0) * g + rem
    && rem <= (high - low) * s <= d0 * g + rem
  }

  lemma Scaled(low: nat, high: nat, s: nat)
    requires low <= high
    ensures (high - low) * s == high * s - low * s && low * s <= high * s
  {
    MoreSteps(low, high, s);
  }

  lemma Finish(vp: nat, d0: nat, j: nat, kappa: int, one: nat, rem: nat, low: nat, w: nat, high: nat)
    requires Fits(vp, d0, kappa, one, rem, low, w, high) && j <= d0
    requires var g, s := Unit(kappa) * one, Fine(kappa);
      && rem + j * g <= (high - low) * s
      && forall i: nat :: rem + i * g <= (high - low) * s ==>
           Distance(rem + j * g, (high - w) * s) <= Distance(rem + i * g, (high - w) * s)
    ensures Within(10 * vp + d0 - j, kappa, one, low, high)
    ensures NoneCoarser(kappa, one, low, high)
    ensures Closest(10 * vp + d0 - j, kappa, one, low, high, w)
  {
    var g, s, v := Unit(kappa) * one, Fine(kappa), 10 * vp + d0;
    Scaled(low, high, s);
    Scaled(w, high, s);
    Scaled(low, w, s);
    hide Unit, Fine;
    StaysWithin(v, j, g, rem, high * s, (high - low) * s);
    forall m: nat ensures !(low * s < m * (10 * g) <= high * s) {
      NoShorter(vp, d0, g, rem, high * s, (high - low) * s, m);
    }
    forall m: nat | Within(m, kappa, one, low, high) ensures Distance((v - j) * g, w * s) <= Distance(m * g, w * s) {
      IsClosest(v, j, g, rem, high * s, (high - low) * s, (high - w) * s, m);
    }
  }

  // ----- Counting digits -----

  predicate Leading(ds: seq<char>) { ds == [] || ds[0] != '0' }

  lemma {:induction false} ValueAtLeast(ds: seq<char>)
    requires AllDigits(ds) && ds != [] && Leading(ds)
    ensures Pow10(|ds| - 1) <= Value(ds)
  {
    if |ds| > 1 {
      ValueAtLeast(ds[..|ds| - 1]);
      assert Pow10(|ds| - 1) == 10 * Pow10(|ds| - 2);
    } else {
      assert Value(ds[..0]) == 0;
    }
  }

  /** ds are the leading digits of high in units of 10^kappa * one, with rem left over. */
  ghost predicate Partial(ds: seq<char>, kappa: int, one: nat, rem: nat, high: nat) {
    && AllDigits(ds) && Leading(ds)
    && high * Fine(kappa) == Value(ds) * (Unit(kappa) * one) + rem
    && rem < Unit(kappa) * one
  }

  lemma CountArithmetic(p: nat, v: nat, g: nat, high: nat, s: nat, delta: nat, rem: nat, q: nat)
    requires p <= v && v * g <= high * s && high <= q * delta && delta * s <= rem < g && q > 0
    ensures p < q
  {
    MoreSteps(p, v, g);
    MoreSteps(high, q * delta, s);
    Associate(q, delta, s);
    Commute(q, delta * s, rem, g);
    if q <= p { MoreSteps(q, p, g); }
  }

  lemma Associate(a: nat, b: nat, c: nat)
    ensures a * b * c == a * (b * c)
  {
  }

  lemma Commute(q: nat, a: nat, rem: nat, g: nat)
    requires a <= rem < g && q > 0
    ensures q * a < q * g
  {
    MoreSteps(a, g, q);
  }

  /** While the remainder does not fit into the interval there are at most 16 digits. */
  lemma CountBound(ds: seq<char>, kappa: int, one: nat, rem: nat, low: nat, high: nat)
    requires Partial(ds, kappa, one, rem, high) && low <= high <= Pow10(16) * (high - low)
    requires (high - low) * Fine(kappa) <= rem
    ensures |ds| <= 16
  {
    if ds != [] {
      ValueAtLeast(ds);
      PowPositive(10, 16);
      hide Unit, Fine, Pow10, Value;
      CountArithmetic(Pow10(|ds| - 1), Value(ds), Unit(kappa) * one, high, Fine(kappa), high - low, rem, Pow10(16));
      Reflect(|ds| - 1);
    }
  }

  lemma Reflect(n: nat)
    requires Pow10(n) < Pow10(16)
    ensures n < 16
  {
    PowReflects(10, n, 16);
  }

  /** The digits, their decimal position and the interval they were generated for. */
  ghost predicate Result(ds: seq<char>, kappa: int, one: nat, low: nat, w: nat, high: nat) {
    && 1 <= |ds| <= 17 && AllDigits(ds) && ds[0] != '0' && -16 <= kappa <= 9
    && Within(Value(ds), kappa, one, low, high)
    && NoneCoarser(kappa, one, low, high)
    && Closest(Value(ds), kappa, one, low, high, w)
  }

  /** Rounding the last digit of fitting digits gives the result. */
  lemma Rounded(ds: seq<char>, rounded: seq<char>, j: nat, kappa: int, one: nat, rem: nat, low: nat, w: nat, high: nat)
    requires 1 <= |ds| <= 17 && AllDigits(ds) && ds[0] != '0' && -16 <= kappa <= 9
    requires Fits(Value(ds[..|ds| - 1]), DigitOf(ds[|ds| - 1]), kappa, one, rem, low, w, high)
    requires j <= DigitOf(ds[|ds| - 1]) && (|ds| == 1 ==> j < DigitOf(ds[0]))
    requires rounded == ds[|ds| - 1 := DigitChar(DigitOf(ds[|ds| - 1]) - j)]
    requires var g, s := Unit(kappa) * one, Fine(kappa);
      && rem + j * g <= (high - low) * s
      && forall i: nat :: rem + i * g <= (high - low) * s ==>
           Distance(rem + j * g, (high - w) * s) <= Distance(rem + i * g, (high - w) * s)
    ensures Result(rounded, kappa, one, low, w, high)
  {
    var last := |ds| - 1;
    assert rounded == ds[..last] + [DigitChar(DigitOf(ds[last]) - j)];
    ValueAppend(ds[..last], DigitChar(DigitOf(ds[last]) - j));
    Finish(Value(ds[..last]), DigitOf(ds[last]), j, kappa, one, rem, low, w, high);
  }

  // ----- The two loops -----

  lemma UnitStep(kappa: nat)
    requires kappa >= 1
    ensures Unit(kappa) == 10 * Unit(kappa - 1) && Fine(kappa) == Fine(kappa - 1) == 1
    ensures Unit(kappa) == Pow10(kappa) && Unit(kappa - 1) == Pow10(kappa - 1) > 0
  {
    PowPositive(10, kappa - 1);
  }

  lemma FineStep(kappa: int)
    requires kappa <= 0
    ensures Fine(kappa - 1) == 10 * Fine(kappa) && Unit(kappa) == Unit(kappa - 1) == 1
    ensures Fine(kappa) == Pow10(-kappa) > 0
  {
    PowPositive(10, -kappa);
  }

  lemma SplitUnit(v: nat, d: nat, div: nat, one: nat, p: nat, part2: nat)
    ensures v * (10 * div * one) + ((d * div + p) * one + part2) == (10 * v + d) * (div * one) + (p * one + part2)
  {
    assert v * (10 * div * one) == 10 * v * (div * one);
    assert (d * div + p) * one == d * (div * one) + p * one;
    assert (10 * v + d) * (div * one) == 10 * v * (div * one) + d * (div * one);
  }

  /** ds with one more digit; a leading zero is not written. */
  function Extend(ds: seq<char>, d: nat): seq<char>
    requires d < 10
  {
    if d == 0 && ds == [] then [] else ds + [DigitChar(d)]
  }

  lemma ExtendValue(ds: seq<char>, d: nat)
    requires AllDigits(ds) && Leading(ds) && d < 10
    ensures var t := Extend(ds, d); AllDigits(t) && Leading(t) && Value(t) == 10 * Value(ds) + d
    ensures DigitOf(DigitChar(d)) == d
  {
    if !(d == 0 && ds == []) { ValueAppend(ds, DigitChar(d)); }
  }

  /** One digit of the integer part. */
  lemma IntegerStep(ds: seq<char>, kappa: nat, one: nat, part1: nat, part2: nat, high: nat)
    requires kappa >= 1 && part2 < one && part1 < Pow10(kappa)
    requires Partial(ds, kappa, one, part1 * one + part2, high)
    ensures Pow10(kappa - 1) > 0 && part1 / Pow10(kappa - 1) < 10
    ensures var d, p := part1 / Pow10(kappa - 1), part1 % Pow10(kappa - 1);
      && Partial(Extend(ds, d), kappa - 1, one, p * one + part2, high)
      && d * (Unit(kappa - 1) * one) + (p * one + part2) == part1 * one + part2
  {
    UnitStep(kappa);
    var div := Pow10(kappa - 1);
    var d, p := part1 / div, part1 % div;
    assert Pow10(kappa) == 10 * div;
    hide Unit, Fine, Pow10, Pow, Value;
    Quotient(part1, div);
    ExtendValue(ds, d);
    SplitUnit(Value(ds), d, div, one, p, part2);
    SplitUnit(0, d, div, one, p, part2);
    MoreSteps(p, div, one);
    assert 10 * div * one == (10 * div) * one;
  }

  lemma Quotient(x: nat, div: nat)
    requires div > 0 && x < 10 * div
    ensures x / div < 10 && x == (x / div) * div + x % div && x % div < div
  {
  }

  /** A first digit has been written by the time the remainder fits. */
  lemma SomeDigit(ds: seq<char>, kappa: int, one: nat, rem: nat, low: nat, high: nat)
    requires kappa >= 0 && Partial(ds, kappa, one, rem, high) && 0 < low <= high && rem <= high - low
    ensures ds != []
  {
  }

  /** The place value of a digit that has been written fits into 64 bits. */
  lemma PlaceFits(ds: seq<char>, kappa: nat, one: nat, rem: nat, high: u64)
    requires Partial(ds, kappa, one, rem, high) && ds != []
    ensures Unit(kappa) * one <= high
  {
    ValueAtLeast(ds);
    PowPositive(10, |ds| - 1);
    MoreSteps(1, Value(ds), Unit(kappa) * one);
  }

  ghost predicate InRange(one: nat, low: int, w: int, high: int) {
    0 < low <= w <= high && one <= high <= Pow10(16) * (high - low)
  }

  /** The digits so far have just been extended by d, and what remains fits into the interval. */
  ghost predicate JustFits(ds: seq<char>, d: nat, n: nat, kappa: int, one: nat, rem: nat, low: nat, w: nat, high: nat) {
    && d < 10 && 1 <= n <= 17 && -16 <= kappa <= 9 && low <= w <= high
    && AllDigits(ds) && Leading(ds) && Extend(ds, d) == ds + [DigitChar(d)] && n == |ds| + 1
    && Partial(Extend(ds, d), kappa, one, rem, high)
    && rem <= (high - low) * Fine(kappa) <= d * (Unit(kappa) * one) + rem
    && (n == 1 ==> (high - low) * Fine(kappa) < d * (Unit(kappa) * one) + rem)
  }

  lemma JustFitsFits(ds: seq<char>, d: nat, n: nat, kappa: int, one: nat, rem: nat, low: nat, w: nat, high: nat)
    requires JustFits(ds, d, n, kappa, one, rem, low, w, high)
    ensures Fits(Value(ds), d, kappa, one, rem, low, w, high)
    ensures var t := Extend(ds, d); t[..|t| - 1] == ds && t[|t| - 1] == DigitChar(d) && DigitOf(DigitChar(d)) == d
    ensures AllDigits(Extend(ds, d)) && Extend(ds, d)[0] != '0'
    ensures Unit(kappa) * one > 0
  {
    hide Unit, Fine;
    ExtendValue(ds, d);
  }

  /** Rounds the digit just written and is done. */
  method RoundLast(digits: array<char>, ghost ds: seq<char>, ghost d: nat, n: nat, ghost kappa: int, ghost one: nat,
                   delta: u64, rem: u64, place: u64, frac: u64, ghost low: nat, ghost w: nat, ghost high: nat)
    requires digits.Length == 18 && JustFits(ds, d, n, kappa, one, rem, low, w, high)
    requires digits[..n] == Extend(ds, d)
    requires place == Unit(kappa) * one && delta == (high - low) * Fine(kappa) && frac == (high - w) * Fine(kappa)
    modifies digits
    ensures Result(digits[..n], kappa, one, low, w, high)
  {
    JustFitsFits(ds, d, n, kappa, one, rem, low, w, high);
    MoreSteps(high - w, high - low, Fine(kappa));
    ghost var written := digits[..n];
    assert digits[n - 1] == written[n - 1];
    hide Unit, Fine, Value, Result, Fits;
    ghost var j := RoundDigit(digits, n, delta, rem, place, frac);
    if n == 1 && j >= d { MoreSteps(d, j, place); }
    Rounded(written, digits[..n], j, kappa, one, rem, low, w, high);
  }

  /** Writes a digit, unless it is a leading zero. */
  method WriteDigit(digits: array<char>, idx: nat, digit: nat) returns (n: nat)
    requires digits.Length == 18 && idx <= 17 && digit < 10
    modifies digits
    ensures idx <= n <= idx + 1 && digits[..n] == Extend(old(digits[..idx]), digit)
  {
    n := idx;
    if digit != 0 || idx != 0 {
      digits[idx] := DigitChar(digit);
      n := idx + 1;
    }
  }

  /**
   * The first loop: digits before the decimal point of high / one. Stops, rounded,
   * as soon as the remainder fits into the interval.
   */
  method IntegerDigits(high: u64, low: u64, w: u64, one: u64, digits: array<char>)
      returns (done: bool, n: nat, kappa: int)
    requires digits.Length == 18 && InRange(one, low, w, high) && TWO_32 <= one
    modifies digits
    ensures n <= 10
    ensures done ==> Result(digits[..n], kappa, one, low, w, high)
    ensures !done ==> kappa == 0 && Partial(digits[..n], 0, one, high % one, high) && high % one > high - low
  {
    hide Value, Unit, Fine, Result, Partial, JustFits, Extend, Tens, Pow, Pow10, IsDigit, AllDigits, Leading;
    var wfrac: u64, delta: u64 := high - w, high - low;
    var part1: u64, part2: u64 := high / one, high % one;
    StartsPartial(high, one);
    n, kappa, done := 0, 10, false;
    assert digits[..0] == [];
    var divp := 10;
    while kappa > 0
      invariant 0 <= kappa <= 10 && divp == 20 - kappa && n <= 10 - kappa
      invariant part2 == high % one && part1 < Pow10(kappa)
      invariant Partial(digits[..n], kappa, one, part1 * one + part2, high)
      invariant part1 * one + part2 > delta
    {
      TensArePowers(divp);
      var div: u64 := Tens(divp);
      ghost var ds, rem := digits[..n], part1 * one + part2;
      IntegerStep(ds, kappa, one, part1, part2, high);
      DivMod(part1, div);
      var digit: u64 := part1 / div;
      n := WriteDigit(digits, n, digit);
      part1 := part1 % div;
      kappa := kappa - 1;
      divp := divp + 1;
      NatProduct(part1, one);
      PartFits(digits[..n], kappa, one, part1 * one + part2, high);
      var tmp: u64 := part1 * one + part2;
      if tmp <= delta {
        IntegerFits(ds, digit, n, kappa, one, rem, tmp, low, w, high);
        var place: u64 := div * one;
        RoundLast(digits, ds, digit, n, kappa, one, delta, tmp, place, wfrac, low, w, high);
        done := true;
        return;
      }
    }
    OneIsPower();
  }

  /** Where the integer part stops, the digit just written is the last one. */
  lemma IntegerFits(ds: seq<char>, d: nat, n: nat, kappa: nat, one: nat, before: nat, rem: nat, low: nat, w: nat, high: u64)
    requires kappa <= 9 && n <= 10 && 0 < low <= w <= high && d < 10
    requires Partial(ds, kappa + 1, one, before, high) && n == |Extend(ds, d)|
    requires Partial(Extend(ds, d), kappa, one, rem, high)
    requires before == d * (Unit(kappa) * one) + rem && before > high - low >= rem
    ensures JustFits(ds, d, n, kappa, one, rem, low, w, high)
    ensures Pow10(kappa) * one <= high && Pow10(kappa) * one == Unit(kappa) * one
    ensures (high - low) * Fine(kappa) == high - low && (high - w) * Fine(kappa) == high - w
  {
    UnitStep(kappa + 1);
    SomeDigit(Extend(ds, d), kappa, one, rem, low, high);
    PlaceFits(Extend(ds, d), kappa, one, rem, high);
    hide Unit, Fine, Pow10, Value;
  }

  lemma OneIsPower()
    ensures Pow10(0) == 1
  {
  }

  lemma NatProduct(a: nat, b: nat)
    ensures a * b >= 0
  {
  }

  lemma DivMod(x: nat, d: nat)
    requires d > 0
    ensures x == (x / d) * d + x % d && 0 <= x % d < d && 0 <= x / d <= x
  {
    var q := x / d;
    assert x == q * d + x % d;
    MoreSteps(1, d, q);
  }

  lemma StartsPartial(high: u64, one: u64)
    requires TWO_32 <= one <= high
    ensures high / one < Pow10(10) && Partial([], 10, one, (high / one) * one + high % one, high)
  {
    assert Pow10(10) == 10000000000 && Unit(10) == 10000000000 && Fine(10) == 1 && Value([]) == 0;
    hide Pow10, Pow, Unit, Fine, Value;
    DivMod(high, one);
    IntegerPart(high, one, high / one);
    MoreSteps(high / one + 1, 10000000000, one);
    StepMore(high / one, one);
  }

  lemma IntegerPart(high: u64, one: u64, part1: nat)
    requires TWO_32 <= one && part1 * one <= high
    ensures part1 < TWO_32
  {
    if part1 >= TWO_32 {
      MoreSteps(TWO_32, part1, one);
    }
  }

  lemma PartFits(ds: seq<char>, kappa: nat, one: nat, rem: nat, high: u64)
    requires Partial(ds, kappa, one, rem, high)
    ensures rem <= high
  {
    assert Fine(kappa) == 1;
    hide Unit, Fine;
    assert Value(ds) * (Unit(kappa) * one) >= 0;
  }

  lemma NextFraction(v: nat, d: nat, one: nat, rem: nat, high: nat, s: nat, t: nat)
    requires one > 0 && high * s == v * one + rem && t == 10 * s && d == 10 * rem / one
    ensures high * t == (10 * v + d) * one + (10 * rem) % one
    ensures d * one + (10 * rem) % one == 10 * rem
  {
    DivMod(10 * rem, one);
    assert high * (10 * s) == 10 * (high * s);
    assert (10 * v + d) * one == 10 * (v * one) + d * one;
  }

  /** One digit behind the decimal point. */
  lemma FractionStep(ds: seq<char>, kappa: int, one: nat, rem: nat, high: nat)
    requires kappa <= 0 && Partial(ds, kappa, one, rem, high) && rem < one
    ensures 10 * rem / one < 10
    ensures var d, r := 10 * rem / one, (10 * rem) % one;
      && Partial(Extend(ds, d), kappa - 1, one, r, high)
      && d * (Unit(kappa - 1) * one) + r == 10 * rem && Unit(kappa - 1) * one == one
  {
    FineStep(kappa);
    Quotient(10 * rem, one);
    ExtendValue(ds, 10 * rem / one);
    var s, t, u, v := Fine(kappa), Fine(kappa - 1), Unit(kappa), Value(ds);
    hide Unit, Fine, Value, Extend;
    assert high * s == v * (u * one) + rem;
    assert u * one == one;
    NextFraction(v, 10 * rem / one, one, rem, high, s, t);
  }

  lemma FewerSteps(delta: nat, q: nat, s: nat, rem: nat)
    requires delta * s <= rem < q * delta
    ensures s < q && delta > 0
  {
    if s >= q { MoreSteps(q, s, delta); }
  }

  /** The interval outgrows the remainder after at most 16 digits behind the decimal point. */
  lemma FractionBound(kappa: int, one: nat, rem: nat, low: nat, high: nat)
    requires kappa <= 0 && low <= high && one <= high <= Pow10(16) * (high - low)
    requires (high - low) * Fine(kappa) <= rem < one
    ensures kappa >= -15 && high > low
  {
    hide Pow10, Pow, Fine, Unit;
    FineStep(kappa);
    FewerSteps(high - low, Pow10(16), Fine(kappa), rem);
    Reflect(-kappa);
  }

  /** The interval has grown past the remainder by the digit d: that digit is the last one. */
  lemma FractionFits(ds: seq<char>, d: nat, n: nat, kappa: int, one: nat, before: nat, rem: nat, low: nat, w: nat, high: nat)
    requires -16 <= kappa < 0 && n <= 17 && low <= w <= high && d < 10 && ds != []
    requires AllDigits(ds) && Leading(ds) && n == |Extend(ds, d)| && Partial(Extend(ds, d), kappa, one, rem, high)
    requires d * (Unit(kappa) * one) + rem == 10 * before
    requires rem < (high - low) * Fine(kappa) <= 10 * before
    ensures JustFits(ds, d, n, kappa, one, rem, low, w, high)
    ensures (high - w) * Fine(kappa) <= (high - low) * Fine(kappa)
  {
    MoreSteps(high - w, high - low, Fine(kappa));
    hide Unit, Fine, Partial;
  }

  /** One digit before the decimal point is the least: high is not below one. */
  lemma NotEmpty(ds: seq<char>, one: nat, rem: nat, high: nat)
    requires Partial(ds, 0, one, rem, high) && one <= high
    ensures ds != []
  {
    assert Unit(0) == 1 && Fine(0) == 1;
  }

  lemma PartialParts(ds: seq<char>, kappa: int, one: nat, rem: nat, high: nat)
    requires Partial(ds, kappa, one, rem, high)
    ensures AllDigits(ds) && Leading(ds)
  {
  }

  lemma TenTimes(delta: nat, s: nat, t: nat)
    requires t == 10 * s
    ensures delta * t == 10 * (delta * s)
  {
  }

  /** The unit by which the second loop scales the distance to w. */
  lemma UnitFits(kappa: int)
    requires -16 <= kappa < 0
    ensures Tens((19 + kappa) as nat) == Fine(kappa)
  {
    TensArePowers(19 + kappa);
  }

  /** The second loop: digits behind the decimal point, until the remainder fits into the interval. */
  method FractionDigits(high: u64, low: u64, w: u64, one: u64, n0: nat, digits: array<char>)
      returns (n: nat, kappa: int)
    requires digits.Length == 18 && InRange(one, low, w, high) && TWO_32 <= one <= 0x1000_0000_0000_0000
    requires n0 <= 10 && Partial(digits[..n0], 0, one, high % one, high) && high % one > high - low
    modifies digits
    ensures n <= 17 && Result(digits[..n], kappa, one, low, w, high)
  {
    hide Value, Unit, Fine, Result, Partial, JustFits, Extend, Tens, Pow, Pow10, IsDigit, AllDigits, Leading;
    NotEmpty(digits[..n0], one, high % one, high);
    var wfrac: u64, delta: u64, part2: u64 := high - w, high - low, high % one;
    n, kappa := n0, 0;
    var unit := 18;
    FineZero();
    while true
      invariant unit == 18 + kappa && -16 <= kappa <= 0 && 1 <= n <= 17
      invariant delta == (high - low) * Fine(kappa) <= part2 < one
      invariant Partial(digits[..n], kappa, one, part2, high)
      decreases 16 + kappa
    {
      FractionBound(kappa, one, part2, low, high);
      CountBound(digits[..n], kappa, one, part2, low, high);
      ghost var ds, before := digits[..n], part2;
      PartialParts(ds, kappa, one, part2, high);
      FractionStep(ds, kappa, one, part2, high);
      FineStep(kappa);
      TenTimes(high - low, Fine(kappa), Fine(kappa - 1));
      part2 := part2 * 10;
      delta := delta * 10;
      kappa := kappa - 1;
      DivMod(part2, one);
      var digit: u64 := part2 / one;
      n := WriteDigit(digits, n, digit);
      part2 := part2 % one;
      if part2 < delta {
        FractionFits(ds, digit, n, kappa, one, before, part2, low, w, high);
        UnitFits(kappa);
        NatProduct(wfrac, Tens(unit));
        var frac: u64 := wfrac * Tens(unit);
        RoundLast(digits, ds, digit, n, kappa, one, delta, part2, one, frac, low, w, high);
        return;
      }
      unit := unit - 1;
    }
  }

  lemma FineZero()
    ensures Fine(0) == 1
  {
  }

  /**
   * The digits of a multiple of a power of ten between lower and upper, and k plus
   * the exponent of that power.
   */
  method GenerateDigits(w: Fp, upper: Fp, lower: Fp, digits: array<char>, k0: int) returns (n: nat, k: int)
    requires digits.Length == 18 && -60 <= upper.exp <= -32
    requires InRange(Pow2(-upper.exp), lower.frac, w.frac, upper.frac)
    modifies digits
    ensures n <= 17
    ensures Result(digits[..n], k - k0, Pow2(-upper.exp), lower.frac, w.frac, upper.frac)
  {
    hide InRange, Result, Partial;
    OneBounds(-upper.exp);
    var one: u64 := Pow2(-upper.exp);
    var done, count, kappa := IntegerDigits(upper.frac, lower.frac, w.frac, one, digits);
    n := count;
    if !done {
      n, kappa := FractionDigits(upper.frac, lower.frac, w.frac, one, count, digits);
    }
    k := k0 + kappa;
  }

  lemma OneBounds(shift: nat)
    requires 32 <= shift <= 60
    ensures TWO_32 <= Pow2(shift) <= 0x1000_0000_0000_0000
  {
    TwoPowers();
    PowIncreases(2, 32, shift);
    PowIncreases(2, shift, 60);
  }
}
