/** Printing a double: the shortest digits of a safe interval around it, by scaling with a cached power of ten. */
module Grisu {
  import opened Powers
  import opened DiyFp
  import opened CachedPowers
  import opened DigitGeneration

  // ----- Choosing the power -----

  const EXP_MIN: int := -60
  const EXP_MAX: int := -32

  function Truncate(x: real): int { if x >= 0.0 then x.Floor else -(-x).Floor }

  /** The exponent of entry i after multiplication with a number of exponent exp. */
  function Current(exp: int, i: nat): int
    requires i < N_POWERS
  {
    exp + PowerTen(i).exp + 64
  }

  lemma {:induction false} Ascending(exp: int, i: nat, j: nat)
    requires i < j < N_POWERS
    ensures Current(exp, i) < Current(exp, j)
    decreases j - i
  {
    hide PowerTen, HalfUnit;
    TableIsAccurate(i);
    if i + 1 < j { Ascending(exp, i + 1, j); }
  }

  /** Neighbouring entries are closer than the window is wide, so one of them hits it. */
  lemma {:induction false} SomeEntryFits(exp: int, i: nat) returns (t: nat)
    requires i < N_POWERS && Current(exp, i) < EXP_MIN && Current(exp, N_POWERS - 1) >= EXP_MIN
    ensures t < N_POWERS && EXP_MIN <= Current(exp, t) <= EXP_MAX
    decreases N_POWERS - i
  {
    hide PowerTen, HalfUnit;
    TableIsAccurate(i);
    t := i + 1;
    if Current(exp, t) < EXP_MIN { t := SomeEntryFits(exp, t); }
  }

  lemma FirstAndLast()
    ensures PowerTen(0).exp == -1220 && PowerTen(N_POWERS - 1).exp == 1066
  {
  }

  function Log10Estimate(exp: int): real { (-(exp + N_POWERS)) as real * 0.30102999566398114 }

  /**
   * The product of the estimate as binary64 arithmetic gives it: any number that is off
   * by less than 1/2, which is far more than its rounding.
   */
  method RoundedEstimate(exp: int) returns (product: real)
    ensures -0.5 < product - Log10Estimate(exp) < 0.5
  {
    product := *;
    if !(-0.5 < product - Log10Estimate(exp) < 0.5) {
      product := Log10Estimate(exp);
    }
  }

  /** A table entry that brings a number of exponent exp into the window, and its decimal exponent. */
  method FindCachedPow10(exp: int) returns (p: Fp, k: int)
    requires -1137 <= exp <= 960
    ensures HalfUnit(p, k) && TWO_63 <= p.frac && -348 <= k <= 340
    ensures EXP_MIN <= exp + p.exp + 64 <= EXP_MAX
  {
    hide PowerTen, HalfUnit;
    var product := RoundedEstimate(exp);
    var approx := Truncate(product);
    assert -316 <= approx <= 317;
    var idx := (approx - FIRST_POWER) / STEP_POWERS;
    FirstAndLast();
    ghost var t := SomeEntryFits(exp, 0);
    while true
      invariant 0 <= idx < N_POWERS
      decreases if idx < t then t - idx else idx - t
    {
      if idx < t { Ascending(exp, idx, t); }
      if idx > t { Ascending(exp, t, idx); }
      var current := exp + PowerTen(idx).exp + 64;
      if current < EXP_MIN {
        idx := idx + 1;
      } else if current > EXP_MAX {
        idx := idx - 1;
      } else {
        break;
      }
    }
    TableIsAccurate(idx);
    k := FIRST_POWER + idx * STEP_POWERS;
    p := PowerTen(idx);
  }

  // ----- The interval that rounds to w -----

  function ValueOf(w: Fp): real { w.frac as real * Scale(2, w.exp) }

  /** Halfway to the next larger double. */
  function UpperMidpoint(w: Fp): real { (2 * w.frac + 1) as real * Scale(2, w.exp - 1) }

  /** Halfway to the next smaller double. Below a power of two the doubles are twice as dense. */
  function LowerMidpoint(w: Fp): real {
    if w.frac == HIDDEN_BIT && w.exp > -1074
    then (4 * w.frac - 1) as real * Scale(2, w.exp - 2)
    else (2 * w.frac - 1) as real * Scale(2, w.exp - 1)
  }

  /** A finite double or zero; (HIDDEN_BIT, 972) stands for infinity, at 2^1024. */
  predicate IsBinary64(x: Fp) {
    x.frac < 2 * HIDDEN_BIT && -1074 <= x.exp <= 972 && (x.exp > -1074 ==> x.frac >= HIDDEN_BIT)
  }

  function Gap(x: real, y: real): real { if x < y then y - x else x - y }

  /** The lower edge the printer works with: it takes every power of two for one below which doubles are denser. */
  function LowerEdge(w: Fp): real {
    if w.frac == HIDDEN_BIT
    then (4 * w.frac - 1) as real * Scale(2, w.exp - 2)
    else (2 * w.frac - 1) as real * Scale(2, w.exp - 1)
  }

  lemma Halves(e: int) returns (q: real)
    ensures q > 0.0 && Scale(2, e - 2) == q && Scale(2, e - 1) == 2.0 * q && Scale(2, e) == 4.0 * q
  {
    hide Scale;
    q := Scale(2, e - 2);
    ScaleStep(2, e - 2);
    ScaleStep(2, e - 1);
  }

  /** The next smaller double, or 0. */
  function Below(w: Fp): real {
    if w.frac == HIDDEN_BIT && w.exp > -1074
    then (2 * w.frac - 1) as real * Scale(2, w.exp - 1)
    else (w.frac - 1) as real * Scale(2, w.exp)
  }

  lemma {:induction false} ScaleGrows(e: int, n: nat)
    ensures Scale(2, e) <= Scale(2, e + n)
    ensures n >= 1 ==> 2.0 * Scale(2, e) <= Scale(2, e + n)
  {
    hide Scale;
    if n > 0 {
      ScaleGrows(e, n - 1);
      ScaleStep(2, e + n - 1);
    }
  }

  lemma FracTimes(a: int, b: int, c: real)
    requires a <= b && c > 0.0
    ensures a as real * c <= b as real * c
  {
    TimesMonotone(a as real, b as real, c);
  }

  lemma Congruent(a: real, x: real, y: real)
    requires x == y
    ensures a * x == a * y
  {
  }

  /** The next larger double, or 2^1024. */
  function Above(w: Fp): real { (w.frac + 1) as real * Scale(2, w.exp) }

  lemma Combined(x: real, f: real, a: real, b: real, c: real, k: real, q: real)
    requires x == a * f + b && c == k * q
    ensures x * c == (a * k) * (f * q) + (b * k) * q
  {
    assert x * c == (a * f) * (k * q) + b * (k * q);
    assert (a * f) * (k * q) == (a * k) * (f * q);
  }

  /** All the products below, in units of fq = f * q and q. */
  lemma Scattered(f: int, q: real, h: real, c: real, fq: real)
    requires h == 2.0 * q && c == 4.0 * q && fq == f as real * q
    ensures f as real * c == 4.0 * fq && (f + 1) as real * c == 4.0 * fq + 4.0 * q
    ensures (f - 1) as real * c == 4.0 * fq - 4.0 * q
    ensures (2 * f + 1) as real * h == 4.0 * fq + 2.0 * q
    ensures (2 * f - 1) as real * h == 4.0 * fq - 2.0 * q
    ensures (4 * f - 1) as real * q == 4.0 * fq - q
  {
    var r := f as real;
    Combined(r, r, 1.0, 0.0, c, 4.0, q);
    Combined((f + 1) as real, r, 1.0, 1.0, c, 4.0, q);
    Combined((f - 1) as real, r, 1.0, -1.0, c, 4.0, q);
    Combined((2 * f + 1) as real, r, 2.0, 1.0, h, 2.0, q);
    Combined((2 * f - 1) as real, r, 2.0, -1.0, h, 2.0, q);
    Combined((4 * f - 1) as real, r, 4.0, -1.0, q, 1.0, q);
  }

  lemma MidpointsAreHalfway(w: Fp)
    requires IsFiniteNonzero(w)
    ensures 2.0 * UpperMidpoint(w) == ValueOf(w) + Above(w)
    ensures 2.0 * LowerMidpoint(w) == ValueOf(w) + Below(w)
    ensures Below(w) < ValueOf(w) < Above(w)
  {
    hide Scale;
    var q := Halves(w.exp);
    Scattered(w.frac, q, Scale(2, w.exp - 1), Scale(2, w.exp), w.frac as real * q);
  }

  lemma SameExponent(w: Fp, x: Fp)
    requires IsFiniteNonzero(w) && IsBinary64(x) && x != w && x.exp == w.exp
    ensures ValueOf(x) >= Above(w) || ValueOf(x) <= Below(w)
  {
    hide Scale;
    var c := Scale(2, w.exp);
    assert ValueOf(x) == x.frac as real * c by { Congruent(x.frac as real, c, Scale(2, x.exp)); }
    if x.frac > w.frac { FracTimes(w.frac + 1, x.frac, c); } else { FracTimes(x.frac, w.frac - 1, c); }
  }

  lemma Larger(a: real, b: real, s: real, t: real)
    requires 0.0 <= b <= a && 0.0 < t <= s
    ensures b * t <= a * s
  {
    TimesMonotone(b, a, t);
    if a > 0.0 { TimesMonotone(t, s, a); }
  }

  lemma TwiceAsLarge(a: real, b: real, m: real, s: real, t: real)
    requires a >= m && 0.0 <= b <= 2.0 * m && s >= 2.0 * t && t > 0.0
    ensures a * s >= b * t
  {
    Larger(a, b / 2.0, s, 2.0 * t);
    assert (b / 2.0) * (2.0 * t) == b * t;
  }

  lemma LargerExponent(w: Fp, x: Fp)
    requires IsFiniteNonzero(w) && IsBinary64(x) && x.exp > w.exp
    ensures ValueOf(x) >= Above(w)
  {
    hide Scale;
    var c, t := Scale(2, w.exp), Scale(2, x.exp);
    ScaleGrows(w.exp, x.exp - w.exp);
    TwiceAsLarge(x.frac as real, (w.frac + 1) as real, HIDDEN_BIT as real, t, c);
  }

  lemma SmallerExponent(w: Fp, x: Fp)
    requires IsFiniteNonzero(w) && IsBinary64(x) && x.exp < w.exp
    ensures ValueOf(x) <= Below(w)
  {
    hide Scale;
    var h, c, t := Scale(2, w.exp - 1), Scale(2, w.exp), Scale(2, x.exp);
    ScaleStep(2, w.exp - 1);
    ScaleGrows(x.exp, w.exp - 1 - x.exp);
    if w.frac > HIDDEN_BIT {
      TwiceAsLarge((w.frac - 1) as real, x.frac as real, HIDDEN_BIT as real, c, t);
    } else {
      Larger((2 * w.frac - 1) as real, x.frac as real, h, t);
    }
  }

  /** Whatever lies between the midpoints is closer to w than to every other double. */
  lemma ReadsBack(w: Fp, v: real, x: Fp)
    requires IsFiniteNonzero(w) && LowerMidpoint(w) < v < UpperMidpoint(w) && IsBinary64(x) && x != w
    ensures Gap(v, ValueOf(w)) < Gap(v, ValueOf(x))
  {
    if x.exp == w.exp {
      SameExponent(w, x);
    } else if x.exp > w.exp {
      LargerExponent(w, x);
    } else {
      SmallerExponent(w, x);
    }
    MidpointsAreHalfway(w);
    hide ValueOf, Above, Below, LowerMidpoint, UpperMidpoint, Scale;
  }

  /** That edge is never too low, and exact but for the smallest power of two that is not denormal. */
  lemma EdgeIsSafe(w: Fp)
    requires IsFiniteNonzero(w)
    ensures LowerMidpoint(w) <= LowerEdge(w) < ValueOf(w) < UpperMidpoint(w)
    ensures LowerMidpoint(w) == LowerEdge(w) <==> !(w.frac == HIDDEN_BIT && w.exp == -1074)
  {
    hide Scale;
    var q := Halves(w.exp);
    Scattered(w.frac, q, Scale(2, w.exp - 1), Scale(2, w.exp), w.frac as real * q);
  }

  // ----- One exponent for the three numbers -----

  lemma Halved(f: nat, b: nat)
    requires b > 0
    ensures (2 * f + 1) * Pow2(b - 1) == f * Pow2(b) + Pow2(b - 1) && Pow2(b) == 2 * Pow2(b - 1)
  {
    assert (2 * f + 1) * Pow2(b - 1) == f * (2 * Pow2(b - 1)) + Pow2(b - 1);
  }

  lemma ShiftBounds(f: nat, b: nat)
    requires f >= 1 && b >= 11 && (2 * f + 1) * Pow2(b - 1) < TWO_64
    ensures b <= 63
  {
    TwoPowers();
    Halved(f, b);
    PowPositive(2, b - 1);
    MoreSteps(1, f, Pow2(b));
    hide Pow;
    if b >= 64 { PowIncreases(2, 64, b); }
  }

  lemma NotLess(f: nat, x: nat, h: nat)
    requires TWO_63 <= f * x && f * (2 * h) + h < TWO_64
    ensures h < x
  {
    MoreSteps(x, h, f);
    assert f * (2 * h) == 2 * (f * h);
  }

  lemma NotMore(f: nat, x: nat, h: nat, q: nat)
    requires f * x < TWO_64 && q * (2 * h) == TWO_63 <= f * (2 * h) + h && h > 0
    ensures x < 4 * h
  {
    MoreSteps(4 * h, x, f);
    assert f * (4 * h) == 2 * (f * (2 * h));
    MoreSteps(f, q, 2 * h);
    MoreSteps(q, f, 2 * h);
  }

  /** The value and its upper boundary are normalized by the same shift. */
  lemma SameShift(f: nat, a: nat, b: nat)
    requires f >= 1 && b >= 11
    requires TWO_63 <= f * Pow2(a) < TWO_64 && TWO_63 <= (2 * f + 1) * Pow2(b - 1) < TWO_64
    ensures a == b
  {
    ShiftBounds(f, b);
    Halved(f, b);
    PowPositive(2, b - 1);
    hide Pow;
    NotLess(f, Pow2(a), Pow2(b - 1));
    PowReflects(2, b - 1, a);
    TwoPowers();
    PowAdd(2, 63 - b, b);
    NotMore(f, Pow2(a), Pow2(b - 1), Pow2(63 - b));
    Halved(0, b + 1);
    PowReflects(2, a, b + 1);
  }

  // ----- The interval leaves room for rounding -----

  function RoundedProduct(x: int, c: int): int { (x * c + TWO_63) / TWO_64 }

  lemma RoundedBounds(x: int, c: int)
    ensures x * c - TWO_63 < TWO_64 * RoundedProduct(x, c) <= x * c + TWO_63
  {
  }

  lemma DifferenceGrows(x: nat, y: nat, c: nat, gap: nat)
    requires x + gap <= y && TWO_63 <= c
    ensures x * c + gap * TWO_63 <= y * c
  {
    MoreSteps(x + gap, y, c);
    MoreSteps(TWO_63, c, gap);
    assert (x + gap) * c == x * c + gap * c;
  }

  lemma Ratio(u: nat, d: nat, c: nat)
    requires u <= 2 * HIDDEN_BIT * d
    ensures u * c <= 2 * HIDDEN_BIT * (d * c)
  {
    MoreSteps(u, 2 * HIDDEN_BIT * d, c);
    Associate(2 * HIDDEN_BIT, d, c);
  }

  /** The margins of one unit on either side leave an interval wide enough for 17 digits. */
  lemma RoomToRound(l: nat, w: nat, u: u64, c: u64, one: nat)
    requires TWO_63 <= c && TWO_63 <= u && l + 512 <= w && w + 1024 <= u && one <= 0x1000_0000_0000_0000
    requires u <= 2 * HIDDEN_BIT * (u - l)
    ensures InRange(one, RoundedProduct(l, c) + 1, RoundedProduct(w, c), RoundedProduct(u, c) - 1)
  {
    RoundedBounds(l, c);
    RoundedBounds(w, c);
    RoundedBounds(u, c);
    DifferenceGrows(l, w, c, 512);
    DifferenceGrows(w, u, c, 1024);
    DifferenceGrows(0, u, c, TWO_63);
    DifferenceGrows(l, u, c, 1536);
    Ratio(u, u - l, c);
    assert (u - l) * c == u * c - l * c;
    NatProduct(l, c);
    TenToSixteen();
    hide RoundedProduct, Pow10;
    EnoughRoom(l * c, u * c, RoundedProduct(l, c), RoundedProduct(u, c));
  }

  lemma TenToSixteen()
    ensures Pow10(16) == 10000000000000000
  {
    TensArePowers(3);
  }

  lemma EnoughRoom(lc: nat, uc: nat, l: int, u: int)
    requires lc - TWO_63 < TWO_64 * l <= lc + TWO_63 && uc - TWO_63 < TWO_64 * u <= uc + TWO_63
    requires lc + 1536 * TWO_63 <= uc <= 2 * HIDDEN_BIT * (uc - lc)
    ensures u - 1 <= 10000000000000000 * (u - l - 2)
  {
  }

  // ----- From the scaled integers back to the number -----

  /** x times a power accurate to half a unit. */
  lemma PowerError(x: real, c: real, s: real, pu: real, pc: real, ten: real)
    requires x > 0.0 && pu > 0.0 && pc > 0.0 && s == pu * pc
    requires -pc <= 2.0 * (c * pc - ten) <= pc
    ensures -(x * s) <= 2.0 * ((x * c) * s - (x * pu) * ten) <= x * s
  {
    var d, m := 2.0 * (c * pc - ten), x * pu;
    TimesMonotone(0.0, x, pu);
    TimesMonotone(-pc, d, m);
    TimesMonotone(d, pc, m);
    assert m * pc == x * s by { assert (x * pu) * pc == x * (pu * pc); }
    assert (c * pc) * m == (x * c) * s by { assert (c * pc) * (x * pu) == (x * c) * (pu * pc); }
    assert d * m == 2.0 * ((c * pc) * m - ten * m);
    assert (-pc) * m == -(m * pc);
  }

  lemma Commuted(a: real, b: real, c: real, ac: real)
    requires ac == a * c
    ensures b * ac == (a * b) * c
  {
  }

  lemma Distributed(a: real, b: real, c: real)
    ensures (a - b) * c == a * c - b * c
  {
  }

  lemma RoundingError(xc: real, r: real, s: real, unit: real)
    requires s > 0.0 && unit == 18446744073709551616.0 * s
    requires xc - 9223372036854775808.0 <= 18446744073709551616.0 * r <= xc + 9223372036854775808.0
    ensures -9223372036854775808.0 * s <= r * unit - xc * s <= 9223372036854775808.0 * s
  {
    var d := 18446744073709551616.0 * r - xc;
    TimesMonotone(-9223372036854775808.0, d, s);
    TimesMonotone(d, 9223372036854775808.0, s);
    Commuted(18446744073709551616.0, r, s, unit);
    Distributed(18446744073709551616.0 * r, xc, s);
  }

  /** A rounded product with such a power is off by less than one unit. */
  lemma ProductError(x: real, c: real, r: real, s: real, pu: real, pc: real, ten: real, unit: real)
    requires pu > 0.0 && pc > 0.0 && s == pu * pc && unit == 18446744073709551616.0 * s
    requires 0.0 < x < 18446744073709551616.0
    requires -pc <= 2.0 * (c * pc - ten) <= pc
    requires x * c - 9223372036854775808.0 <= 18446744073709551616.0 * r <= x * c + 9223372036854775808.0
    ensures -unit < r * unit - (x * pu) * ten < unit
  {
    TimesMonotone(0.0, pu, pc);
    PowerError(x, c, s, pu, pc, ten);
    RoundingError(x * c, r, s, unit);
    TimesMonotone(x, 18446744073709551616.0, s);
    LinearSum((x * c) * s, (x * pu) * ten, x * s, r * unit, s, unit);
  }

  lemma LinearSum(xcs: real, exact: real, xs: real, ru: real, s: real, unit: real)
    requires unit == 18446744073709551616.0 * s && xs < unit
    requires -xs <= 2.0 * (xcs - exact) <= xs
    requires -9223372036854775808.0 * s <= ru - xcs <= 9223372036854775808.0 * s
    ensures -unit < ru - exact < unit
  {
  }

  /** The rounded product of x with the power p, once more as a number: x * 2^exp * 10^k, give or take a unit. */
  lemma ScaledError(x: Fp, p: Fp, k: int)
    requires HalfUnit(p, k) && x.frac > 0
    ensures var unit, exact := Scale(2, x.exp + p.exp + 64), (x.frac as real * Scale(2, x.exp)) * Scale(10, k);
      -unit < RoundedProduct(x.frac, p.frac) as real * unit - exact < unit
  {
    hide Scale, RoundedProduct, PowerTen;
    RealRounded(x.frac, p.frac);
    ScaleAdd(2, x.exp, p.exp);
    ScaleAdd(2, x.exp + p.exp, 64);
    ScaleTwo64();
    ProductError(x.frac as real, p.frac as real, RoundedProduct(x.frac, p.frac) as real, Scale(2, x.exp + p.exp),
      Scale(2, x.exp), Scale(2, p.exp), Scale(10, k), Scale(2, x.exp + p.exp + 64));
  }

  lemma RealRounded(x: int, c: int)
    ensures var xc, r := x as real * c as real, RoundedProduct(x, c) as real;
      xc - 9223372036854775808.0 <= 18446744073709551616.0 * r <= xc + 9223372036854775808.0
  {
    RoundedBounds(x, c);
    RealTimes(x, c);
  }

  lemma ScaleTwo64()
    ensures Scale(2, 64) == 18446744073709551616.0
  {
    TwoPowers();
  }

  lemma Divided(x: real, y: real, p: real, q: real)
    requires p > 0.0 && q > 0.0 && x * q <= y * p
    ensures x * (1.0 / p) <= y * (1.0 / q)
  {
    var a, b := 1.0 / p, 1.0 / q;
    assert a * p == 1.0 && b * q == 1.0;
    TimesMonotone(x * q, y * p, a * b);
    assert (x * q) * (a * b) == (x * a) * (b * q);
    assert (y * p) * (a * b) == (y * b) * (a * p);
  }

  /** The digits' interval, as numbers. */
  lemma WithinScaled(d: nat, kappa: int, e: int, low: nat, high: nat)
    requires e < 0 && Within(d, kappa, Pow2(-e), low, high)
    ensures low as real * Scale(2, e) <= d as real * Scale(10, kappa) <= high as real * Scale(2, e)
  {
    hide Within, Pow, Scale, Unit, Fine;
    var one, u, s := Pow2(-e), Unit(kappa), Fine(kappa);
    PowPositive(2, -e);
    Fractions(kappa, e);
    WithinReals(d, kappa, one, low, high);
    var du := d as real * u as real;
    assert d as real * (u as real * (1.0 / s as real)) == du * (1.0 / s as real);
    Divided(low as real, du, one as real, s as real);
    Divided(du, high as real, s as real, one as real);
  }

  lemma Fractions(kappa: int, e: int)
    requires e < 0
    ensures Fine(kappa) > 0 && Pow2(-e) > 0
    ensures Scale(10, kappa) == Unit(kappa) as real * (1.0 / Fine(kappa) as real) && Scale(2, e) == 1.0 / Pow2(-e) as real
  {
    PowPositive(2, -e);
    PowPositive(10, if kappa >= 0 then kappa else -kappa);
    PowZero(10);
  }

  lemma WithinReals(d: nat, kappa: int, one: nat, low: nat, high: nat)
    requires Within(d, kappa, one, low, high)
    ensures var du := d as real * Unit(kappa) as real;
      low as real * Fine(kappa) as real <= du * one as real <= high as real * Fine(kappa) as real
  {
    hide Unit, Fine;
    var u, s := Unit(kappa), Fine(kappa);
    Associate(d, u, one);
    RealTimes(low, s);
    RealTimes(high, s);
    RealTimes(d, u);
    RealTimes(d * u, one);
  }

  // ----- The three numbers on one exponent -----

  /** lower, w and upper stand for the lower boundary, the value and the upper boundary of w0, exactly. */
  ghost predicate Normalized(w0: Fp, lower: Fp, w: Fp, upper: Fp) {
    && lower.exp == w.exp == upper.exp && -1137 <= upper.exp <= 960
    && ValueOf(w) == ValueOf(w0)
    && ValueOf(upper) == UpperMidpoint(w0)
    && ValueOf(lower) == LowerEdge(w0)
    && TWO_63 <= upper.frac && 0 < lower.frac && lower.frac + 512 <= w.frac && w.frac + 1024 <= upper.frac
    && upper.frac <= 2 * HIDDEN_BIT * (upper.frac - lower.frac)
  }

  /** A shift to a smaller exponent keeps the value. */
  lemma SameValue(f: int, e: int, s: nat)
    ensures (f * Pow2(s)) as real * Scale(2, e - s) == f as real * Scale(2, e)
  {
    hide Scale, Pow2, Pow;
    RealTimes(f, Pow2(s));
    ScaleAdd(2, e - s, s);
    WholeScale(s);
    Regrouped(f as real, Pow2(s) as real, Scale(2, e - s));
  }

  lemma WholeScale(s: nat)
    ensures Scale(2, s) == Pow2(s) as real
  {
  }

  lemma Regrouped(a: real, b: real, c: real)
    ensures (a * b) * c == a * (c * b)
  {
  }

  /** How far the boundaries are from the value, with h = 2^(shift - 2). */
  lemma Distances(f: nat, h: nat, lower: nat, w: nat, upper: nat)
    requires 1 <= f < 2 * HIDDEN_BIT && h >= 512
    requires upper == (2 * f + 1) * (2 * h) && w == f * (4 * h)
    requires lower == if f == HIDDEN_BIT then (4 * f - 1) * h else (2 * f - 1) * (2 * h)
    ensures 0 < lower && lower + 512 <= w && w + 1024 <= upper && upper <= 2 * HIDDEN_BIT * (upper - lower)
  {
    var fh := f * h;
    assert upper == 4 * fh + 2 * h && w == 4 * fh;
    assert lower == if f == HIDDEN_BIT then 4 * fh - h else 4 * fh - 2 * h;
    MoreSteps(1, f, h);
    MoreSteps(f, 2 * HIDDEN_BIT - 1, h);
  }

  /** What the two normalizations establish. */
  ghost predicate Shifted(w0: Fp, lower: Fp, w: Fp, upper: Fp) {
    && w.exp <= w0.exp - 11 && w.frac == w0.frac * Pow2(w0.exp - w.exp) && TWO_63 <= w.frac
    && lower.exp == upper.exp <= w0.exp - 11
    && upper.frac == (2 * w0.frac + 1) * Pow2(w0.exp - 1 - upper.exp) && TWO_63 <= upper.frac
    && lower.frac == if w0.frac == HIDDEN_BIT then (4 * w0.frac - 1) * Pow2(w0.exp - 2 - upper.exp)
                     else (2 * w0.frac - 1) * Pow2(w0.exp - 1 - upper.exp)
  }

  lemma SameExponents(w0: Fp, lower: Fp, w: Fp, upper: Fp)
    requires IsFiniteNonzero(w0) && Shifted(w0, lower, w, upper)
    ensures lower.exp == w.exp == upper.exp && 11 <= w0.exp - upper.exp <= 63
  {
    hide Pow, Pow2;
    SameShift(w0.frac, w0.exp - w.exp, w0.exp - upper.exp);
    ShiftBounds(w0.frac, w0.exp - upper.exp);
  }

  lemma ExactValues(w0: Fp, lower: Fp, w: Fp, upper: Fp)
    requires Shifted(w0, lower, w, upper) && lower.exp == w.exp == upper.exp
    ensures ValueOf(w) == ValueOf(w0) && ValueOf(upper) == UpperMidpoint(w0) && ValueOf(lower) == LowerEdge(w0)
  {
    hide Scale, Pow, Pow2;
    var f, e, b := w0.frac, w0.exp, w0.exp - upper.exp;
    SameValue(f, e, b);
    SameValue(2 * f + 1, e - 1, b - 1);
    if f == HIDDEN_BIT { SameValue(4 * f - 1, e - 2, b - 2); } else { SameValue(2 * f - 1, e - 1, b - 1); }
  }

  lemma WideEnough(w0: Fp, lower: Fp, w: Fp, upper: Fp)
    requires IsFiniteNonzero(w0) && Shifted(w0, lower, w, upper) && lower.exp == w.exp == upper.exp
    ensures 0 < lower.frac && lower.frac + 512 <= w.frac && w.frac + 1024 <= upper.frac
    ensures upper.frac <= 2 * HIDDEN_BIT * (upper.frac - lower.frac)
  {
    hide Pow, Pow2;
    SmallPowers(w0.exp - upper.exp - 2);
    Distances(w0.frac, Pow2(w0.exp - upper.exp - 2), lower.frac, w.frac, upper.frac);
  }

  /** Both boundaries and the value are exact, on one exponent, and far enough apart. */
  lemma BoundariesAreExact(w0: Fp, lower: Fp, w: Fp, upper: Fp)
    requires IsFiniteNonzero(w0) && Shifted(w0, lower, w, upper)
    ensures Normalized(w0, lower, w, upper)
  {
    SameExponents(w0, lower, w, upper);
    ExactValues(w0, lower, w, upper);
    WideEnough(w0, lower, w, upper);
    hide ValueOf, UpperMidpoint, LowerEdge, Pow, Pow2;
  }

  lemma SmallPowers(n: nat)
    requires n >= 9
    ensures Pow2(n) >= 512 && Pow2(n + 1) == 2 * Pow2(n) && Pow2(n + 2) == 4 * Pow2(n)
  {
    PowIncreases(2, 9, n);
    assert Pow2(9) == 512;
    PowAdd(2, 1, n);
    PowAdd(2, 2, n);
  }

  // ----- The whole -----

  /** The digits, once more as a number. */
  ghost function Decimal(ds: seq<char>, k: int): real
    requires AllDigits(ds)
  {
    Value(ds) as real * Scale(10, k)
  }

  /** The digits of the scaled interval, times their power of ten, lie strictly between the exact boundaries. */
  lemma StaysInside(lower: Fp, upper: Fp, p: Fp, k: int, d: nat, kappa: int)
    requires HalfUnit(p, k) && lower.exp == upper.exp && lower.frac > 0 && upper.frac > 0
    requires upper.exp + p.exp + 64 < 0
    requires RoundedProduct(lower.frac, p.frac) >= 0 && RoundedProduct(upper.frac, p.frac) >= 1
    requires Within(d, kappa, Pow2(-(upper.exp + p.exp + 64)),
               RoundedProduct(lower.frac, p.frac) + 1, RoundedProduct(upper.frac, p.frac) - 1)
    ensures ValueOf(lower) < d as real * Scale(10, kappa - k) < ValueOf(upper)
  {
    hide Scale, RoundedProduct, Within, HalfUnit, Pow2;
    var e := upper.exp + p.exp + 64;
    var unit, l, u := Scale(2, e), RoundedProduct(lower.frac, p.frac), RoundedProduct(upper.frac, p.frac);
    WithinScaled(d, kappa, e, l + 1, u - 1);
    ScaledError(lower, p, k);
    ScaledError(upper, p, k);
    OneMore(l, unit);
    OneMore(u - 1, unit);
    ScaleAdd(10, kappa - k, k);
    Regrouped(d as real, Scale(10, k), Scale(10, kappa - k));
    Regrouped(d as real, Scale(10, kappa - k), Scale(10, k));
    ScaledOrder(ValueOf(lower), d as real * Scale(10, kappa - k), Scale(10, k));
    ScaledOrder(d as real * Scale(10, kappa - k), ValueOf(upper), Scale(10, k));
  }

  lemma OneMore(x: int, unit: real)
    ensures (x + 1) as real * unit == x as real * unit + unit
  {
    assert (x + 1) as real == x as real + 1.0;
  }

  /** The scaled numbers fit into 64 bits and leave room for the digits. */
  lemma ScaledInRange(w0: Fp, lower: Fp, w: Fp, upper: Fp, p: Fp)
    requires Normalized(w0, lower, w, upper) && TWO_63 <= p.frac
    requires EXP_MIN <= upper.exp + p.exp + 64 <= EXP_MAX
    ensures InRange(Pow2(-(upper.exp + p.exp + 64)),
              RoundedProduct(lower.frac, p.frac) + 1, RoundedProduct(w.frac, p.frac), RoundedProduct(upper.frac, p.frac) - 1)
  {
    hide Scale, Pow, Pow2, InRange, RoundedProduct, ValueOf;
    OneBounds(-(upper.exp + p.exp + 64));
    RoomToRound(lower.frac, w.frac, upper.frac, p.frac, Pow2(-(upper.exp + p.exp + 64)));
  }

  /** What the generated digits mean for the number that was scaled. */
  lemma ResultIsInside(w0: Fp, lower: Fp, w: Fp, upper: Fp, p: Fp, power: int, ds: seq<char>, kappa: int)
    requires IsFiniteNonzero(w0) && Normalized(w0, lower, w, upper) && HalfUnit(p, power) && TWO_63 <= p.frac
    requires EXP_MIN <= upper.exp + p.exp + 64 <= EXP_MAX && RoundedProduct(lower.frac, p.frac) >= 0
    requires RoundedProduct(upper.frac, p.frac) >= 1 && RoundedProduct(w.frac, p.frac) >= 0
    requires Result(ds, kappa, Pow2(-(upper.exp + p.exp + 64)),
               RoundedProduct(lower.frac, p.frac) + 1, RoundedProduct(w.frac, p.frac), RoundedProduct(upper.frac, p.frac) - 1)
    ensures LowerMidpoint(w0) < Decimal(ds, kappa - power) < UpperMidpoint(w0)
  {
    hide Scale, Pow2, Pow, HalfUnit, RoundedProduct, LowerMidpoint, UpperMidpoint, LowerEdge, ValueOf, Within,
      NoneCoarser, Closest, Value;
    StaysInside(lower, upper, p, power, Value(ds), kappa);
    EdgeIsSafe(w0);
  }

  // ----- No shorter decimal -----

  /** What the cached power and the roundings may cost on either side: 2^-60 of the number. */
  function Margin(w: Fp): real { UpperMidpoint(w) / 1152921504606846976.0 }

  /** x lies between the boundaries, margins taken off. */
  predicate FitsInside(w: Fp, x: real) { LowerEdge(w) + Margin(w) < x < UpperMidpoint(w) - Margin(w) }

  function Multiple(m: nat, j: int): real { m as real * Scale(10, j) }

  /** No multiple of 10^j lies there. */
  ghost predicate NoMultipleFits(w: Fp, j: int) {
    forall m: nat :: !FitsInside(w, Multiple(m, j))
  }

  lemma MultipleReals(m: nat, u: nat, one: nat, x: nat, s: nat)
    ensures (m * (u * one)) as real == (m as real * u as real) * one as real
    ensures (x * s) as real == x as real * s as real
  {
    RealTimes(x, s);
    RealTimes(m, u);
    RealTimes(m * u, one);
    Associate(m, u, one);
  }

  /** A decimal between two scaled numbers, once more in integers. */
  lemma BetweenScaled(m: nat, kappa: int, e: int, low: nat, high: nat)
    requires e < 0 && low as real * Scale(2, e) < m as real * Scale(10, kappa) < high as real * Scale(2, e)
    ensures low * Fine(kappa) < m * (Unit(kappa) * Pow2(-e)) < high * Fine(kappa)
  {
    hide Pow, Pow2, Scale, Unit, Fine;
    var one, u, s := Pow2(-e), Unit(kappa), Fine(kappa);
    Fractions(kappa, e);
    MultipleReals(m, u, one, low, s);
    MultipleReals(m, u, one, high, s);
    var mu := m as real * u as real;
    Regrouped(m as real, 1.0 / s as real, u as real);
    Undivided(low as real, mu, one as real, s as real);
    Undivided(mu, high as real, s as real, one as real);
  }

  lemma CoarserScaled(m: nat, kappa: int, e: int, low: nat, high: nat)
    requires e < 0 && low as real * Scale(2, e) < m as real * Scale(10, kappa + 1) < high as real * Scale(2, e)
    ensures low * Fine(kappa) < m * (10 * (Unit(kappa) * Pow2(-e))) < high * Fine(kappa)
  {
    hide Pow, Pow2, Scale, Unit, Fine;
    ScaleStep(10, kappa);
    TenTimes(m as real, Scale(10, kappa));
    assert (10 * m) as real == 10.0 * m as real;
    BetweenScaled(10 * m, kappa, e, low, high);
    MoveTen(m, Unit(kappa) * Pow2(-e));
  }

  lemma MoveTen(m: nat, g: nat)
    ensures (10 * m) * g == m * (10 * g)
  {
  }

  lemma Undivided(x: real, y: real, p: real, q: real)
    requires p > 0.0 && q > 0.0 && x * (1.0 / p) < y * (1.0 / q)
    ensures x * q < y * p
  {
    if y * p <= x * q { Divided(y, x, q, p); }
  }

  lemma TenTimes(m: real, s: real)
    ensures m * (10.0 * s) == (10.0 * m) * s
  {
  }

  /** The scaled upper boundary has at least 62 bits. */
  lemma LargeProduct(x: int, c: int)
    requires TWO_63 <= x && TWO_63 <= c
    ensures RoundedProduct(x, c) >= 0x4000_0000_0000_0000
  {
    RoundedBounds(x, c);
    MoreSteps(TWO_63, x, c);
    MoreSteps(TWO_63, c, TWO_63);
    hide RoundedProduct;
    AtLeast(x * c, RoundedProduct(x, c));
  }

  lemma AtLeast(p: int, r: int)
    requires p >= TWO_63 * TWO_63 && p - TWO_63 < TWO_64 * r
    ensures r >= 0x4000_0000_0000_0000
  {
  }

  /** Two units are less than the margin. */
  lemma UnitsAreSmall(u: real, unit: real, exact: real)
    requires u >= 4611686018427387904.0 && unit > 0.0 && u * unit < exact + unit
    ensures 2.0 * unit < exact / 1152921504606846976.0
  {
    TimesMonotone(4611686018427387904.0, u, unit);
  }

  lemma MarginScaled(h: real, t: real)
    ensures (h / 1152921504606846976.0) * t == (h * t) / 1152921504606846976.0
  {
    var c := 1.0 / 1152921504606846976.0;
    assert h / 1152921504606846976.0 == h * c && (h * t) / 1152921504606846976.0 == (h * t) * c;
    assert (h * c) * t == (h * t) * c;
  }

  /** What lies between the boundaries with the margins taken off lies in the scaled interval. */
  lemma InsideScaled(lower: Fp, upper: Fp, p: Fp, k: int, x: real)
    requires HalfUnit(p, k) && lower.exp == upper.exp && lower.frac > 0 && TWO_63 <= upper.frac && TWO_63 <= p.frac
    requires var margin := ValueOf(upper) / 1152921504606846976.0;
      ValueOf(lower) + margin < x < ValueOf(upper) - margin
    ensures var unit := Scale(2, upper.exp + p.exp + 64);
      && (RoundedProduct(lower.frac, p.frac) + 1) as real * unit < x * Scale(10, k)
      && x * Scale(10, k) < (RoundedProduct(upper.frac, p.frac) - 1) as real * unit
  {
    hide Scale, RoundedProduct, HalfUnit;
    var unit, t := Scale(2, upper.exp + p.exp + 64), Scale(10, k);
    var l, u, a, b := RoundedProduct(lower.frac, p.frac), RoundedProduct(upper.frac, p.frac), ValueOf(lower), ValueOf(upper);
    ScaledError(lower, p, k);
    ScaledError(upper, p, k);
    LargeProduct(upper.frac, p.frac);
    hide ValueOf;
    OneMore(l, unit);
    OneMore(u - 1, unit);
    UnitsAreSmall(u as real, unit, b * t);
    MarginScaled(b, t);
    var margin := b / 1152921504606846976.0;
    TimesMonotone(a + margin, x, t);
    TimesMonotone(x, b - margin, t);
    Spread(a, margin, t);
    Spread(b, -margin, t);
  }

  lemma Spread(a: real, b: real, t: real)
    ensures (a + b) * t == a * t + b * t
  {
  }

  /** The digits are as few as the boundaries with the margins taken off allow. */
  lemma ResultIsShort(w0: Fp, lower: Fp, w: Fp, upper: Fp, p: Fp, power: int, kappa: int)
    requires Normalized(w0, lower, w, upper) && HalfUnit(p, power) && TWO_63 <= p.frac
    requires upper.exp + p.exp + 64 < 0 && RoundedProduct(lower.frac, p.frac) >= 0 && RoundedProduct(upper.frac, p.frac) >= 1
    requires NoneCoarser(kappa, Pow2(-(upper.exp + p.exp + 64)),
               RoundedProduct(lower.frac, p.frac) + 1, RoundedProduct(upper.frac, p.frac) - 1)
    ensures NoMultipleFits(w0, kappa - power + 1)
  {
    hide Scale, Pow, Pow2, HalfUnit, RoundedProduct, LowerEdge, UpperMidpoint, ValueOf, Unit, Fine, NoneCoarser;
    var j, e := kappa - power + 1, upper.exp + p.exp + 64;
    var low, high := RoundedProduct(lower.frac, p.frac) + 1, RoundedProduct(upper.frac, p.frac) - 1;
    forall m: nat | FitsInside(w0, Multiple(m, j)) ensures false {
      FitsScaled(lower, upper, p, power, j, m);
      CoarserScaled(m, kappa, e, low, high);
      Coarser(kappa, Pow2(-e), low, high, m);
    }
  }

  lemma Coarser(kappa: int, one: nat, low: nat, high: nat, m: nat)
    requires low * Fine(kappa) < m * (10 * (Unit(kappa) * one)) < high * Fine(kappa)
    ensures !NoneCoarser(kappa, one, low, high)
  {
  }

  lemma FitsScaled(lower: Fp, upper: Fp, p: Fp, power: int, j: int, m: nat)
    requires HalfUnit(p, power) && lower.exp == upper.exp && lower.frac > 0 && TWO_63 <= upper.frac && TWO_63 <= p.frac
    requires var margin := ValueOf(upper) / 1152921504606846976.0;
      ValueOf(lower) + margin < Multiple(m, j) < ValueOf(upper) - margin
    ensures var unit := Scale(2, upper.exp + p.exp + 64);
      (RoundedProduct(lower.frac, p.frac) + 1) as real * unit < m as real * Scale(10, j + power)
        < (RoundedProduct(upper.frac, p.frac) - 1) as real * unit
  {
    hide Scale, HalfUnit, RoundedProduct, ValueOf;
    InsideScaled(lower, upper, p, power, Multiple(m, j));
    MultipleScaled(m, j, power);
  }

  lemma MultipleScaled(m: nat, j: int, power: int)
    ensures Multiple(m, j) * Scale(10, power) == m as real * Scale(10, j + power)
  {
    hide Scale;
    ScaleAdd(10, j, power);
    Regrouped(m as real, Scale(10, power), Scale(10, j));
    Regrouped(m as real, Scale(10, j), Scale(10, power));
  }

  // ----- No closer decimal -----

  /** Of the multiples of 10^k between the boundaries, margins taken off, none is closer to w than v by more than the margin. */
  ghost predicate NoneCloser(w: Fp, v: real, k: int) {
    forall m: nat :: FitsInside(w, Multiple(m, k)) ==> Gap(v, ValueOf(w)) <= Gap(Multiple(m, k), ValueOf(w)) + Margin(w)
  }

  lemma GapTimes(x: real, y: real, c: real, xc: real, yc: real)
    requires c > 0.0 && xc == x * c && yc == y * c
    ensures Gap(xc, yc) == Gap(x, y) * c
  {
    TimesMonotone(x, y, c);
    TimesMonotone(y, x, c);
    Spread(x, -y, c);
    Spread(y, -x, c);
  }

  lemma DistanceGap(a: int, b: int)
    ensures Distance(a, b) as real == Gap(a as real, b as real)
  {
  }

  /** The distances that the digits are chosen by, as distances of the numbers. */
  lemma ScaledGap(a: nat, kappa: int, e: int, w: nat)
    requires e < 0
    ensures Fine(kappa) > 0 && Pow2(-e) > 0
    ensures Gap(a as real * Scale(10, kappa), w as real * Scale(2, e)) * (Fine(kappa) as real * Pow2(-e) as real)
      == Distance(a * (Unit(kappa) * Pow2(-e)), w * Fine(kappa)) as real
  {
    hide Pow, Pow2, Scale, Unit, Fine, Distance, Gap;
    Fractions(kappa, e);
    var one, u, s := Pow2(-e) as real, Unit(kappa) as real, Fine(kappa) as real;
    Reciprocal(u, s);
    Reciprocal(1.0, one);
    InTens(a as real, Scale(10, kappa), s, u, one);
    InTwos(w as real, Scale(2, e), s, one);
    TimesMonotone(0.0, s, one);
    MultipleReals(a, Unit(kappa), Pow2(-e), w, Fine(kappa));
    DistanceGap(a * (Unit(kappa) * Pow2(-e)), w * Fine(kappa));
    GapTimes(a as real * Scale(10, kappa), w as real * Scale(2, e), s * one,
      (a * (Unit(kappa) * Pow2(-e))) as real, (w * Fine(kappa)) as real);
  }

  lemma InTens(a: real, ten: real, s: real, u: real, one: real)
    requires ten * s == u
    ensures (a * ten) * (s * one) == (a * u) * one
  {
    assert (a * ten) * s == a * (ten * s);
    assert (a * ten) * (s * one) == ((a * ten) * s) * one;
  }

  lemma InTwos(w: real, two: real, s: real, one: real)
    requires two * one == 1.0
    ensures (w * two) * (s * one) == w * s
  {
    assert (w * two) * one == w * (two * one);
    assert (w * two) * (s * one) == ((w * two) * one) * s;
  }

  lemma Reciprocal(u: real, s: real)
    requires s > 0.0
    ensures (u * (1.0 / s)) * s == u && (1.0 / s) * s == 1.0
  {
    var r := 1.0 / s;
    assert r * s == 1.0;
    assert (u * r) * s == u * (r * s);
  }

  /** In the scaled interval the digits are the closest. */
  lemma ClosestScaled(d: nat, m: nat, kappa: int, e: int, low: nat, high: nat, w: nat)
    requires e < 0 && Closest(d, kappa, Pow2(-e), low, high, w)
    requires low as real * Scale(2, e) < m as real * Scale(10, kappa) < high as real * Scale(2, e)
    ensures Gap(d as real * Scale(10, kappa), w as real * Scale(2, e)) <= Gap(m as real * Scale(10, kappa), w as real * Scale(2, e))
  {
    hide Pow, Pow2, Scale, Unit, Fine, Distance, Gap, Closest;
    BetweenScaled(m, kappa, e, low, high);
    ClosestOf(d, m, kappa, Pow2(-e), low, high, w);
    ScaledGap(d, kappa, e, w);
    ScaledGap(m, kappa, e, w);
    var c := Fine(kappa) as real * Pow2(-e) as real;
    TimesMonotone(0.0, Fine(kappa) as real, Pow2(-e) as real);
    NotFurther(Gap(d as real * Scale(10, kappa), w as real * Scale(2, e)), Gap(m as real * Scale(10, kappa), w as real * Scale(2, e)), c,
      Distance(d * (Unit(kappa) * Pow2(-e)), w * Fine(kappa)), Distance(m * (Unit(kappa) * Pow2(-e)), w * Fine(kappa)));
  }

  lemma NotFurther(x: real, y: real, c: real, a: nat, b: nat)
    requires c > 0.0 && x * c == a as real && y * c == b as real && a <= b
    ensures x <= y
  {
    if y < x { TimesMonotone(y, x, c); }
  }

  lemma ClosestOf(d: nat, m: nat, kappa: int, one: nat, low: nat, high: nat, w: nat)
    requires Closest(d, kappa, one, low, high, w)
    requires low * Fine(kappa) < m * (Unit(kappa) * one) < high * Fine(kappa)
    ensures Distance(d * (Unit(kappa) * one), w * Fine(kappa)) <= Distance(m * (Unit(kappa) * one), w * Fine(kappa))
  {
    assert Within(m, kappa, one, low, high);
  }

  /** Two numbers that are off by less than a unit are as far from a third, give or take two units. */
  lemma GapsApart(d: real, m: real, w: real, v: real, unit: real)
    requires Gap(d, w) <= Gap(m, w) && -unit < w - v < unit
    ensures Gap(d, v) < Gap(m, v) + 2.0 * unit
  {
  }

  /** The same for numbers that are t times as large. */
  lemma CloseEnough(d: real, m: real, v: real, margin: real, t: real, dt: real, mt: real, vt: real, w: real, unit: real)
    requires t > 0.0 && dt == d * t && mt == m * t && vt == v * t
    requires Gap(dt, w) <= Gap(mt, w) && -unit < w - vt < unit && 2.0 * unit < margin * t
    ensures Gap(d, v) <= Gap(m, v) + margin
  {
    GapsApart(dt, mt, w, vt, unit);
    GapTimes(d, v, t, dt, vt);
    GapTimes(m, v, t, mt, vt);
    hide Gap;
    LessScaled(Gap(d, v), Gap(m, v), margin, t, Gap(dt, vt), Gap(mt, vt), unit);
  }

  lemma LessScaled(x: real, y: real, margin: real, t: real, xt: real, yt: real, unit: real)
    requires t > 0.0 && xt == x * t && yt == y * t && xt < yt + 2.0 * unit && 2.0 * unit < margin * t
    ensures x <= y + margin
  {
    Spread(y, margin, t);
    ScaledOrder(x, y + margin, t);
  }

  lemma SmallUnit(upper: Fp, p: Fp, k: int)
    requires HalfUnit(p, k) && TWO_63 <= upper.frac && TWO_63 <= p.frac
    ensures 2.0 * Scale(2, upper.exp + p.exp + 64) < (ValueOf(upper) / 1152921504606846976.0) * Scale(10, k)
  {
    hide Scale, RoundedProduct, HalfUnit;
    ScaledError(upper, p, k);
    LargeProduct(upper.frac, p.frac);
    UnitsAreSmall(RoundedProduct(upper.frac, p.frac) as real, Scale(2, upper.exp + p.exp + 64), ValueOf(upper) * Scale(10, k));
    hide ValueOf;
    MarginScaled(ValueOf(upper), Scale(10, k));
  }

  /** The digits are as close as the margin allows. */
  lemma ResultIsClose(w0: Fp, lower: Fp, w: Fp, upper: Fp, p: Fp, power: int, d: nat, kappa: int)
    requires Normalized(w0, lower, w, upper) && HalfUnit(p, power) && TWO_63 <= p.frac
    requires upper.exp + p.exp + 64 < 0 && RoundedProduct(lower.frac, p.frac) >= 0
    requires RoundedProduct(w.frac, p.frac) >= 0 && RoundedProduct(upper.frac, p.frac) >= 1
    requires Closest(d, kappa, Pow2(-(upper.exp + p.exp + 64)), RoundedProduct(lower.frac, p.frac) + 1,
               RoundedProduct(upper.frac, p.frac) - 1, RoundedProduct(w.frac, p.frac))
    ensures NoneCloser(w0, Multiple(d, kappa - power), kappa - power)
  {
    hide Scale, Pow, Pow2, HalfUnit, RoundedProduct, LowerEdge, UpperMidpoint, ValueOf, Closest, Gap, Multiple;
    var k := kappa - power;
    forall m: nat | FitsInside(w0, Multiple(m, k))
      ensures Gap(Multiple(d, k), ValueOf(w0)) <= Gap(Multiple(m, k), ValueOf(w0)) + Margin(w0)
    {
      OneIsClose(lower, w, upper, p, power, d, kappa, m);
    }
  }

  lemma OneIsClose(lower: Fp, w: Fp, upper: Fp, p: Fp, power: int, d: nat, kappa: int, m: nat)
    requires HalfUnit(p, power) && TWO_63 <= p.frac && TWO_63 <= upper.frac && lower.frac > 0 && w.frac > 0
    requires lower.exp == w.exp == upper.exp && upper.exp + p.exp + 64 < 0 && RoundedProduct(lower.frac, p.frac) >= 0
    requires RoundedProduct(w.frac, p.frac) >= 0 && RoundedProduct(upper.frac, p.frac) >= 1
    requires Closest(d, kappa, Pow2(-(upper.exp + p.exp + 64)), RoundedProduct(lower.frac, p.frac) + 1,
               RoundedProduct(upper.frac, p.frac) - 1, RoundedProduct(w.frac, p.frac))
    requires var margin := ValueOf(upper) / 1152921504606846976.0;
      ValueOf(lower) + margin < Multiple(m, kappa - power) < ValueOf(upper) - margin
    ensures Gap(Multiple(d, kappa - power), ValueOf(w)) <=
      Gap(Multiple(m, kappa - power), ValueOf(w)) + ValueOf(upper) / 1152921504606846976.0
  {
    hide Scale, Pow, Pow2, HalfUnit, RoundedProduct, ValueOf, Closest, Gap, Multiple;
    var k, e, t := kappa - power, upper.exp + p.exp + 64, Scale(10, power);
    var l, u, r := RoundedProduct(lower.frac, p.frac) + 1, RoundedProduct(upper.frac, p.frac) - 1, RoundedProduct(w.frac, p.frac);
    FitsScaled(lower, upper, p, power, k, m);
    ClosestScaled(d, m, kappa, e, l, u, r);
    ValueScaled(w, p, power);
    SmallUnit(upper, p, power);
    MultipleScaled(d, k, power);
    MultipleScaled(m, k, power);
    CloseEnough(Multiple(d, k), Multiple(m, k), ValueOf(w), ValueOf(upper) / 1152921504606846976.0, t,
      d as real * Scale(10, kappa), m as real * Scale(10, kappa), ValueOf(w) * t, r as real * Scale(2, e), Scale(2, e));
  }

  lemma ValueScaled(w: Fp, p: Fp, power: int)
    requires HalfUnit(p, power) && w.frac > 0
    ensures var unit := Scale(2, w.exp + p.exp + 64);
      -unit < RoundedProduct(w.frac, p.frac) as real * unit - ValueOf(w) * Scale(10, power) < unit
  {
    hide Scale, RoundedProduct, HalfUnit;
    ScaledError(w, p, power);
  }

  lemma ScaledBounds(one: nat, l: u64, w: u64, u: u64, c: u64)
    requires InRange(one, RoundedProduct(l, c) + 1, RoundedProduct(w, c), RoundedProduct(u, c) - 1)
    ensures 0 <= RoundedProduct(l, c) < RoundedProduct(w, c) < RoundedProduct(u, c) < TWO_64
  {
    ProductBound(u, c);
  }

  lemma ResultParts(ds: seq<char>, kappa: int, one: nat, low: nat, w: nat, high: nat)
    requires Result(ds, kappa, one, low, w, high)
    ensures 1 <= |ds| <= 17 && AllDigits(ds) && ds[0] != '0' && -16 <= kappa <= 9
  {
  }

  lemma ResultIsCoarse(ds: seq<char>, kappa: int, one: nat, low: nat, w: nat, high: nat)
    requires Result(ds, kappa, one, low, w, high)
    ensures NoneCoarser(kappa, one, low, high) && Closest(Value(ds), kappa, one, low, high, w)
    ensures forall k :: Decimal(ds, k) == Multiple(Value(ds), k)
  {
    hide Scale, Value;
  }

  lemma NormalizedParts(w0: Fp, lower: Fp, w: Fp, upper: Fp)
    requires Normalized(w0, lower, w, upper)
    ensures lower.exp == w.exp == upper.exp && -1137 <= upper.exp <= 960
  {
  }

  /**
   * At most 17 digits and a power of ten that stand for a number strictly between
   * the midpoints to the neighbouring doubles.
   */
  method Grisu2(w0: Fp, digits: array<char>) returns (n: nat, k: int)
    requires digits.Length == 18 && IsFiniteNonzero(w0)
    modifies digits
    ensures 1 <= n <= 17 && AllDigits(digits[..n]) && digits[0] != '0' && -356 <= k <= 357
    ensures LowerMidpoint(w0) < Decimal(digits[..n], k) < UpperMidpoint(w0)
    ensures NoMultipleFits(w0, k + 1) && NoneCloser(w0, Decimal(digits[..n], k), k)
  {
    hide Scale, Pow2, Pow, HalfUnit, Normalized, InRange, LowerMidpoint, UpperMidpoint, Result, AllDigits, Decimal, NoMultipleFits, NoneCloser, NoneCoarser, Closest;
    var lower, upper := GetNormalizedBoundaries(w0);
    var w := Normalize(w0);
    BoundariesAreExact(w0, lower, w, upper);
    NormalizedParts(w0, lower, w, upper);
    var cp, power := FindCachedPow10(upper.exp);
    ghost var l0, m0, u0 := lower, w, upper;
    ScaledInRange(w0, l0, m0, u0, cp);
    ScaledBounds(Pow2(-(u0.exp + cp.exp + 64)), l0.frac, m0.frac, u0.frac, cp.frac);
    w := Multiply(w, cp);
    upper := Multiply(upper, cp);
    lower := Multiply(lower, cp);
    lower := lower.(frac := lower.frac + 1);
    upper := upper.(frac := upper.frac - 1);
    n, k := GenerateDigits(w, upper, lower, digits, -power);
    ResultParts(digits[..n], k + power, Pow2(-upper.exp), lower.frac, w.frac, upper.frac);
    ResultIsInside(w0, l0, m0, u0, cp, power, digits[..n], k + power);
    ResultIsCoarse(digits[..n], k + power, Pow2(-upper.exp), lower.frac, w.frac, upper.frac);
    ResultIsShort(w0, l0, m0, u0, cp, power, k + power);
    ResultIsClose(w0, l0, m0, u0, cp, power, Value(digits[..n]), k + power);
  }
}
