/** 64-bit fractions with a binary exponent: the arithmetic underneath number printing. */
module DiyFp {
  import opened Powers

  const TWO_32: int := 0x1_0000_0000
  const TWO_63: int := 0x8000_0000_0000_0000
  const TWO_64: int := 0x1_0000_0000_0000_0000
  const HIDDEN_BIT: int := 0x10_0000_0000_0000
  const EXP_BIAS: int := 1075

  /** `uint64_t`: storing a value of this type proves that it did not wrap. */
  type u64 = x: int | 0 <= x < 0x1_0000_0000_0000_0000

  /** frac * 2^exp */
  datatype Fp = Fp(frac: u64, exp: int)

  lemma TwoPowers()
    ensures Pow2(10) == 1024 && Pow2(11) == 2048 && Pow2(32) == TWO_32 && Pow2(52) == HIDDEN_BIT
    ensures Pow2(53) == 2 * HIDDEN_BIT && Pow2(54) == 4 * HIDDEN_BIT && Pow2(60) == 0x1000_0000_0000_0000
    ensures Pow2(63) == TWO_63 && Pow2(64) == TWO_64
  {
    assert Pow2(10) == 1024;
    PowAdd(2, 10, 1);
    PowAdd(2, 11, 11); PowAdd(2, 22, 10); PowAdd(2, 32, 10); PowAdd(2, 42, 10);
    PowAdd(2, 52, 1); PowAdd(2, 53, 1); PowAdd(2, 53, 10); PowAdd(2, 63, 1);
    PowAdd(2, 52, 4); PowAdd(2, 56, 4);
    assert Pow2(4) == 16 && Pow2(1) == 2;
  }

  // ----- Decoding a double -----

  /** The fraction and exponent of the binary64 value with the given bits, sign apart. */
  function BuildFp(bits: u64): (r: Fp)
    ensures r.frac < 2 * HIDDEN_BIT && -1074 <= r.exp <= 972
    ensures r.exp > -1074 ==> r.frac >= HIDDEN_BIT
    ensures (bits / HIDDEN_BIT) % 2048 != 2047 ==> r.exp <= 971
    ensures r.frac == 0 <==> bits % TWO_63 == 0
  {
    var frac, exp := bits % HIDDEN_BIT, (bits / HIDDEN_BIT) % 2048;
    if exp != 0 then Fp(frac + HIDDEN_BIT, exp - EXP_BIAS) else Fp(frac, -EXP_BIAS + 1)
  }

  /** The doubles that are printed digit by digit: finite and not zero. */
  predicate IsFiniteNonzero(w: Fp) {
    1 <= w.frac < 2 * HIDDEN_BIT && -1074 <= w.exp <= 971 && (w.exp > -1074 ==> w.frac >= HIDDEN_BIT)
  }

  // ----- Multiplication by 32-bit halves -----

  lemma BoundedProduct(x: int, y: int, m: int)
    requires 0 <= x <= m && 0 <= y <= m
    ensures 0 <= x * y <= m * m
  {
    assert x * y <= x * m <= m * m;
  }

  lemma HalfProduct(x: int, y: int)
    requires 0 <= x < TWO_32 && 0 <= y < TWO_32
    ensures 0 <= x * y <= (TWO_32 - 1) * (TWO_32 - 1)
  {
    BoundedProduct(x, y, TWO_32 - 1);
  }

  lemma Expand(ah: int, al: int, bh: int, bl: int)
    ensures (ah * TWO_32 + al) * (bh * TWO_32 + bl) ==
      (ah * bh) * TWO_64 + (ah * bl) * TWO_32 + (al * bh) * TWO_32 + al * bl
  {
    var a, b := ah * TWO_32, bh * TWO_32;
    assert (a + al) * (b + bl) == a * b + a * bl + al * b + al * bl;
    assert a * b == (ah * bh) * TWO_64;
    assert a * bl == (ah * bl) * TWO_32;
    assert al * b == (al * bh) * TWO_32;
  }

  /** The sum that `multiply` takes apart, once the four partial products are known. */
  lemma RoundedSum(hh: int, hl: int, lh: int, ll: int)
    requires 0 <= hh && 0 <= hl && 0 <= lh && 0 <= ll
    ensures var tmp := hl % TWO_32 + lh % TWO_32 + ll / TWO_32 + 0x8000_0000;
      hh + hl / TWO_32 + lh / TWO_32 + tmp / TWO_32 ==
        (hh * TWO_64 + hl * TWO_32 + lh * TWO_32 + ll + TWO_63) / TWO_64
  {
    var tmp := hl % TWO_32 + lh % TWO_32 + ll / TWO_32 + 0x8000_0000;
    var q := hh + hl / TWO_32 + lh / TWO_32;
    var sum := hh * TWO_64 + hl * TWO_32 + lh * TWO_32 + ll + TWO_63;
    assert sum == q * TWO_64 + tmp * TWO_32 + ll % TWO_32;
    assert sum == (q + tmp / TWO_32) * TWO_64 + (tmp % TWO_32) * TWO_32 + ll % TWO_32;
  }

  lemma ProductBound(a: int, b: int)
    requires 0 <= a < TWO_64 && 0 <= b < TWO_64
    ensures 0 <= a * b <= (TWO_64 - 1) * (TWO_64 - 1)
    ensures 0 <= (a * b + TWO_63) / TWO_64 < TWO_64
  {
    BoundedProduct(a, b, TWO_64 - 1);
  }

  /** The rounded high half of the 128-bit product. */
  method Multiply(a: Fp, b: Fp) returns (r: Fp)
    ensures r.frac == (a.frac * b.frac + TWO_63) / TWO_64
    ensures r.exp == a.exp + b.exp + 64
  {
    var ah, al := a.frac / TWO_32, a.frac % TWO_32;
    var bh, bl := b.frac / TWO_32, b.frac % TWO_32;
    HalfProduct(ah, bl); HalfProduct(al, bh); HalfProduct(al, bl); HalfProduct(ah, bh);
    var ah_bl: u64 := ah * bl;
    var al_bh: u64 := al * bh;
    var al_bl: u64 := al * bl;
    var ah_bh: u64 := ah * bh;
    var tmp: u64 := ah_bl % TWO_32 + al_bh % TWO_32 + al_bl / TWO_32;
    tmp := tmp + 0x8000_0000;
    Expand(ah, al, bh, bl);
    RoundedSum(ah_bh, ah_bl, al_bh, al_bl);
    ProductBound(a.frac, b.frac);
    var high: u64 := ah_bh + ah_bl / TWO_32;
    high := high + al_bh / TWO_32;
    high := high + tmp / TWO_32;
    r := Fp(high, a.exp + b.exp + 64);
  }

  // ----- Normalization -----

  /** The bit of weight `bit` of x is 0. */
  predicate IsClear(x: nat, bit: nat)
    requires bit > 0
  {
    x / bit % 2 == 0
  }

  lemma ClearMeansBelow(x: nat)
    ensures x < 2 * HIDDEN_BIT ==> (IsClear(x, HIDDEN_BIT) <==> x < HIDDEN_BIT)
    ensures x < 4 * HIDDEN_BIT ==> (IsClear(x, 2 * HIDDEN_BIT) <==> x < 2 * HIDDEN_BIT)
  {
  }

  /** x shifted left by n bits. */
  ghost function Shl(x: int, n: nat): int { x * Pow2(n) }

  lemma ShlIs(x: int, n: nat)
    ensures Shl(x, n) == x * Pow2(n) && Shl(x, 0) == x
  {
    PowZero(2);
  }

  lemma Doubled(x: int, n: nat)
    ensures Shl(x, n) * 2 == Shl(x, n + 1)
  {
    assert Pow2(n + 1) == 2 * Pow2(n);
    assert x * (2 * Pow2(n)) == x * Pow2(n) * 2;
  }

  lemma ShiftedBy(x: int, m: nat, n: nat)
    ensures Shl(x, m) * Pow2(n) == Shl(x, m + n)
  {
    PowAdd(2, m, n);
    assert x * (Pow2(m) * Pow2(n)) == x * Pow2(m) * Pow2(n);
  }

  /** Shifts left until the top bit is set; the value does not change. */
  method Normalize(fp: Fp) returns (r: Fp)
    requires 1 <= fp.frac < 2 * HIDDEN_BIT
    ensures r.exp <= fp.exp - 11 && r.frac == fp.frac * Pow2(fp.exp - r.exp)
    ensures TWO_63 <= r.frac
  {
    hide Pow, Pow2, Shl, IsClear;
    ShlIs(fp.frac, 0);
    var frac: u64, exp := fp.frac, fp.exp;
    ClearMeansBelow(frac);
    while IsClear(frac, HIDDEN_BIT)
      invariant 1 <= frac < 2 * HIDDEN_BIT && exp <= fp.exp
      invariant frac == Shl(fp.frac, fp.exp - exp)
      invariant IsClear(frac, HIDDEN_BIT) <==> frac < HIDDEN_BIT
      decreases 2 * HIDDEN_BIT - frac
    {
      Doubled(fp.frac, fp.exp - exp);
      frac := frac * 2;
      exp := exp - 1;
      ClearMeansBelow(frac);
    }
    TwoPowers();
    ShiftedBy(fp.frac, fp.exp - exp, 11);
    frac := frac * 2048;
    exp := exp - 11;
    ShlIs(fp.frac, fp.exp - exp);
    r := Fp(frac, exp);
  }

  /** The midpoints to the neighbouring doubles, on one exponent. */
  method GetNormalizedBoundaries(fp: Fp) returns (lower: Fp, upper: Fp)
    requires 1 <= fp.frac < 2 * HIDDEN_BIT
    ensures lower.exp == upper.exp <= fp.exp - 11
    ensures upper.frac == (2 * fp.frac + 1) * Pow2(fp.exp - 1 - upper.exp) && TWO_63 <= upper.frac
    ensures lower.frac == if fp.frac == HIDDEN_BIT then (4 * fp.frac - 1) * Pow2(fp.exp - 2 - upper.exp)
                          else (2 * fp.frac - 1) * Pow2(fp.exp - 1 - upper.exp)
  {
    upper := UpperBoundary(fp);
    hide Pow, Pow2;
    var shift := if fp.frac == HIDDEN_BIT then 2 else 1;
    var lfrac: u64 := (if shift == 2 then fp.frac * 4 else fp.frac * 2) - 1;
    LowerFits(fp.frac, fp.exp - 1 - upper.exp, shift);
    lfrac := lfrac * Pow2(fp.exp - shift - upper.exp);
    lower := Fp(lfrac, upper.exp);
  }

  /** The upper midpoint, shifted until its top bit is set. */
  method UpperBoundary(fp: Fp) returns (upper: Fp)
    requires 1 <= fp.frac < 2 * HIDDEN_BIT
    ensures upper.exp <= fp.exp - 11
    ensures upper.frac == (2 * fp.frac + 1) * Pow2(fp.exp - 1 - upper.exp) && TWO_63 <= upper.frac
  {
    hide Pow, Pow2, Shl, IsClear;
    ghost var odd := 2 * fp.frac + 1;
    ShlIs(odd, 0);
    var frac: u64, exp := fp.frac * 2 + 1, fp.exp - 1;
    ClearMeansBelow(frac);
    while IsClear(frac, 2 * HIDDEN_BIT)
      invariant 1 <= frac < 4 * HIDDEN_BIT && exp <= fp.exp - 1
      invariant frac == Shl(odd, fp.exp - 1 - exp)
      invariant IsClear(frac, 2 * HIDDEN_BIT) <==> frac < 2 * HIDDEN_BIT
      decreases 4 * HIDDEN_BIT - frac
    {
      Doubled(odd, fp.exp - 1 - exp);
      frac := frac * 2;
      exp := exp - 1;
      ClearMeansBelow(frac);
    }
    TwoPowers();
    ShiftedBy(odd, fp.exp - 1 - exp, 10);
    frac := frac * 1024;
    exp := exp - 10;
    ShlIs(odd, fp.exp - 1 - exp);
    upper := Fp(frac, exp);
  }

  /** The lower boundary, shifted as far as the upper one, stays below it. */
  lemma LowerFits(f: nat, n: nat, shift: nat)
    requires 1 <= f && 1 <= shift <= 2 && n >= 1
    ensures shift == 1 ==> 0 <= (2 * f - 1) * Pow2(n) < (2 * f + 1) * Pow2(n)
    ensures shift == 2 ==> 0 <= (4 * f - 1) * Pow2(n - 1) < (2 * f + 1) * Pow2(n)
  {
    PowPositive(2, n - 1);
    var p := Pow2(n - 1);
    assert Pow2(n) == 2 * p;
    assert (4 * f - 1) * p < (4 * f + 2) * p;
    assert (2 * f + 1) * (2 * p) == (4 * f + 2) * p;
    assert (2 * f - 1) * (2 * p) < (2 * f + 1) * (2 * p);
  }
}
