#!/usr/bin/env python3
"""Writes ExactPowers.dfy and CachedPowers.dfy: the table of cached powers of ten and its accuracy proof.

Each entry is the 64-bit fraction nearest to 10^k, for k = -348, -340, ..., 340.
The exact powers of two and ten that the entries are compared with are built up
one table step at a time, so every proof step is linear arithmetic on literals.
"""
from fractions import Fraction
from pathlib import Path

FIRST, STEP, COUNT = -348, 8, 87


def entry(k):
    value = Fraction(10) ** k
    exp = 0
    while value >= Fraction(2) ** (exp + 64):
        exp += 1
    while value < Fraction(2) ** (exp + 63):
        exp -= 1
    return int(value / Fraction(2) ** exp + Fraction(1, 2)), exp


ENTRIES = [(FIRST + STEP * i, *entry(FIRST + STEP * i)) for i in range(COUNT)]


def chunks(items, size=8):
    return [items[i:i + size] for i in range(0, len(items), size)]


def chain(out, name, base, steps):
    """Lemmas for the values of base^n at each n in steps, each from the one before."""
    previous = 0
    for group in chunks(steps):
        out.append(f"  lemma {name}UpTo{group[-1]}()")
        out += [f"    ensures Pow(BASE_{base}, {n}) == {base ** n}" for n in group]
        out.append("  {")
        out.append("    hide Pow;")
        out.append(f"    {name}UpTo{previous}();" if previous else f"    PowZero({base});")
        for n in group:
            out.append(f"    {name}Step{n - previous}({previous});")
            previous = n
        out.append("  }\n")


def covering(name, steps, wanted):
    """The lemmas that give the values at the wanted exponents."""
    return [f"{name}UpTo{group[-1]}();" for group in chunks(steps) if set(group) & set(wanted)]


def gaps(steps):
    return sorted({b - a for a, b in zip([0] + steps, steps)})


POWERS_HEADER = """/**
 * The powers of two and ten that the cached powers are compared with, built up one
 * table step at a time. Written by cached_powers.py.
 */
module ExactPowers {
  import opened Powers

  // Named, so that powers of them are not unrolled as literals.
  const BASE_2: nat := 2
  const BASE_10: nat := 10
"""

HEADER = """/**
 * The cached powers of ten: 64-bit fractions with a binary exponent, every eighth
 * power from 10^-348 to 10^340. Every entry is proved to be within half a unit in
 * the last place of the power it stands for. Written by cached_powers.py.
 */
module CachedPowers {
  import opened Powers
  import opened DiyFp
  import opened ExactPowers

  const FIRST_POWER: int := -348
  const STEP_POWERS: int := 8
  const N_POWERS: nat := 87
"""

HALF_UNIT = """
  /** p is within half a unit in its last place of 10^k. */
  ghost predicate HalfUnit(p: Fp, k: int) {
    -Scale(2, p.exp) <= 2.0 * (p.frac as real * Scale(2, p.exp) - Scale(10, k)) <= Scale(2, p.exp)
  }

  /** Entry i stands for 10^(FIRST_POWER + STEP_POWERS * i). */
  ghost predicate EntryOk(i: nat)
    requires i < N_POWERS
  {
    && HalfUnit(PowerTen(i), FIRST_POWER + STEP_POWERS * i)
    && PowerTen(i).frac >= TWO_63
    && (i + 1 < N_POWERS ==> 26 <= PowerTen(i + 1).exp - PowerTen(i).exp <= 27)
  }

  lemma LargePower(p: Fp, k: nat)
    requires p.exp >= 0
    requires 2 * (p.frac * Pow2(p.exp) - Pow10(k)) <= Pow2(p.exp) && 2 * (Pow10(k) - p.frac * Pow2(p.exp)) <= Pow2(p.exp)
    ensures HalfUnit(p, k)
  {
    hide Pow;
    RealTimes(p.frac, Pow2(p.exp));
  }

  lemma MiddlePower(p: Fp, k: nat)
    requires p.exp < 0 && p.frac == Pow10(k) * Pow2(-p.exp)
    ensures HalfUnit(p, k)
  {
    PowPositive(2, -p.exp);
    var t, u := Pow2(-p.exp) as real, 1.0 / Pow2(-p.exp) as real;
    assert p.frac as real == Pow10(k) as real * t;
    assert t * u == 1.0;
    assert (Pow10(k) as real * t) * u == Pow10(k) as real * (t * u);
  }

  lemma RealGap(f: int, t: int, u: int)
    requires 2 * (f * u - t) <= u && 2 * (t - f * u) <= u
    ensures -(u as real) <= 2.0 * (f as real * u as real - t as real) <= u as real
  {
    RealTimes(f, u);
  }

  lemma SmallPower(p: Fp, k: int)
    requires p.exp < 0 && k < 0
    requires 2 * (p.frac * Pow10(-k) - Pow2(-p.exp)) <= Pow10(-k) && 2 * (Pow2(-p.exp) - p.frac * Pow10(-k)) <= Pow10(-k)
    ensures HalfUnit(p, k)
  {
    hide Pow, Pow2, Pow10, HalfUnit, Scale;
    var t, u := Pow2(-p.exp), Pow10(-k);
    Small(p, k);
    RealGap(p.frac, t, u);
    Reciprocals(p.frac as real, t as real, u as real, 1.0 / t as real, 1.0 / u as real);
    HalfUnitIs(p, k);
  }

  lemma Small(p: Fp, k: int)
    requires p.exp < 0 && k < 0
    ensures Pow2(-p.exp) > 0 && Pow10(-k) > 0
    ensures Scale(2, p.exp) == 1.0 / Pow2(-p.exp) as real && Scale(10, k) == 1.0 / Pow10(-k) as real
  {
    PowPositive(2, -p.exp);
    PowPositive(10, -k);
  }

  lemma HalfUnitIs(p: Fp, k: int)
    ensures HalfUnit(p, k) <==>
      -Scale(2, p.exp) <= 2.0 * (p.frac as real * Scale(2, p.exp) - Scale(10, k)) <= Scale(2, p.exp)
  {
  }

  lemma Reciprocals(f: real, t: real, u: real, a: real, b: real)
    requires t > 0.0 && u > 0.0 && a > 0.0 && b > 0.0 && a * t == 1.0 && b * u == 1.0
    requires -u <= 2.0 * (f * u - t) <= u
    ensures -a <= 2.0 * (f * a - b) <= a
  {
    var c, d := a * b, 2.0 * (f * u - t);
    assert u * c == a by { assert u * (a * b) == a * (b * u); }
    assert d * c == 2.0 * (f * a - b) by {
      assert (f * u) * c == f * (u * c);
      assert t * (a * b) == b * (a * t);
      assert (f * u - t) * c == (f * u) * c - t * c;
    }
    TimesMonotone(-u, d, c);
    TimesMonotone(d, u, c);
    assert (-u) * c == -(u * c);
  }
"""


def main():
    out = [HEADER]
    out.append("  /** Entry i of the table. */\n  function PowerTen(i: nat): Fp\n    requires i < N_POWERS\n  {\n    match i")
    for i, (k, frac, exp) in enumerate(ENTRIES):
        case = i if i < COUNT - 1 else "_"
        out.append(f"    case {case} => Fp({frac}, {exp})")
    out.append("  }")
    out.append(HALF_UNIT)
    negative = sorted(-e for _, _, e in ENTRIES if e < 0)
    positive = sorted(e for _, _, e in ENTRIES if e >= 0)
    tens = sorted({abs(k) for k, _, _ in ENTRIES})
    exact = [POWERS_HEADER]
    for name, base, steps in (("Two", 2, gaps(negative) + gaps(positive)), ("Ten", 10, gaps(tens))):
        for gap in sorted(set(steps)):
            exact.append(f"  lemma {name}Step{gap}(n: nat)\n    ensures Pow(BASE_{base}, n + {gap}) == {base ** gap} * Pow(BASE_{base}, n)\n  {{")
            exact.append(f"    PowAdd({base}, {gap}, n);")
            half = gap // 2
            if gap > 8:
                exact.append(f"    PowAdd({base}, {half}, {gap - half});")
                for part in sorted({half, gap - half}):
                    if part > 8:
                        exact.append(f"    PowAdd({base}, {part // 2}, {part - part // 2});")
                        for quarter in sorted({part // 2, part - part // 2}):
                            exact.append(f"    assert Pow({base}, {quarter}) == {base ** quarter};")
                    else:
                        exact.append(f"    assert Pow({base}, {part}) == {base ** part};")
            exact.append(f"    assert Pow({base}, {gap}) == {base ** gap};\n  }}\n")
    chain(exact, "Two", 2, negative)
    chain(exact, "Two", 2, positive)
    chain(exact, "Ten", 10, tens)
    exact.append("}")
    out.append("  // ----- The entries -----\n")
    blocks = chunks(list(enumerate(ENTRIES)), 5)
    for block in blocks:
        first, last = block[0][0], block[-1][0]
        exps = [exp for _, (_, _, exp) in block]
        out.append(f"  lemma Entries{first}To{last}(i: nat)\n    requires {first} <= i <= {last}")
        out.append("    ensures EntryOk(i)\n  {\n    hide Pow, HalfUnit, Scale;")
        calls = covering("Two", negative, [-e for e in exps if e < 0])
        calls += covering("Two", positive, [e for e in exps if e >= 0])
        calls += covering("Ten", tens, [abs(k) for _, (k, _, _) in block])
        out += [f"    {c}" for c in calls]
        for i, (k, frac, exp) in block:
            kind = "LargePower" if exp >= 0 else "MiddlePower" if k >= 0 else "SmallPower"
            out.append(f"    if i == {i} {{ {kind}(PowerTen({i}), FIRST_POWER + STEP_POWERS * {i}); }}")
        out.append("  }\n")
    out.append("  /** Every entry of the table is accurate to half a unit, and neighbours are 26 or 27 binary places apart. */")
    out.append("  lemma TableIsAccurate(i: nat)\n    requires i < N_POWERS\n    ensures EntryOk(i)\n  {")
    out.append("    hide EntryOk;")
    for n, block in enumerate(blocks):
        word = "if" if n == 0 else "} else if"
        last = block[-1][0]
        head = f"    {word} i <= {last} {{" if n < len(blocks) - 1 else "    } else {"
        out.append(f"{head}\n      Entries{block[0][0]}To{last}(i);")
    out.append("    }\n  }\n}")
    Path("ExactPowers.dfy").write_text("\n".join(exact).replace("}\n\n}", "}\n}") + "\n")
    Path("CachedPowers.dfy").write_text("\n".join(out) + "\n")


main()
