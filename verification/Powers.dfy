/** Powers of two and ten, as integers and, for negative exponents too, as reals. */
module Powers {

  function Pow(b: nat, n: nat): nat {
    if n == 0 then 1 else b * Pow(b, n - 1)
  }

  function Pow2(n: nat): nat { Pow(2, n) }

  function Pow10(n: nat): nat { Pow(10, n) }

  lemma PowZero(b: nat)
    ensures Pow(b, 0) == 1
  {
  }

  lemma {:induction false} PowPositive(b: nat, n: nat)
    requires b > 0
    ensures Pow(b, n) > 0
  {
    if n > 0 { PowPositive(b, n - 1); }
  }

  lemma Regroup(a: int, b: int, c: int)
    ensures a * (b * c) == a * b * c
  {
  }

  lemma PowNext(b: nat, n: nat)
    ensures Pow(b, n + 1) == b * Pow(b, n)
  {
  }

  lemma {:induction false} PowAdd(b: nat, m: nat, n: nat)
    ensures Pow(b, m + n) == Pow(b, m) * Pow(b, n)
  {
    if m > 0 {
      PowAdd(b, m - 1, n);
      PowNext(b, m - 1);
      PowNext(b, m - 1 + n);
      hide Pow;
      Regroup(b, Pow(b, m - 1), Pow(b, n));
    }
  }

  lemma {:induction false} PowIncreases(b: nat, m: nat, n: nat)
    requires b > 1 && m <= n
    ensures Pow(b, m) <= Pow(b, n)
    ensures m < n ==> Pow(b, m) < Pow(b, n)
  {
    if m < n {
      PowIncreases(b, m, n - 1);
      PowPositive(b, n - 1);
      Times(b, Pow(b, n - 1));
    }
  }

  lemma Times(b: nat, p: nat)
    requires b > 1 && p > 0
    ensures b * p > p
  {
  }

  /** The other direction: a smaller power has a smaller exponent. */
  lemma PowReflects(b: nat, m: nat, n: nat)
    requires b > 1 && Pow(b, m) < Pow(b, n)
    ensures m < n
  {
    if n <= m { PowIncreases(b, n, m); }
  }

  // ----- Real powers with integer exponents -----

  lemma RealTimes(a: int, b: int)
    ensures (a * b) as real == a as real * b as real
  {
  }

  function Scale(b: nat, e: int): (r: real)
    requires b > 0
    ensures r > 0.0
  {
    PowPositive(b, if e >= 0 then e else -e);
    if e >= 0 then Pow(b, e) as real else 1.0 / Pow(b, -e) as real
  }

  lemma Inverse(b: real, p: real)
    requires b > 0.0 && p > 0.0
    ensures b * (1.0 / (b * p)) == 1.0 / p
  {
    var x := 1.0 / (b * p);
    assert x * (b * p) == 1.0;
    assert (b * x) * p == 1.0;
  }

  lemma ScaleStep(b: nat, e: int)
    requires b > 0
    ensures Scale(b, e + 1) == b as real * Scale(b, e)
  {
    if e < 0 {
      PowPositive(b, -e - 1);
      assert Pow(b, -e) == b * Pow(b, -e - 1);
      Inverse(b as real, Pow(b, -e - 1) as real);
    }
  }

  lemma ScaleZero(b: nat)
    requires b > 0
    ensures Scale(b, 0) == 1.0
  {
  }

  lemma {:induction false} ScaleAdd(b: nat, x: int, y: int)
    requires b > 0
    ensures Scale(b, x + y) == Scale(b, x) * Scale(b, y)
    decreases if y >= 0 then y else -y
  {
    hide Scale;
    var r := b as real;
    if y == 0 {
      ScaleZero(b);
    } else if y > 0 {
      ScaleAdd(b, x, y - 1);
      ScaleStep(b, x + y - 1);
      ScaleStep(b, y - 1);
      Reassociate(r, Scale(b, x), Scale(b, y - 1));
    } else {
      ScaleAdd(b, x, y + 1);
      ScaleStep(b, x + y);
      ScaleStep(b, y);
      Reassociate(r, Scale(b, x), Scale(b, y));
      assert r * Scale(b, x + y) == r * (Scale(b, x) * Scale(b, y));
      Cancel(r, Scale(b, x + y), Scale(b, x) * Scale(b, y));
    }
  }

  lemma Reassociate(a: real, b: real, c: real)
    ensures a * (b * c) == b * (a * c)
  {
  }

  lemma Cancel(a: real, x: real, y: real)
    requires a > 0.0 && a * x == a * y
    ensures x == y
  {
    assert a * (x - y) == 0.0;
  }

  lemma TimesMonotone(a: real, b: real, c: real)
    requires c > 0.0
    ensures a < b ==> a * c < b * c
    ensures a <= b ==> a * c <= b * c
  {
  }

  /** Scaling by a positive factor does not change an order. */
  lemma ScaledOrder(a: real, b: real, c: real)
    requires c > 0.0 && a * c < b * c
    ensures a < b
  {
    if a >= b { TimesMonotone(b, a, c); }
  }
}
