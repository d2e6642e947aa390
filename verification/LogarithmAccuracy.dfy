/** How high the 30-term logarithm series can get: it stays clearly below ln 2 on [1, 2), so
    `ln_scaled` drops just below every power of two. */
module LogarithmAccuracy {
  import opened Fixed
  import opened Logarithm
  import Taylor

  lemma BernoulliStep(z: real, m: real, p: real, q: real, r: real)
    requires 0.0 <= z && m >= 1.0 && 0.0 <= p && q == p * z && r == q * z && m * p - (m - 1.0) * q <= 1.0
    ensures 0.0 <= q && (m + 1.0) * q - m * r <= 1.0
  {
    var d := 1.0 - z;
    Taylor.MulMono(0.0, p, z);
    assert r == p * z * z;
    assert p * (d * d) == p - 2.0 * q + r;
    assert 0.0 <= d * d;
    assert 0.0 <= p * (d * d);
    Taylor.MulMono(0.0, p * (d * d), m);
    assert m * (p - 2.0 * q + r) == m * p - 2.0 * (m * q) + m * r;
  }

  // (m + 1) z^m - m z^(m+1) <= 1: each step down loses m z^(m-1) (1 - z)^2.
  lemma {:induction false} Bernoulli(z: real, m: nat)
    requires 0.0 <= z <= 1.0
    ensures (m as real + 1.0) * Taylor.Pow(z, m) - m as real * Taylor.Pow(z, m + 1) <= 1.0
    ensures 0.0 <= Taylor.Pow(z, m)
  {
    if m > 0 {
      Bernoulli(z, m - 1);
      BernoulliStep(z, m as real, Taylor.Pow(z, m - 1), Taylor.Pow(z, m), Taylor.Pow(z, m + 1));
    }
  }

  lemma FloorMul(p: int, y: int, q: int)
    requires 0 <= p && 0 <= y && q == p * y / SCALE
    ensures q as real <= p as real * Taylor.Unscaled(y) <= q as real + 1.0
  {
    assert q * SCALE <= p * y < (q + 1) * SCALE;
    assert (p * y) as real == p as real * y as real;
    assert p as real * Taylor.Unscaled(y) == (p * y) as real / 10_000_000.0;
  }

  lemma ScaleBelow(p: real, w: real, z: real, q: real, v: real)
    requires 0.0 <= z && p <= 10_000_000.0 * w && q <= p * z && v == w * z
    ensures q <= 10_000_000.0 * v
  {
    Taylor.MulMono(p, 10_000_000.0 * w, z);
    assert (10_000_000.0 * w) * z == 10_000_000.0 * (w * z);
  }

  // A pair of neighbouring terms is at most SCALE/(m(m+1)) + 1.
  lemma TimesBoth(m: real, n: real, c: real, a: real, p: real)
    requires 0.0 <= n && c == m * n && m * a <= p
    ensures c * a <= n * p
  {
    Taylor.MulMono(m * a, p, n);
    assert c * a == (m * a) * n;
  }

  lemma TimesBothLow(m: real, n: real, c: real, b: real, r: real)
    requires 0.0 <= m && c == m * n && r <= n * b
    ensures m * r <= c * b
  {
    Taylor.MulMono(r, n * b, m);
    assert c * b == (n * b) * m;
  }

  lemma PairPeak(m: real, n: real, p: real, z: real, x: real, w: real, v: real)
    requires m >= 1.0 && n == m + 1.0 && 0.0 <= z <= 1.0 && v == w * z && x == p * z
    requires p <= 10_000_000.0 * w && n * w - m * v <= 1.0
    ensures n * p - m * x <= 10_000_000.0
  {
    var k := n - m * z;
    Taylor.MulMono(z, 1.0, m);
    Taylor.MulMono(p, 10_000_000.0 * w, k);
    assert p * k == n * p - m * x;
    assert (10_000_000.0 * w) * k == 10_000_000.0 * (n * w - m * v);
  }

  lemma PairArith(m: real, n: real, c: real, a: real, b: real, p: real, q: real, x: real)
    requires m >= 1.0 && n == m + 1.0 && c == m * n
    requires m * a <= p && q - m <= n * b && x <= q + 1.0 && n * p - m * x <= 10_000_000.0
    ensures c * (a - b) <= 10_000_000.0 + c
  {
    TimesBoth(m, n, c, a, p);
    TimesBothLow(m, n, c, b, q - m);
    Taylor.MulMono(x - 1.0 - m, q - m, m);
    assert m * (x - 1.0 - m) == m * x - m * n;
    Taylor.Distribute(a, -b, c);
  }

  // The powers and the terms of the series as real sequences, with what rounding leaves of them.
  ghost predicate RoundedAt(p: nat -> real, a: nat -> real, z: real, k: nat) {
    k >= 1 ==>
      && p(k + 1) <= p(k) * z <= p(k + 1) + 1.0
      && k as real * a(k) <= p(k) <= k as real * a(k) + (k as real - 1.0)
  }

  ghost predicate Rounded(p: nat -> real, a: nat -> real, z: real) {
    p(1) == 10_000_000.0 * z && forall k: nat :: RoundedAt(p, a, z, k)
  }

  ghost function PairTotal(a: nat -> real, j: nat): real {
    if j == 0 then 0.0 else PairTotal(a, j - 1) + (a(2 * j - 1) - a(2 * j))
  }

  ghost function Powers(y: int): nat -> real
    requires 0 <= y
  {
    (k: nat) => Power(y, k) as real
  }

  ghost function Parts(y: int): nat -> real
    requires 0 <= y
  {
    (k: nat) => if k >= 1 then Part(y, k) as real else 0.0
  }

  lemma PartFloor(p: int, k: int, a: int)
    requires k >= 1 && a == p / k
    ensures k as real * a as real <= p as real <= k as real * a as real + (k as real - 1.0)
  {
    assert k * a <= p <= k * a + k - 1;
    assert (k * a) as real == k as real * a as real;
  }

  lemma SeriesRounded(y: int)
    requires 0 <= y
    ensures Rounded(Powers(y), Parts(y), Taylor.Unscaled(y))
  {
    var p, a, z := Powers(y), Parts(y), Taylor.Unscaled(y);
    forall k: nat
      ensures RoundedAt(p, a, z, k)
    {
      if k >= 1 {
        FloorMul(Power(y, k), y, Power(y, k + 1));
        PartFloor(Power(y, k), k, Part(y, k));
      }
    }
  }

  lemma SeriesTwo(y: int, n: nat)
    requires 0 <= y && n % 2 == 0
    ensures Series(y, n + 2) == Series(y, n) + (Part(y, n + 1) - Part(y, n + 2))
  {
    assert Sign(n + 1) == 1 && Sign(n + 2) == -1;
    assert Series(y, n + 1) == Series(y, n) + Part(y, n + 1);
  }

  lemma {:induction false} SeriesPairs(y: int, j: nat)
    requires 0 <= y
    ensures Series(y, 2 * j) as real == PairTotal(Parts(y), j)
  {
    if j > 0 {
      var a := Parts(y);
      SeriesPairs(y, j - 1);
      SeriesTwo(y, 2 * j - 2);
      assert a(2 * j - 1) == Part(y, 2 * j - 1) as real && a(2 * j) == Part(y, 2 * j) as real;
    }
  }

  lemma {:induction false} PowerBelow(p: nat -> real, a: nat -> real, z: real, k: nat)
    requires 0.0 <= z && k >= 1 && Rounded(p, a, z)
    ensures p(k) <= 10_000_000.0 * Taylor.Pow(z, k)
  {
    if k == 1 {
      assert Taylor.Pow(z, 0) == 1.0 && Taylor.Pow(z, 1) == z;
    } else {
      PowerBelow(p, a, z, k - 1);
      assert RoundedAt(p, a, z, k - 1);
      ScaleBelow(p(k - 1), Taylor.Pow(z, k - 1), z, p(k), Taylor.Pow(z, k));
    }
  }

  // w and v stand for z^k and z^(k+1).
  lemma PowerPair(p: nat -> real, a: nat -> real, z: real, k: nat) returns (w: real, v: real)
    requires 0.0 <= z <= 1.0 && k >= 1 && Rounded(p, a, z)
    ensures v == w * z && p(k) <= 10_000_000.0 * w && (k + 1) as real * w - k as real * v <= 1.0
  {
    w, v := Taylor.Pow(z, k), Taylor.Pow(z, k + 1);
    PowerBelow(p, a, z, k);
    Bernoulli(z, k);
  }

  lemma PairBound(p: nat -> real, a: nat -> real, z: real, k: nat, c: real)
    requires 0.0 <= z <= 1.0 && k >= 1 && Rounded(p, a, z) && c == k as real * (k + 1) as real
    ensures c * (a(k) - a(k + 1)) <= 10_000_000.0 + c
  {
    var m, n, x := k as real, (k + 1) as real, p(k) * z;
    var w, v := PowerPair(p, a, z, k);
    assert RoundedAt(p, a, z, k) && RoundedAt(p, a, z, k + 1);
    PairPeak(m, n, p(k), z, x, w, v);
    PairArith(m, n, c, a(k), a(k + 1), p(k), p(k + 1), x);
  }

  // 1/(1*2) + 1/(3*4) + ... , j terms
  function PairBudget(j: nat): real {
    if j == 0 then 0.0 else PairBudget(j - 1) + 1.0 / ((2 * j - 1) as real * (2 * j) as real)
  }

  lemma Divide(c: real, d: real, q: real)
    requires c > 0.0 && c * d <= 10_000_000.0 + c && q == 1.0 / c
    ensures d <= 10_000_000.0 * q + 1.0
  {
    assert c * q == 1.0;
    var e := 10_000_000.0 * q + 1.0;
    assert c * e == 10_000_000.0 * (c * q) + c;
    Taylor.LeCancel(d, e, c);
  }

  lemma {:induction false} PairTotalBound(p: nat -> real, a: nat -> real, z: real, j: nat)
    requires 0.0 <= z <= 1.0 && Rounded(p, a, z)
    ensures PairTotal(a, j) <= 10_000_000.0 * PairBudget(j) + j as real
  {
    if j > 0 {
      var k := 2 * j - 1;
      var c := k as real * (k + 1) as real;
      PairTotalBound(p, a, z, j - 1);
      PairBound(p, a, z, k, c);
      Divide(c, a(k) - a(k + 1), 1.0 / c);
    }
  }

  const SERIES_CAP: int := 6_767_600

  lemma BudgetAtFifteen()
    ensures 10_000_000.0 * PairBudget(15) + 15.0 <= 6_767_600.0
  {
    assert PairBudget(5) == 1627.0 / 2520.0;
    assert PairBudget(10) == 155685007.0 / 232792560.0;
  }

  // ln 2 * SCALE is 6_931_472; the series at any mantissa stays below 6_767_600.
  lemma SeriesBelowCap(y: int)
    requires 0 <= y <= SCALE
    ensures Series(y, LN_ITERATIONS) <= SERIES_CAP
  {
    SeriesRounded(y);
    SeriesPairs(y, 15);
    PairTotalBound(Powers(y), Parts(y), Taylor.Unscaled(y), 15);
    BudgetAtFifteen();
  }

  lemma LnBelowTwo(x: int)
    requires SCALE <= x <= 2 * SCALE
    ensures Ln(x).Ok? && Ln(x).value <= if x < 2 * SCALE then SERIES_CAP else LN2_SCALED
  {
    if x < 2 * SCALE {
      assert Normalise(x) == Normal(x, 0);
      SeriesBelowCap(x - SCALE);
    } else {
      LnOfTwo();
    }
  }
}
