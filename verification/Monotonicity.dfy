/** Within b of balance, but not on it, the rounded cost rises with the quantity and at most as fast,
    up to a rounding slack of 206 units per b. Regimes covers all distances. */
module Monotonicity {
  import opened Fixed
  import opened Exponential
  import opened ExponentialAccuracy
  import opened Logarithm
  import opened LogarithmAccuracy
  import opened Lmsr
  import CostLaws
  import Taylor

  // ---- Differences of powers: w^k - z^k = (w - z) * Mixed(k) ----

  // w^(k-1) + w^(k-2) z + ... + z^(k-1)
  ghost function Mixed(z: real, w: real, k: nat): real {
    if k == 0 then 0.0 else w * Mixed(z, w, k - 1) + Taylor.Pow(z, k - 1)
  }

  lemma DifferenceStep(z: real, w: real, p: real, q: real, m: real)
    requires p - q == (w - z) * m
    ensures p * w - q * z == (w - z) * (w * m + q)
  {
    Taylor.Distribute(p, -q, w);
    assert (w - z) * (w * m + q) == ((w - z) * m) * w + (w - z) * q;
  }

  lemma {:induction false} PowDifference(z: real, w: real, k: nat)
    ensures Taylor.Pow(w, k) - Taylor.Pow(z, k) == (w - z) * Mixed(z, w, k)
  {
    if k > 0 {
      PowDifference(z, w, k - 1);
      var p, q, m := Taylor.Pow(w, k - 1), Taylor.Pow(z, k - 1), Mixed(z, w, k - 1);
      DifferenceStep(z, w, p, q, m);
    }
  }

  lemma MixedUnfold(z: real, w: real, k: nat)
    requires k >= 1
    ensures Mixed(z, w, k + 1) == w * Mixed(z, w, k) + Taylor.Pow(z, k)
    ensures Taylor.Pow(z, k) == Taylor.Pow(z, k - 1) * z
  {}

  lemma MixedFirst(z: real, w: real)
    ensures Mixed(z, w, 1) == 1.0 && Taylor.Pow(z, 0) == 1.0
  {
    assert Mixed(z, w, 0) == 0.0;
  }

  lemma MixedGrows(z: real, w: real, k: real, p: real, q: real, m: real)
    requires 0.0 <= z <= w && 0.0 <= k && 0.0 <= p && q == p * z && k * p <= m
    ensures 0.0 <= (k + 1.0) * q <= w * m + q
  {
    Taylor.MulMono(0.0, p, z);
    Taylor.MulMono(0.0, q, k);
    Taylor.MulMono(0.0, p, k);
    Taylor.MulMono(k * p, m, z);
    Taylor.MulMono(z, w, m);
    assert k * q == (k * p) * z;
  }

  // The mean of the k + 1 products of degree k is at most that of the k products of degree k - 1.
  lemma {:induction false} MixedLow(z: real, w: real, k: nat)
    requires 0.0 <= z <= w && k >= 1
    ensures 0.0 <= k as real * Taylor.Pow(z, k - 1) <= Mixed(z, w, k)
  {
    hide *;
    if k == 1 {
      MixedFirst(z, w);
    } else {
      MixedLow(z, w, k - 1);
      MixedUnfold(z, w, k - 1);
      Taylor.PowBounds(z, z, k - 2);
      MixedGrows(z, w, (k - 1) as real, Taylor.Pow(z, k - 2), Taylor.Pow(z, k - 1), Mixed(z, w, k - 1));
    }
  }

  lemma MixedMean(z: real, w: real, k: real, p: real, m: real)
    requires 0.0 <= z <= 1.0 && w <= 1.0 && 1.0 <= k && 0.0 <= k * p <= m
    ensures k * (w * m + p * z) <= (k + 1.0) * m
  {
    Taylor.MulMono(z, 1.0, k * p);
    assert k * (p * z) == (k * p) * z;
    Taylor.MulMono(w, 1.0, k * m);
    assert k * (w * m) == w * (k * m);
  }

  lemma MixedBounds(z: real, w: real, k: nat)
    requires 0.0 <= z <= w <= 1.0 && k >= 1
    ensures 0.0 <= Mixed(z, w, k)
    ensures k as real * Mixed(z, w, k + 1) <= (k + 1) as real * Mixed(z, w, k)
  {
    hide *;
    MixedLow(z, w, k);
    MixedUnfold(z, w, k);
    MixedMean(z, w, k as real, Taylor.Pow(z, k - 1), Mixed(z, w, k));
  }

  // ---- Alternating sums of a falling sequence, two terms at a time ----

  ghost predicate FallsAt(d: nat -> real, k: nat) {
    k >= 1 ==> 0.0 <= d(k + 1) <= d(k)
  }

  ghost predicate Falls(d: nat -> real) {
    forall k: nat :: FallsAt(d, k)
  }

  lemma {:induction false} PairsOfFalling(d: nat -> real, j: nat)
    requires Falls(d) && j >= 1
    ensures 0.0 <= d(1) - d(2) <= PairTotal(d, j) <= d(1) - d(2 * j)
  {
    assert FallsAt(d, 2 * j - 1) && FallsAt(d, 2 * j - 2);
    if j > 1 {
      PairsOfFalling(d, j - 1);
    } else {
      assert PairTotal(d, 0) == 0.0;
    }
  }

  // a = b + d termwise, up to an error between 0 and e.
  ghost predicate CloseAt(a: nat -> real, b: nat -> real, e: real, k: nat) {
    k >= 1 ==> 0.0 <= a(k) - b(k) <= e
  }

  lemma {:induction false} PairsClose(a: nat -> real, b: nat -> real, e: real, j: nat)
    requires forall k: nat :: CloseAt(a, b, e, k)
    ensures -(j as real * e) <= PairTotal(a, j) - PairTotal(b, j) <= j as real * e
  {
    if j > 0 {
      PairsClose(a, b, e, j - 1);
      assert CloseAt(a, b, e, 2 * j - 1) && CloseAt(a, b, e, 2 * j);
      assert j as real * e == (j - 1) as real * e + e;
    }
  }

  lemma {:induction false} PairsOfDifference(a: nat -> real, b: nat -> real, j: nat)
    ensures PairTotal(Taylor.Difference(a, b), j) == PairTotal(a, j) - PairTotal(b, j)
  {
    if j > 0 {
      PairsOfDifference(a, b, j - 1);
    }
  }

  // ---- The logarithm series ----

  // SCALE * z^k / k
  ghost function Exact(z: real): nat -> real {
    (k: nat) => if k == 0 then 0.0 else 10_000_000.0 * Taylor.Pow(z, k) / k as real
  }

  lemma TimesQuotient(x: real, k: real)
    requires k >= 1.0
    ensures k * (x / k) == x
  {}

  lemma ExactTimes(z: real, k: nat)
    requires k >= 1
    ensures k as real * Exact(z)(k) == 10_000_000.0 * Taylor.Pow(z, k)
  {
    TimesQuotient(10_000_000.0 * Taylor.Pow(z, k), k as real);
  }

  lemma ProductOrder(h: real, a: real, b: real, x: real, y: real)
    requires 0.0 <= h && a <= b && x == 10_000_000.0 * (h * a) && y == 10_000_000.0 * (h * b)
    ensures x <= y
  {
    Taylor.MulMono(a, b, h);
  }

  // Multiplying by k * r turns t = x / k and s = y / r into r * x and k * y.
  lemma CrossCancel(k: real, r: real, t: real, s: real, x: real, y: real)
    requires 1.0 <= k && 1.0 <= r && k * t == x && r * s == y && k * y <= r * x && 0.0 <= y
    ensures 0.0 <= s <= t
  {
    var c := k * r;
    Taylor.MulMono(1.0, k, r);
    assert c * s == k * (r * s);
    assert c * t == r * (k * t);
    Taylor.LeCancel(s, t, c);
    Taylor.LeCancel(0.0, s, r);
  }

  lemma QuotientFalls(h: real, k: real, r: real, m: real, n: real, t: real, s: real)
    requires 0.0 <= h && 1.0 <= k && r == k + 1.0 && 0.0 <= n && k * n <= r * m
    requires k * t == 10_000_000.0 * (h * m) && r * s == 10_000_000.0 * (h * n)
    ensures 0.0 <= s <= t
  {
    var x, y := 10_000_000.0 * (h * m), 10_000_000.0 * (h * n);
    assert k * y == 10_000_000.0 * (h * (k * n));
    assert r * x == 10_000_000.0 * (h * (r * m));
    ProductOrder(h, k * n, r * m, k * y, r * x);
    ProductOrder(h, 0.0, n, 0.0, y);
    CrossCancel(k, r, t, s, x, y);
  }

  lemma FallsFrom(d: nat -> real, h: real, k: nat, m: real, n: real)
    requires k >= 1 && 0.0 <= h && 0.0 <= n && k as real * n <= (k + 1) as real * m
    requires k as real * d(k) == 10_000_000.0 * (h * m) && (k + 1) as real * d(k + 1) == 10_000_000.0 * (h * n)
    ensures FallsAt(d, k)
  {
    QuotientFalls(h, k as real, (k + 1) as real, m, n, d(k), d(k + 1));
  }

  lemma ExactDifference(z: real, w: real, k: nat)
    requires k >= 1
    ensures k as real * Taylor.Difference(Exact(w), Exact(z))(k) == 10_000_000.0 * ((w - z) * Mixed(z, w, k))
  {
    hide Exact, Mixed;
    PowDifference(z, w, k);
    ExactTimes(z, k);
    ExactTimes(w, k);
    var d := Taylor.Difference(Exact(w), Exact(z))(k);
    Taylor.DistributeSum(Exact(w)(k), d, Exact(z)(k), k as real);
  }

  lemma ExactFallsAt(z: real, w: real, k: nat)
    requires 0.0 <= z <= w <= 1.0 && k >= 1
    ensures FallsAt(Taylor.Difference(Exact(w), Exact(z)), k)
  {
    hide *;
    MixedBounds(z, w, k);
    MixedBounds(z, w, k + 1);
    ExactDifference(z, w, k);
    ExactDifference(z, w, k + 1);
    FallsFrom(Taylor.Difference(Exact(w), Exact(z)), w - z, k, Mixed(z, w, k), Mixed(z, w, k + 1));
  }

  lemma ExactFalls(z: real, w: real)
    requires 0.0 <= z <= w <= 1.0
    ensures Falls(Taylor.Difference(Exact(w), Exact(z)))
    ensures Taylor.Difference(Exact(w), Exact(z))(1) == 10_000_000.0 * (w - z)
  {
    forall k: nat
      ensures FallsAt(Taylor.Difference(Exact(w), Exact(z)), k)
    {
      if k >= 1 {
        ExactFallsAt(z, w, k);
      }
    }
    assert Taylor.Pow(w, 0) == 1.0 && Taylor.Pow(w, 1) == w;
    assert Taylor.Pow(z, 0) == 1.0 && Taylor.Pow(z, 1) == z;
  }

  lemma UnitProduct(d: real, z: real)
    requires 0.0 <= z <= 1.0 && 0.0 <= d
    ensures 0.0 <= d * z <= d
  {
    Taylor.MulMono(z, 1.0, d);
  }

  // wz, dz and qz are the products with z of w == d + q.
  lemma PowerLoss(wz: real, dz: real, qz: real, d: real, e: real, p: real)
    requires wz == dz + qz && 0.0 <= dz <= d <= e && p <= qz <= p + 1.0
    ensures 0.0 <= wz - p <= e + 1.0
  {}

  // Rounding takes less than 2 units from each term.
  lemma {:induction false} PowersLose(p: nat -> real, a: nat -> real, z: real, k: nat)
    requires 0.0 <= z <= 1.0 && k >= 1 && Rounded(p, a, z)
    ensures 0.0 <= 10_000_000.0 * Taylor.Pow(z, k) - p(k) <= (k - 1) as real
  {
    if k == 1 {
      assert Taylor.Pow(z, 0) == 1.0 && Taylor.Pow(z, 1) == z;
    } else {
      PowersLose(p, a, z, k - 1);
      assert RoundedAt(p, a, z, k - 1);
      var w, q := 10_000_000.0 * Taylor.Pow(z, k - 1), p(k - 1);
      var d := w - q;
      assert 10_000_000.0 * Taylor.Pow(z, k) == w * z;
      Taylor.DistributeSum(w, d, q, z);
      UnitProduct(d, z);
      PowerLoss(w * z, d * z, q * z, d, (k - 2) as real, p(k));
    }
  }

  // kq, kd and ka are the products with k of q == d + a.
  lemma TermLoss(k: real, d: real, kq: real, kd: real, ka: real, p: real)
    requires 1.0 <= k && kd == k * d && kq == kd + ka && 0.0 <= kq - p <= k - 1.0 && ka <= p <= ka + (k - 1.0)
    ensures 0.0 <= d <= 2.0
  {
    Taylor.LeCancel(0.0, d, k);
    assert k * 2.0 == 2.0 * k;
    Taylor.LeCancel(d, 2.0, k);
  }

  lemma TermNearExact(p: nat -> real, a: nat -> real, z: real, k: nat)
    requires 0.0 <= z <= 1.0 && Rounded(p, a, z)
    ensures CloseAt(Exact(z), a, 2.0, k)
  {
    hide Taylor.Pow, Exact;
    if k >= 1 {
      PowersLose(p, a, z, k);
      assert RoundedAt(p, a, z, k);
      ExactTimes(z, k);
      hide Rounded, RoundedAt;
      var q := Exact(z)(k);
      var r, d := k as real, q - a(k);
      Taylor.DistributeSum(q, d, a(k), r);
      TermLoss(r, d, r * q, r * d, r * a(k), p(k));
    }
  }

  lemma SeriesNearExact(y: int, j: nat)
    requires 0 <= y <= SCALE
    ensures -(j as real * 2.0) <= PairTotal(Exact(Taylor.Unscaled(y)), j) - Series(y, 2 * j) as real <= j as real * 2.0
  {
    var z := Taylor.Unscaled(y);
    assert 0.0 <= z <= 1.0;
    hide *;
    SeriesRounded(y);
    forall k: nat
      ensures CloseAt(Exact(z), Parts(y), 2.0, k)
    {
      TermNearExact(Powers(y), Parts(y), z, k);
    }
    PairsClose(Exact(z), Parts(y), 2.0, j);
    SeriesPairs(y, j);
  }

  // The series follows its argument, with slope between 0 and 1 up to 4 units per pair of terms.
  lemma SeriesFollows(y: int, x: int, j: nat)
    requires 0 <= y <= x <= SCALE && j >= 1
    ensures -(4 * j) <= Series(x, 2 * j) - Series(y, 2 * j) <= x - y + 4 * j
  {
    var z, w := Taylor.Unscaled(y), Taylor.Unscaled(x);
    SeriesNearExact(y, j);
    SeriesNearExact(x, j);
    ExactFalls(z, w);
    var d := Taylor.Difference(Exact(w), Exact(z));
    PairsOfFalling(d, j);
    assert FallsAt(d, 2 * j - 1);
    PairsOfDifference(Exact(w), Exact(z), j);
    assert 10_000_000.0 * (w - z) == x as real - y as real;
  }

  lemma ExactPair(z: real, w: real)
    requires 0.0 <= z <= w <= 1.0
    ensures var d := Taylor.Difference(Exact(w), Exact(z));
      d(1) - d(2) == 10_000_000.0 * ((w - z) * (1.0 - (w + z) / 2.0))
  {
    assert Taylor.Pow(w, 0) == 1.0 && Taylor.Pow(w, 1) == w && Taylor.Pow(w, 2) == w * w;
    assert Taylor.Pow(z, 0) == 1.0 && Taylor.Pow(z, 1) == z && Taylor.Pow(z, 2) == z * z;
    assert (w - z) * (1.0 - (w + z) / 2.0) == w - z - (w * w - z * z) / 2.0;
  }

  lemma GainProduct(a: real, b: real, dx: int, r: int)
    requires 10_000_000.0 * a == dx as real && 20_000_000.0 * b == r as real
    ensures 20_000_000.0 * (10_000_000.0 * (a * b)) == (dx * r) as real
  {
    assert (dx * r) as real == dx as real * r as real;
    assert (10_000_000.0 * a) * (20_000_000.0 * b) == 20_000_000.0 * (10_000_000.0 * (a * b));
  }

  lemma GainArith(dx: int, r: int, room: int, gain: int, g: real)
    requires 0 <= dx && 0 <= room <= r && 20_000_000.0 * g == (dx * r) as real && g - 60.0 <= gain as real
    ensures dx * room <= 2 * SCALE * (gain + 60)
  {
    MulLe(room, r, dx);
    assert (dx * r) as real <= 20_000_000.0 * (gain + 60) as real;
  }

  ghost function FirstPair(z: real, w: real): real {
    10_000_000.0 * ((w - z) * (1.0 - (w + z) / 2.0))
  }

  lemma SeriesNear(y: int, j: nat)
    requires 0 <= y <= SCALE && j <= 15
    ensures 0.0 <= Taylor.Unscaled(y) <= 1.0
    ensures -30.0 <= PairTotal(Exact(Taylor.Unscaled(y)), j) - Series(y, 2 * j) as real <= 30.0
  {
    SeriesNearExact(y, j);
  }

  lemma FallingPairs(z: real, w: real, j: nat)
    requires 0.0 <= z <= w <= 1.0 && j >= 1
    ensures FirstPair(z, w) <= PairTotal(Exact(w), j) - PairTotal(Exact(z), j)
  {
    hide Exact, PairTotal, Taylor.Pow;
    ExactFalls(z, w);
    PairsOfFalling(Taylor.Difference(Exact(w), Exact(z)), j);
    PairsOfDifference(Exact(w), Exact(z), j);
    ExactPair(z, w);
  }

  lemma SeriesGainsPair(y: int, x: int, j: nat)
    requires 0 <= y <= x <= SCALE && 1 <= j <= 15
    ensures FirstPair(Taylor.Unscaled(y), Taylor.Unscaled(x)) - 60.0 <= (Series(x, 2 * j) - Series(y, 2 * j)) as real
  {
    hide Series, PairTotal, Exact, FirstPair;
    SeriesNear(y, j);
    SeriesNear(x, j);
    FallingPairs(Taylor.Unscaled(y), Taylor.Unscaled(x), j);
  }

  // How much the series gains at least: its slope at y is 1 - y or more.
  lemma SeriesGains(y: int, x: int, j: nat, room: int)
    requires 0 <= y <= x <= SCALE && 1 <= j <= 15 && 0 <= room <= 2 * SCALE - x - y
    ensures (x - y) * room <= 2 * SCALE * (Series(x, 2 * j) - Series(y, 2 * j) + 60)
  {
    hide Series;
    var z, w := Taylor.Unscaled(y), Taylor.Unscaled(x);
    SeriesGainsPair(y, x, j);
    GainProduct(w - z, 1.0 - (w + z) / 2.0, x - y, 2 * SCALE - x - y);
    GainArith(x - y, 2 * SCALE - x - y, room, Series(x, 2 * j) - Series(y, 2 * j), FirstPair(z, w));
  }

  // ---- The logarithm above 1 ----

  lemma LnOfUnit(x: int)
    requires SCALE <= x < 2 * SCALE
    ensures Ln(x) == Ok(Series(x - SCALE, LN_ITERATIONS)) && 0 <= Ln(x).value <= SERIES_CAP
  {
    hide Series;
    SeriesBounds(x - SCALE);
    SeriesBelowCap(x - SCALE);
    assert Normalise(x) == Normal(x, 0);
  }

  lemma LnOfDouble(x: int)
    requires 2 * SCALE <= x
    ensures Ln(x).Ok? && Ln(x / 2).Ok? && Ln(x).value == Ln(x / 2).value + LN2_SCALED && 0 <= Ln(x / 2).value
  {
    hide Series;
    LnBounds(x / 2);
    NormaliseRange(x);
  }

  lemma {:induction false} LnMonotone(x: int, x': int)
    requires SCALE <= x <= x'
    ensures Ln(x).Ok? && Ln(x').Ok? && 0 <= Ln(x).value <= Ln(x').value + 60
    decreases x
  {
    hide Ln;
    if x' < 2 * SCALE {
      LnOfUnit(x);
      LnOfUnit(x');
      SeriesFollows(x - SCALE, x' - SCALE, 15);
    } else if x < 2 * SCALE {
      LnOfUnit(x);
      LnOfDouble(x');
    } else {
      LnOfDouble(x);
      LnOfDouble(x');
      LnMonotone(x / 2, x' / 2);
    }
  }

  // An argument that is 1/204 larger has a larger logarithm.
  lemma {:induction false} LnGains(x: int, x': int)
    requires SCALE <= x <= x' && x <= 204 * (x' - x + 1)
    ensures Ln(x).Ok? && Ln(x').Ok? && Ln(x).value + 50 <= Ln(x').value
    decreases x
  {
    hide Ln, Series;
    if x' < 2 * SCALE {
      LnOfUnit(x);
      LnOfUnit(x');
      var d := x' - x;
      SeriesGains(x - SCALE, x' - SCALE, 15, d);
      MulLe(49_019, d, d);
      MulLe(49_019, d, 49_019);
    } else if x < 2 * SCALE {
      LnOfUnit(x);
      LnOfDouble(x');
    } else {
      LnOfDouble(x);
      LnOfDouble(x');
      LnGains(x / 2, x' / 2);
    }
  }

  lemma HalfOf(p: int, q: int, x: int)
    ensures 2 * p * q <= x ==> p * q <= x / 2
    ensures x <= 2 * p * q ==> x / 2 <= p * q
  {
    assert 2 * p * q == 2 * (p * q);
  }

  lemma {:induction false} LnAtLeast(x: int, k: nat, y: int)
    requires 0 <= y < SCALE && Pow2(k) * (SCALE + y) <= x
    ensures Ln(x).Ok? && k * LN2_SCALED + y / 2 <= Ln(x).value
  {
    hide Ln, Series;
    if x >= 2 * SCALE {
      LnOfDouble(x);
      if k > 0 {
        HalfOf(Pow2(k - 1), SCALE + y, x);
        LnAtLeast(x / 2, k - 1, y);
      }
    } else {
      assert k == 0 by {
        if k > 0 {
          MulLe(2, Pow2(k), SCALE + y);
        }
      }
      LnOfUnit(x);
      SeriesHalf(x - SCALE);
    }
  }

  lemma {:induction false} LnAtMost(x: int, k: nat, y: int)
    requires 0 <= y < SCALE && SCALE <= x <= Pow2(k) * (SCALE + y)
    ensures Ln(x).Ok? && Ln(x).value <= k * LN2_SCALED + y
  {
    hide Ln, Series;
    if x < 2 * SCALE {
      LnOfUnit(x);
      SeriesBounds(x - SCALE);
      MulLe(if k == 0 then 0 else 1, k, LN2_SCALED);
    } else {
      LnOfDouble(x);
      if k > 0 {
        HalfOf(Pow2(k - 1), SCALE + y, x);
        LnAtMost(x / 2, k - 1, y);
      }
    }
  }

  // ---- The exponential on [-1, 0] ----

  ghost function Factorial(k: nat): (f: real)
    ensures f >= 1.0
  {
    if k == 0 then 1.0 else
      var f := Factorial(k - 1);
      Taylor.MulMono(1.0, f, k as real);
      f * k as real
  }

  lemma {:induction false} MonomialPower(z: real, k: nat)
    ensures Factorial(k) * Taylor.Monomial(z, k) == Taylor.Pow(z, k)
  {
    if k > 0 {
      MonomialPower(z, k - 1);
      var f, m, r := Factorial(k - 1), Taylor.Monomial(z, k - 1), k as real;
      assert r * (m * z / r) == m * z;
      assert (f * r) * (m * z / r) == f * (r * (m * z / r)) == (f * m) * z;
    }
  }

  lemma MonomialDifference(z: real, w: real, k: nat)
    ensures Factorial(k) * (Taylor.Monomial(w, k) - Taylor.Monomial(z, k)) == (w - z) * Mixed(z, w, k)
  {
    MonomialPower(z, k);
    MonomialPower(w, k);
    PowDifference(z, w, k);
    Taylor.Distribute(Taylor.Monomial(w, k), -Taylor.Monomial(z, k), Factorial(k));
  }

  lemma FactorialFalls(f: real, k: real, h: real, m: real, n: real, d: real, e: real)
    requires 1.0 <= f && 1.0 <= k && 0.0 <= h && 0.0 <= n && k * n <= (k + 1.0) * m && 0.0 <= m
    requires f * d == h * m && f * (k + 1.0) * e == h * n
    ensures 0.0 <= e <= d
  {
    Taylor.MulMono(1.0, k, n);
    assert n <= (k + 1.0) * m;
    Taylor.MulMono(n, (k + 1.0) * m, h);
    assert (f * (k + 1.0)) * d == (k + 1.0) * (h * m) == h * ((k + 1.0) * m);
    Taylor.MulMono(1.0, f, k + 1.0);
    Taylor.LeCancel(e, d, f * (k + 1.0));
    assert 0.0 <= h * n;
    Taylor.LeCancel(0.0, e, f * (k + 1.0));
  }

  lemma MonomialsFallAt(z: real, w: real, k: nat)
    requires 0.0 <= z <= w <= 1.0
    ensures FallsAt(Taylor.Difference(Taylor.Monomials(w), Taylor.Monomials(z)), k)
  {
    if k >= 1 {
      assert Factorial(k + 1) == Factorial(k) * (k + 1) as real;
      hide Factorial, Mixed, Taylor.Monomial;
      MixedBounds(z, w, k);
      MixedBounds(z, w, k + 1);
      MonomialDifference(z, w, k);
      MonomialDifference(z, w, k + 1);
      var d := Taylor.Difference(Taylor.Monomials(w), Taylor.Monomials(z));
      FactorialFalls(Factorial(k), k as real, w - z, Mixed(z, w, k), Mixed(z, w, k + 1), d(k), d(k + 1));
    }
  }

  lemma MonomialsFall(z: real, w: real)
    requires 0.0 <= z <= w <= 1.0
    ensures Falls(Taylor.Difference(Taylor.Monomials(w), Taylor.Monomials(z)))
    ensures Taylor.Difference(Taylor.Monomials(w), Taylor.Monomials(z))(1) == w - z
  {
    hide FallsAt;
    forall k: nat
      ensures FallsAt(Taylor.Difference(Taylor.Monomials(w), Taylor.Monomials(z)), k)
    {
      MonomialsFallAt(z, w, k);
    }
    assert Taylor.Monomial(w, 0) == 1.0 && Taylor.Monomial(w, 1) == w;
    assert Taylor.Monomial(z, 0) == 1.0 && Taylor.Monomial(z, 1) == z;
  }

  lemma {:induction false} PolyPairs(z: real, j: nat)
    requires 0.0 <= z
    ensures Taylor.Poly(-z, 2 * j) == 1.0 - PairTotal(Taylor.Monomials(z), j)
  {
    if j > 0 {
      PolyPairs(z, j - 1);
      var f, g := Taylor.Monomials(z), Taylor.Monomials(-z);
      Taylor.MonomialsExponential(z);
      Taylor.MonomialsExponential(-z);
      Taylor.Mirror(f, g, z, 2 * j - 1);
      Taylor.Mirror(f, g, z, 2 * j);
      assert Taylor.Poly(-z, 2 * j - 1) == Taylor.Poly(-z, 2 * j - 2) + g(2 * j - 1);
      assert Taylor.Poly(-z, 2 * j) == Taylor.Poly(-z, 2 * j - 1) + g(2 * j);
    }
  }

  // The exact sums at -z and -w, z <= w, differ by between 0 and w - z.
  lemma PolyFollows(z: real, w: real, j: nat)
    requires 0.0 <= z <= w <= 1.0 && j >= 1
    ensures 0.0 <= Taylor.Poly(-z, 2 * j) - Taylor.Poly(-w, 2 * j) <= w - z
  {
    var f, g := Taylor.Monomials(z), Taylor.Monomials(w);
    MonomialsFall(z, w);
    PairsOfFalling(Taylor.Difference(g, f), j);
    assert FallsAt(Taylor.Difference(g, f), 2 * j - 1);
    PairsOfDifference(g, f, j);
    PolyPairs(z, j);
    PolyPairs(w, j);
  }

  lemma SumArith(s: int, t: int, p: real, q: real, u: int, v: int, z: real, w: real, d: real, e: real)
    requires -d <= s as real - 10_000_000.0 * p <= d <= 21.5 && -e <= t as real - 10_000_000.0 * q <= e <= 21.5
    requires 0.0 <= p - q <= w - z && 10_000_000.0 * z == u as real && 10_000_000.0 * w == v as real
    ensures -43 <= s - t <= v - u + 43
  {}

  lemma SumFollows(u: int, v: int, j: nat)
    requires 0 <= u <= v <= SCALE && j >= 1 && SlackSum(1.0, 2 * j) <= 21.5
    ensures -43 <= Sum(-u, 2 * j) - Sum(-v, 2 * j) <= v - u + 43
  {
    var z, w := Taylor.Unscaled(u), Taylor.Unscaled(v);
    RoundedError(u, 2 * j);
    RoundedError(v, 2 * j);
    SlackMonotone(z, 1.0, 2 * j);
    SlackMonotone(w, 1.0, 2 * j);
    PolyFollows(z, w, j);
    SumArith(Sum(-u, 2 * j), Sum(-v, 2 * j), Taylor.Poly(-z, 2 * j), Taylor.Poly(-w, 2 * j), u, v, z, w,
      SlackSum(z, 2 * j), SlackSum(w, 2 * j));
  }

  lemma ExpFollows(u: int, v: int)
    requires 1 <= u <= v <= SCALE
    ensures Exp(-u).Ok? && Exp(-v).Ok? && 1 <= Exp(-u).value < SCALE && 1 <= Exp(-v).value < SCALE
    ensures -43 <= Exp(-u).value - Exp(-v).value <= v - u + 43
  {
    SlackAtOne();
    SumFollows(u, v, 10);
    ExpUnitInterval(-u);
    ExpUnitInterval(-v);
  }

  // ---- The cost ----

  // ln(1 + e^-u) as computed
  function Excess(u: int): int
    requires 1 <= u <= SCALE
  {
    ExpUnitInterval(-u);
    Series(Exp(-u).value, LN_ITERATIONS)
  }

  lemma ExcessFollows(u: int, v: int)
    requires 1 <= u <= v <= SCALE
    ensures -103 <= Excess(u) - Excess(v) <= v - u + 103
  {
    ExpFollows(u, v);
    var x, y := Exp(-u).value, Exp(-v).value;
    if y <= x {
      SeriesFollows(y, x, 15);
    } else {
      SeriesFollows(x, y, 15);
    }
  }

  lemma InsideOff(a: int, c: int)
    requires a != c && Max(a, c) - Min(a, c) <= SCALE
    ensures Inside(a, c) == Max(a, c) + Excess(Max(a, c) - Min(a, c))
  {
    hide Exp, Series, Sum;
    var diff := Min(a, c) - Max(a, c);
    ExpUnitInterval(diff);
    var sum := SCALE + Exp(diff).value;
    assert Normalise(sum) == Normal(sum, 0);
  }

  predicate Near(a: int, c: int) {
    a != c && Max(a, c) - Min(a, c) <= SCALE
  }

  lemma InsideFollows(a: int, a': int, c: int)
    requires a <= a' && Near(a, c) && Near(a', c)
    ensures -206 <= Inside(a', c) - Inside(a, c) <= a' - a + 206
  {
    hide Inside, Excess;
    InsideOff(a, c);
    InsideOff(a', c);
    if c < a {
      ExcessFollows(a - c, a' - c);
    } else if a' < c {
      ExcessFollows(c - a', c - a);
    } else {
      ExcessFollows(1, c - a);
      ExcessFollows(1, a' - c);
    }
  }

  lemma ScaledBounds(b: int, inside: int, inside': int, r: int, r': int, amount: int)
    requires 0 < b && -206 <= inside' - inside <= r' - r + 206 && (r' - r) * b <= amount * SCALE + b
    ensures -(206 * b / SCALE) - 1 <= b * inside' / SCALE - b * inside / SCALE <= amount + 207 * b / SCALE + 1
  {
    MulLe(inside - 206, inside', b);
    MulLe(inside', inside + (r' - r) + 206, b);
    assert (inside - 206) * b == b * inside - 206 * b;
    assert (inside + (r' - r) + 206) * b == b * inside + (r' - r) * b + 206 * b;
  }

  lemma RatioStep(y: int, amount: int, b: int)
    requires 0 <= y && 0 <= amount && 0 < b
    ensures Ratio(y, b) <= Ratio(y + amount, b)
    ensures (Ratio(y + amount, b) - Ratio(y, b)) * b <= amount * SCALE + b
  {
    CostLaws.RatioLe(y, y + amount, b);
    RatioFloor(y, b);
    RatioFloor(y + amount, b);
    assert (Ratio(y + amount, b) - Ratio(y, b)) * b == Ratio(y + amount, b) * b - Ratio(y, b) * b;
  }

  // While the quantities stay within b of each other and neither the start nor the end is at equal
  // ratios, buying costs between 0 and the face value, up to a rounding slack of 207 * b / SCALE.
  lemma MonotoneOffBalance(y: int, n: int, amount: int, b: int)
    requires 0 <= y && 0 <= n && 0 <= amount && 0 < b
    requires Near(Ratio(y, b), Ratio(n, b)) && Near(Ratio(y + amount, b), Ratio(n, b))
    ensures var cost := Potential(y + amount, n, b) - Potential(y, n, b);
      -(206 * b / SCALE) - 1 <= cost <= amount + 207 * b / SCALE + 1
  {
    var r, r', c := Ratio(y, b), Ratio(y + amount, b), Ratio(n, b);
    RatioStep(y, amount, b);
    InsideFollows(r, r', c);
    hide Inside;
    ScaledBounds(b, Inside(r, c), Inside(r', c), r, r', amount);
  }
}
