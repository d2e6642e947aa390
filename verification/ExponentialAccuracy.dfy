/** How far the rounded loop of `exp_scaled` is from the exact Taylor polynomial, on all of [-20, 20],
    and what follows: its sign, and where e^x for negative x stays below 1. */
module ExponentialAccuracy {
  import opened Fixed
  import opened Exponential
  import Taylor

  // The exact term at u / SCALE, in SCALE units.
  ghost function Ideal(u: int, n: nat): real {
    10_000_000.0 * Taylor.Monomial(Taylor.Unscaled(u), n)
  }

  // What rounding has taken from the n-th term.
  ghost function Defect(u: int, n: nat): real
    requires 0 <= u
  {
    Ideal(u, n) - Magnitude(u, n) as real
  }

  lemma FloorStep(m: int, u: int, n: int, q: int)
    requires 0 <= m && 0 <= u && n >= 1 && q == m * u / (n * SCALE)
    ensures n as real * q as real <= Taylor.Unscaled(u) * m as real <= n as real * q as real + n as real
  {
    assert q * (n * SCALE) <= m * u < q * (n * SCALE) + n * SCALE;
    assert q * (n * SCALE) == (n * q) * SCALE;
    assert (n * q) as real * 10_000_000.0 <= (m * u) as real <= ((n * q) as real + n as real) * 10_000_000.0;
    assert (n * q) as real == n as real * q as real;
    assert (m * u) as real == m as real * u as real;
    assert Taylor.Unscaled(u) * m as real == (m * u) as real / 10_000_000.0;
  }

  lemma DefectSign(r: real, z: real, i: real, j: real, m: real, k: real)
    requires r > 0.0 && 0.0 <= z && r * j == z * i && r * k <= z * m && m <= i
    ensures k <= j
  {
    assert z * m <= z * i;
    assert r * k <= z * m;
    assert r * k <= z * i;
    assert r * k <= r * j;
  }

  lemma DefectArith(r: real, z: real, i: real, j: real, m: real, k: real)
    requires r * j == z * i && z * m <= r * k + r
    ensures r * (j - k) <= z * (i - m) + r
  {
    Taylor.Distribute(j, -k, r);
    Taylor.Distribute(i, -m, z);
  }

  lemma IdealStep(u: int, n: nat)
    requires n >= 1
    ensures n as real * Ideal(u, n) == Taylor.Unscaled(u) * Ideal(u, n - 1)
  {
    var z, r := Taylor.Unscaled(u), n as real;
    Taylor.MonomialsExponential(z);
    assert Taylor.StepAt(Taylor.Monomials(z), z, n);
  }

  lemma DefectStep(u: int, n: nat)
    requires 0 <= u && n >= 1 && 0.0 <= Defect(u, n - 1)
    ensures 0.0 <= Defect(u, n) && n as real * Defect(u, n) <= Taylor.Unscaled(u) * Defect(u, n - 1) + n as real
  {
    FloorStep(Magnitude(u, n - 1), u, n, Magnitude(u, n));
    IdealStep(u, n);
    var r, z, i, j := n as real, Taylor.Unscaled(u), Ideal(u, n - 1), Ideal(u, n);
    var m, k := Magnitude(u, n - 1) as real, Magnitude(u, n) as real;
    DefectSign(r, z, i, j, m, k);
    DefectArith(r, z, i, j, m, k);
  }

  ghost predicate DefectAt(u: int, n: nat)
    requires 0 <= u
  {
    0.0 <= Defect(u, n) && (n >= 1 ==> n as real * Defect(u, n) <= Taylor.Unscaled(u) * Defect(u, n - 1) + n as real)
  }

  lemma {:induction false} Defects(u: int, n: nat)
    requires 0 <= u
    ensures DefectAt(u, n)
  {
    if n == 0 {
      assert Magnitude(u, 0) == SCALE && Taylor.Monomial(Taylor.Unscaled(u), 0) == 1.0;
    } else {
      Defects(u, n - 1);
      DefectStep(u, n);
    }
  }

  lemma {:induction false} TermPositive(u: int, n: nat)
    requires 0 <= u
    ensures Term(u, n) == Magnitude(u, n)
  {
    if n > 0 {
      TermPositive(u, n - 1);
      MulLe(0, Magnitude(u, n - 1), u);
    }
  }

  // The losses as a sequence, with the recurrence that bounds them.
  ghost predicate LossAt(d: nat -> real, z: real, n: nat) {
    0.0 <= d(n) && (n >= 1 ==> n as real * d(n) <= z * d(n - 1) + n as real)
  }

  ghost predicate Losses(d: nat -> real, z: real) {
    d(0) == 0.0 && d(1) == 0.0 && forall n: nat :: LossAt(d, z, n)
  }

  ghost function Loss(u: int): nat -> real
    requires 0 <= u
  {
    (n: nat) => Defect(u, n)
  }

  lemma DefectsAreLosses(u: int)
    requires 0 <= u
    ensures Losses(Loss(u), Taylor.Unscaled(u))
  {
    var d, z := Loss(u), Taylor.Unscaled(u);
    forall n: nat
      ensures LossAt(d, z, n)
    {
      Defects(u, n);
    }
    assert Magnitude(u, 0) == SCALE && Taylor.Monomial(z, 0) == 1.0;
    assert Magnitude(u, 1) == SCALE * u / SCALE == u && Taylor.Monomial(z, 1) == z;
  }

  // One more term moves the rounded sum, at u and at -u, by one more loss.
  lemma NearStep(u: int, n: nat)
    requires 0 <= u && n >= 1
    ensures 0.0 <= Term(u, n) as real <= 10_000_000.0 * Taylor.Monomial(Taylor.Unscaled(u), n)
    ensures 10_000_000.0 * Taylor.Monomial(Taylor.Unscaled(u), n) == Term(u, n) as real + Defect(u, n)
    ensures var ideal := 10_000_000.0 * Taylor.Monomial(-Taylor.Unscaled(u), n);
      -Defect(u, n) <= Term(-u, n) as real - ideal <= Defect(u, n)
  {
    var z := Taylor.Unscaled(u);
    Defects(u, n);
    TermAlternates(u, n);
    TermPositive(u, n);
    Taylor.MonomialsExponential(z);
    Taylor.MonomialsExponential(-z);
    Taylor.Mirror(Taylor.Monomials(z), Taylor.Monomials(-z), z, n);
  }

  ghost predicate Within(u: int, n: nat, e: real) {
    && -e <= Sum(u, n) as real - 10_000_000.0 * Taylor.Poly(Taylor.Unscaled(u), n) <= e
    && -e <= Sum(-u, n) as real - 10_000_000.0 * Taylor.Poly(-Taylor.Unscaled(u), n) <= e
  }

  lemma {:induction false} SumNearPoly(u: int, n: nat)
    requires 0 <= u
    ensures Within(u, n, Taylor.Total(Loss(u), n))
  {
    if n == 0 {
      DefectsAreLosses(u);
    } else {
      SumNearPoly(u, n - 1);
      NearStep(u, n);
    }
  }

  // The rounded sums at u and at -u are within Total(d, n) of the exact ones, for losses d.
  lemma RoundedSum(u: int, n: nat) returns (d: nat -> real)
    requires 0 <= u
    ensures Losses(d, Taylor.Unscaled(u)) && Within(u, n, Taylor.Total(d, n))
  {
    d := Loss(u);
    DefectsAreLosses(u);
    SumNearPoly(u, n);
  }

  // ---- What rounding can take: a bound for every argument ----

  // Largest rounding loss of the n-th term at z: a unit per step, carried along; the first is exact.
  function Slack(z: real, n: nat): real {
    if n <= 1 then 0.0 else z * Slack(z, n - 1) / (n as real) + 1.0
  }

  function SlackSum(z: real, n: nat): real {
    if n == 0 then 0.0 else SlackSum(z, n - 1) + Slack(z, n)
  }

  lemma SlackAtOne()
    ensures SlackSum(1.0, 20) <= 21.5
  {
    assert Slack(1.0, 5) == 19.0 / 15.0;
    assert Slack(1.0, 10) == 504739.0 / 453600.0;
    assert Slack(1.0, 15) == 175200329539.0 / 163459296000.0;
    assert Slack(1.0, 20) == 320165936763977539.0 / 304112751022080000.0;
    assert SlackSum(1.0, 5) == 74.0 / 15.0;
    assert SlackSum(1.0, 10) == 4855439.0 / 453600.0;
    assert SlackSum(1.0, 15) == 659165529241.0 / 40864824000.0;
  }

  lemma SlackAtSixFive()
    ensures SlackSum(6.5, 20) <= 89.0
  {
    assert Slack(6.5, 5) == 863.0 / 96.0;
    assert Slack(6.5, 10) == 585651971.0 / 92897280.0;
    assert Slack(6.5, 15) == 164196964668851.0 / 82403603251200.0;
    assert Slack(6.5, 20) == 7379067018050665332743.0 / 4905928184857362432000.0;
    assert SlackSum(6.5, 5) == 1853.0 / 96.0;
    assert SlackSum(6.5, 10) == 2024903437.0 / 30965760.0;
    assert SlackSum(6.5, 15) == 6653220247451741.0 / 82403603251200.0;
  }

  lemma SlackAtEightEight()
    ensures SlackSum(8.8, 20) <= 317.0
  {
    assert Slack(8.8, 5) == 33731.0 / 1875.0;
    assert Slack(8.8, 10) == 200840564117.0 / 5537109375.0;
    assert Slack(8.8, 15) == 545600774933976241.0 / 70857696533203125.0;
    assert Slack(8.8, 20) == 6480123282668390320089328.0 / 3218489434719085693359375.0;
    assert SlackSum(8.8, 5) == 61081.0 / 1875.0;
    assert SlackSum(8.8, 10) == 2344541533409.0 / 11074218750.0;
    assert SlackSum(8.8, 15) == 6082424872493025101.0 / 20245056152343750.0;
  }

  lemma SlackStep(z: real, n: nat)
    requires n >= 2
    ensures n as real * Slack(z, n) == z * Slack(z, n - 1) + n as real
  {
    var r, s := n as real, z * Slack(z, n - 1);
    assert r * (s / r) == s;
    Taylor.Distribute(s / r, 1.0, r);
  }

  // zd and zs are the products of z with d <= s.
  lemma LossStep(r: real, zd: real, zs: real, e: real, t: real)
    requires r > 0.0 && zd <= zs && r * e <= zd + r && r * t == zs + r
    ensures e <= t
  {
    Taylor.LeCancel(e, t, r);
  }

  lemma {:induction false} LossWithin(d: nat -> real, z: real, n: nat)
    requires 0.0 <= z && Losses(d, z)
    ensures d(n) <= Slack(z, n)
  {
    if n >= 2 {
      hide Slack;
      LossWithin(d, z, n - 1);
      assert LossAt(d, z, n);
      SlackStep(z, n);
      Taylor.MulMono(d(n - 1), Slack(z, n - 1), z);
      LossStep(n as real, z * d(n - 1), z * Slack(z, n - 1), d(n), Slack(z, n));
    }
  }

  lemma {:induction false} LossesWithin(d: nat -> real, z: real, n: nat)
    requires 0.0 <= z && Losses(d, z)
    ensures Taylor.Total(d, n) <= SlackSum(z, n)
  {
    if n >= 1 {
      LossesWithin(d, z, n - 1);
      LossWithin(d, z, n);
    }
  }

  lemma RoundedError(u: int, n: nat)
    requires 0 <= u
    ensures Within(u, n, SlackSum(Taylor.Unscaled(u), n))
  {
    var d := RoundedSum(u, n);
    LossesWithin(d, Taylor.Unscaled(u), n);
  }

  // zs and wt are the products z * s and w * t.
  lemma RaiseStep(r: real, zs: real, wt: real, s: real, t: real)
    requires r > 0.0 && 0.0 <= zs <= wt && r * s == zs + r && r * t == wt + r
    ensures 0.0 <= s <= t
  {
    Taylor.LeCancel(s, t, r);
    Taylor.LeCancel(0.0, s, r);
  }

  lemma {:induction false} SlackRises(z: real, w: real, n: nat)
    requires 0.0 <= z <= w
    ensures 0.0 <= Slack(z, n) <= Slack(w, n)
  {
    if n >= 2 {
      hide *;
      SlackRises(z, w, n - 1);
      SlackStep(z, n);
      SlackStep(w, n);
      var s, t := Slack(z, n - 1), Slack(w, n - 1);
      Taylor.MulBoth(z, w, s, t);
      RaiseStep(n as real, z * s, w * t, Slack(z, n), Slack(w, n));
    }
  }

  lemma {:induction false} SlackMonotone(z: real, w: real, n: nat)
    requires 0.0 <= z <= w
    ensures 0.0 <= SlackSum(z, n) <= SlackSum(w, n)
  {
    hide Slack;
    if n >= 1 {
      SlackMonotone(z, w, n - 1);
      SlackRises(z, w, n);
    }
  }

  // ---- The bound grows no faster than the exponential: SlackSum(c + h) <= SlackSum(c) * e^h ----

  ghost function Slacks(z: real): nat -> real {
    (n: nat) => Slack(z, n)
  }

  lemma {:induction false} SlackTotal(z: real, n: nat)
    ensures SlackSum(z, n) == Taylor.Total(Slacks(z), n)
  {
    if n > 0 {
      SlackTotal(z, n - 1);
    }
  }

  // q, the products at degree n - 1, drive p, those at degree n, as the slacks at c + h are driven.
  ghost predicate DrivesAt(p: nat -> real, q: nat -> real, n: real, c: real, h: real, j: nat) {
    c * q(j) + h * (if j == 0 then 0.0 else q(j - 1)) + (if j == 0 then n else 0.0) <= n * p(j)
  }

  lemma DrivenTerm(n: real, a: real, b: real, s: real, s': real, g: real, g': real, c: real, h: real, e: real)
    requires n == a + b && c * s' + e <= a * s && b * g == h * g' && 0.0 <= g
    ensures c * (s' * g) + h * (s * g') + e * g <= n * (s * g)
  {
    Taylor.DistributeSum(n, a, b, s * g);
    Taylor.MulMono(c * s' + e, a * s, g);
    Taylor.Distribute(c * s', e, g);
    assert a * (s * g) == (a * s) * g;
    assert b * (s * g) == s * (b * g) == h * (s * g');
    assert c * (s' * g) == (c * s') * g;
  }

  // n * Slack(c, n) carries c * Slack(c, n - 1), from degree 2 on with n more.
  lemma SlackDriven(c: real, k: nat)
    ensures var carried := c * (if k == 0 then 0.0 else Slack(c, k - 1));
      carried + (if k >= 2 then k as real else 0.0) <= k as real * Slack(c, k)
  {
    if k >= 2 {
      SlackStep(c, k);
    }
  }

  lemma DrivenAt(c: real, p: nat -> real, h: real, n: nat, j: nat)
    requires 0.0 <= c && 0.0 <= h && n >= 2 && j <= n && Taylor.Exponential(p, h)
    ensures DrivesAt(
              Taylor.Cross(Slacks(c), p, n), Taylor.Cross(Slacks(c), p, n - 1), n as real, c, h, j)
  {
    hide Slack;
    assert Taylor.StepAt(p, h, j);
    Taylor.NonNegative(p, h, j);
    var k := n - j;
    var s' := if k == 0 then 0.0 else Slack(c, k - 1);
    var g' := if j == 0 then 0.0 else p(j - 1);
    var e := if k >= 2 then k as real else 0.0;
    SlackDriven(c, k);
    DrivenTerm(n as real, k as real, j as real, Slack(c, k), s', p(j), g', c, h, e);
    Taylor.MulMono(0.0, e, p(j));
  }

  lemma {:induction false} DrivenTotal(p: nat -> real, q: nat -> real, n: real, c: real, h: real, k: nat)
    requires forall j: nat | j <= k :: DrivesAt(p, q, n, c, h, j)
    ensures c * Taylor.Total(q, k) + h * Taylor.TotalBefore(q, k) + n <= n * Taylor.Total(p, k)
  {
    assert DrivesAt(p, q, n, c, h, k);
    if k > 0 {
      DrivenTotal(p, q, n, c, h, k - 1);
      Taylor.DistributeSum(Taylor.Total(p, k), Taylor.Total(p, k - 1), p(k), n);
      Taylor.DistributeSum(Taylor.Total(q, k), Taylor.Total(q, k - 1), q(k), c);
      Taylor.DistributeSum(Taylor.TotalBefore(q, k), Taylor.TotalBefore(q, k - 1), q(k - 1), h);
    }
  }

  ghost function Carried(c: real, p: nat -> real, n: nat): real {
    Taylor.Total(Taylor.Cross(Slacks(c), p, n), n)
  }

  lemma CarriedStep(c: real, p: nat -> real, h: real, n: nat)
    requires 0.0 <= c && 0.0 <= h && n >= 2 && Taylor.Exponential(p, h)
    ensures (c + h) * Carried(c, p, n - 1) + n as real <= n as real * Carried(c, p, n)
  {
    var a, b, r := Taylor.Cross(Slacks(c), p, n), Taylor.Cross(Slacks(c), p, n - 1), n as real;
    forall j: nat | j <= n
      ensures DrivesAt(a, b, r, c, h, j)
    {
      DrivenAt(c, p, h, n, j);
    }
    DrivenTotal(a, b, r, c, h, n);
    assert Taylor.Total(b, n) == Taylor.Total(b, n - 1);
    Taylor.Distribute(c, h, Carried(c, p, n - 1));
  }

  lemma CarriedUnder(n: real, z: real, s: real, t: real, q: real, r: real)
    requires n > 0.0 && 0.0 <= z && s <= q && n * t == z * s + n && z * q + n <= n * r
    ensures t <= r
  {
    Taylor.MulMono(s, q, z);
    Taylor.LeCancel(t, r, n);
  }

  lemma CarriedStart(c: real, p: nat -> real, n: nat)
    requires n <= 1
    ensures Carried(c, p, n) == 0.0
  {
    var s := Slacks(c);
    assert s(0) == 0.0 && s(1) == 0.0;
    hide Slack, Slacks;
    var q := Taylor.Cross(s, p, n);
    assert q(0) == 0.0 && (n == 1 ==> q(1) == 0.0);
    assert Taylor.Total(q, 0) == 0.0;
  }

  lemma {:induction false} SlackCarried(c: real, p: nat -> real, h: real, n: nat)
    requires 0.0 <= c && 0.0 <= h && Taylor.Exponential(p, h)
    ensures Slack(c + h, n) <= Carried(c, p, n)
  {
    if n <= 1 {
      CarriedStart(c, p, n);
    } else {
      hide Slack, Carried;
      SlackCarried(c, p, h, n - 1);
      CarriedStep(c, p, h, n);
      SlackStep(c + h, n);
      CarriedUnder(
        n as real, c + h, Slack(c + h, n - 1), Slack(c + h, n), Carried(c, p, n - 1), Carried(c, p, n));
    }
  }

  lemma {:induction false} SlackSumCarried(c: real, p: nat -> real, h: real, n: nat)
    requires 0.0 <= c && 0.0 <= h && Taylor.Exponential(p, h)
    ensures SlackSum(c + h, n) <= Taylor.Total(Taylor.Cross(Taylor.Sums(Slacks(c)), p, n), n)
  {
    SlackCarried(c, p, h, n);
    var s := Slacks(c);
    if n == 0 {
      assert Taylor.Total(s, 0) == 0.0;
    } else {
      SlackSumCarried(c, p, h, n - 1);
      Taylor.SumsCross(s, p, n, n);
      assert Taylor.Cross(Taylor.Sums(s), p, n - 1)(n) == 0.0;
    }
  }

  lemma {:induction false} SlackSumGrows(z: real, m: nat, n: nat)
    requires 0.0 <= z && m <= n
    ensures SlackSum(z, m) <= SlackSum(z, n)
  {
    if m < n {
      SlackSumGrows(z, m, n - 1);
      SlackRises(z, z, n);
    }
  }

  lemma SlackGrowsBy(c: real, p: nat -> real, h: real, n: nat, t: real)
    requires 0.0 <= c && 0.0 <= h && SlackSum(c, n) <= t && Taylor.Exponential(p, h)
    ensures SlackSum(c + h, n) <= t * Taylor.Total(p, n) && 1.0 <= Taylor.Total(p, n)
  {
    var s := Taylor.Sums(Slacks(c));
    Taylor.TotalGrows(p, h, n, n);
    SlackSumCarried(c, p, h, n);
    forall m: nat | m <= n
      ensures s(m) <= t
    {
      SlackTotal(c, m);
      SlackSumGrows(c, m, n);
    }
    forall j: nat | j <= n
      ensures 0.0 <= p(j)
    {
      Taylor.NonNegative(p, h, j);
    }
    Taylor.CrossAtMost(s, p, n, t);
  }

  lemma SlackGrows(c: real, h: real, n: nat, t: real)
    requires 0.0 <= c && 0.0 <= h && SlackSum(c, n) <= t
    ensures SlackSum(c + h, n) <= t * Taylor.Total(Taylor.Monomials(h), n)
    ensures 1.0 <= Taylor.Total(Taylor.Monomials(h), n)
  {
    Taylor.MonomialsExponential(h);
    SlackGrowsBy(c, Taylor.Monomials(h), h, n, t);
  }

  // ---- Within 22 units on [-SCALE, SCALE] ----

  // Beyond degree 20 the exact sums move by less than a millionth of a unit.
  lemma TinyTail()
    ensures Taylor.Monomial(1.0, 20) <= 0.0000000000001
  {
    assert Taylor.Monomial(1.0, 5) == 1.0 / 120.0;
    assert Taylor.Monomial(1.0, 10) == 1.0 / 3628800.0;
    assert Taylor.Monomial(1.0, 15) == 1.0 / 1307674368000.0;
  }

  lemma AtMostHalf(r: real, a: real, b: real)
    requires r >= 2.0 && 0.0 <= a && r * a == 1.0 * b
    ensures 2.0 * a <= b
  {
    Taylor.MulMono(2.0, r, a);
  }

  lemma {:induction false} TailShrinks(f: nat -> real, n: nat)
    requires Taylor.Exponential(f, 1.0) && n >= 20
    ensures 0.0 <= f(n) && Taylor.Total(f, n) + f(n) <= Taylor.Total(f, 20) + f(20)
  {
    Taylor.NonNegative(f, 1.0, n);
    if n > 20 {
      TailShrinks(f, n - 1);
      assert Taylor.StepAt(f, 1.0, n);
      AtMostHalf(n as real, f(n), f(n - 1));
    }
  }

  // The tail at z is at most the tail at 1.
  lemma {:induction false} TailBelow(f: nat -> real, g: nat -> real, p: nat -> real, z: real, n: nat)
    requires 0.0 <= z <= 1.0 && n >= 20
    requires Taylor.Exponential(f, z) && Taylor.Exponential(g, -z) && Taylor.Exponential(p, 1.0)
    ensures var t := Taylor.Total(p, n) - Taylor.Total(p, 20);
      && 0.0 <= Taylor.Total(f, n) - Taylor.Total(f, 20) <= t
      && -t <= Taylor.Total(g, n) - Taylor.Total(g, 20) <= t
  {
    if n > 20 {
      TailBelow(f, g, p, z, n - 1);
      Taylor.Mirror(f, g, z, n);
      Taylor.TotalMonotone(f, p, z, 1.0, n);
    }
  }

  lemma PolyTail(z: real, n: nat)
    requires -1.0 <= z <= 1.0 && n >= 20
    ensures -0.000001 <= 10_000_000.0 * Taylor.Poly(z, n) - 10_000_000.0 * Taylor.Poly(z, 20) <= 0.000001
  {
    var a := if z < 0.0 then -z else z;
    Taylor.MonomialsExponential(a);
    Taylor.MonomialsExponential(-a);
    Taylor.MonomialsExponential(1.0);
    var p := Taylor.Monomials(1.0);
    TailBelow(Taylor.Monomials(a), Taylor.Monomials(-a), p, a, n);
    TailShrinks(p, n);
    assert p(20) == Taylor.Monomial(1.0, 20);
    TinyTail();
    Taylor.PolyTotal(z, n);
    Taylor.PolyTotal(z, 20);
    assert z == a || z == -a;
  }

  // For |x| <= SCALE the loop is within 22 units of every Taylor sum of degree 20 or more.
  lemma ExpNearTaylor(x: int, n: nat)
    requires -SCALE <= x <= SCALE && n >= 20
    ensures Exp(x).Ok?
    ensures -22.0 < Exp(x).value as real - 10_000_000.0 * Taylor.Poly(x as real / 10_000_000.0, n) < 22.0
  {
    hide Sum, SlackSum, Taylor.Poly;
    var u := Abs(x);
    RoundedError(u, 20);
    SlackAtOne();
    SlackMonotone(Taylor.Unscaled(u), 1.0, 20);
    PolyTail(x as real / 10_000_000.0, n);
    if x >= 0 {
      SumMonotone(x, x, EXP_ITERATIONS);
    } else {
      ExpUnitInterval(x);
      assert x as real / 10_000_000.0 == -Taylor.Unscaled(u);
    }
  }

  // ---- Far below 0: beyond a point where all sums keep their sign ----

  // At -(c + h) the rounding has grown to at most t * e^h.
  lemma FarError(u: int, n: nat, c: real, t: real) returns (e: real)
    requires 0 <= u && 0.0 <= c <= Taylor.Unscaled(u) && SlackSum(c, n) <= t
    ensures Within(u, n, e) && e <= t * Taylor.Total(Taylor.Monomials(Taylor.Unscaled(u) - c), n)
  {
    var z := Taylor.Unscaled(u);
    e := SlackSum(z, n);
    RoundedError(u, n);
    SlackGrows(c, z - c, n, t);
    assert c + (z - c) == z;
  }

  // From -c down the exact sum grows by gap per unit of e^h, the rounding by at most t.
  ghost predicate Base(c: real, gap: real, t: real, n: nat) {
    && 0.0 <= c && 0.0 <= t <= 10_000_000.0 * gap && Taylor.Even(n)
    && SlackSum(c, n) <= t && Taylor.SignsUpTo(-c, gap, n)
  }

  lemma BaseAtSixFive()
    ensures Base(6.5, 0.0032, 89.0, 20)
  {
    hide SlackSum, Taylor.SignsUpTo;
    SlackAtSixFive();
    Taylor.SignsAtMinusSixFive();
  }

  lemma BaseAtEightEight()
    ensures Base(8.8, 0.95, 317.0, 20)
  {
    hide SlackSum, Taylor.SignsUpTo;
    SlackAtEightEight();
    Taylor.SignsAtMinusEightEight();
  }

  // The exact sums at -z and -w, and the rounding there, for z <= w beyond c: p and q stand for e^h.
  lemma FarPair(u: int, v: int, c: real, gap: real, t: real, n: nat)
    returns (x: real, y: real, d: real, e: real, p: real, q: real)
    requires 0 <= u <= v && c <= Taylor.Unscaled(u) && Base(c, gap, t, n)
    ensures x == Taylor.Poly(-Taylor.Unscaled(u), n) && y == Taylor.Poly(-Taylor.Unscaled(v), n)
    ensures p == Taylor.Poly(Taylor.Unscaled(u) - c, n) && q == Taylor.Poly(Taylor.Unscaled(v) - c, n)
    ensures -d <= Sum(-u, n) as real - 10_000_000.0 * x <= d <= t * p
    ensures -e <= Sum(-v, n) as real - 10_000_000.0 * y <= e <= t * q
    ensures 1.0 <= p <= q && gap * (q - p) <= y - x
  {
    hide Sum, SlackSum, Taylor.Total, Taylor.Poly, Taylor.SignsUpTo;
    var z, w := Taylor.Unscaled(u), Taylor.Unscaled(v);
    d := FarError(u, n, c, t);
    e := FarError(v, n, c, t);
    Taylor.SignsKept(-c, gap, n);
    Taylor.RisesBelow(c, z, w, gap, n);
    Taylor.PolyTotal(-z, n);
    Taylor.PolyTotal(-w, n);
    Taylor.PolyTotal(z - c, n);
    Taylor.PolyTotal(w - c, n);
    x, y, p, q := Taylor.Poly(-z, n), Taylor.Poly(-w, n), Taylor.Poly(z - c, n), Taylor.Poly(w - c, n);
  }

  lemma BaseOrder(c: real, gap: real, t: real, n: nat)
    requires Base(c, gap, t, n)
    ensures 0.0 <= t <= 10_000_000.0 * gap && 0.0 <= gap && Taylor.Even(n)
  {}

  // tp, tq and gd are the products of t with p and q, and of gap with q - p.
  lemma AboveInteger(sum: int, x: real, y: real, e: real, tp: real, tq: real, gd: real, low: int)
    requires -e <= sum as real - 10_000_000.0 * y && e <= tq
    requires gd <= y - x && tq - tp <= 10_000_000.0 * gd && low as real <= 10_000_000.0 * x - tp
    ensures low <= sum
  {}

  // From a point -w = -u / SCALE on, the computed sum stays above the exact one there, less rounding.
  lemma AboveFar(v: int, n: nat, c: real, gap: real, t: real, u: int, w: real, low: int)
    requires 0 <= u <= v && w == Taylor.Unscaled(u) && c <= w && Base(c, gap, t, n)
    requires low as real <= 10_000_000.0 * Taylor.Poly(-w, n) - t * Taylor.Poly(w - c, n)
    ensures low <= Sum(-v, n)
  {
    hide Base, Sum, Taylor.Poly;
    var x, y, d, e, p, q := FarPair(u, v, c, gap, t, n);
    BaseOrder(c, gap, t, n);
    var g := q - p;
    Taylor.MulMono(t, 10_000_000.0 * gap, g);
    Taylor.DistributeSum(q, g, p, t);
    AboveInteger(Sum(-v, n), x, y, e, t * p, t * q, gap * g, low);
  }

  lemma BelowInteger(sum: int, x: real, y: real, d: real, tp: real, tq: real, high: int)
    requires sum as real - 10_000_000.0 * x <= d <= tp <= tq && x <= y && 10_000_000.0 * y + tq <= high as real
    ensures sum <= high
  {}

  // Up to a point -w = -v / SCALE it stays below the exact one there, plus rounding.
  lemma BelowFar(u: int, n: nat, c: real, gap: real, t: real, v: int, w: real, high: int)
    requires 0 <= u <= v && w == Taylor.Unscaled(v) && c <= Taylor.Unscaled(u) && Base(c, gap, t, n)
    requires 10_000_000.0 * Taylor.Poly(-w, n) + t * Taylor.Poly(w - c, n) <= high as real
    ensures Sum(-u, n) <= high
  {
    hide Base, Sum, Taylor.Poly;
    var x, y, d, e, p, q := FarPair(u, v, c, gap, t, n);
    BaseOrder(c, gap, t, n);
    Taylor.MulMono(p, q, t);
    Taylor.MulMono(0.0, q - p, gap);
    BelowInteger(Sum(-u, n), x, y, d, t * p, t * q, high);
  }

  lemma PolyUpTo(h: real, c: real, t: real, n: nat)
    requires 0.0 <= h <= c && Taylor.Poly(c, n) <= t
    ensures Taylor.Poly(h, n) <= t
  {
    Taylor.PolyTotal(h, n);
    Taylor.PolyTotal(c, n);
    Taylor.MonomialsExponential(h);
    Taylor.MonomialsExponential(c);
    Taylor.TotalMonotone(Taylor.Monomials(h), Taylor.Monomials(c), h, c, n);
  }

  // ---- Positive at every x <= 0 ----

  lemma PositiveNear(u: int, n: nat)
    requires 0 <= u <= 65_000_000 && n >= 3 && Taylor.Even(n) && SlackSum(6.5, n) <= 89.0
    ensures Sum(-u, n) >= 1
  {
    var z := Taylor.Unscaled(u);
    Taylor.PositiveNear(z, n);
    Taylor.PolyTotal(-z, n);
    SlackMonotone(z, 6.5, n);
    RoundedError(u, n);
  }

  lemma PositiveFar(u: int, n: nat)
    requires 65_000_000 <= u && Base(6.5, 0.0032, 89.0, n) && Taylor.Poly(1.0, n) <= 2.72
    requires 0.003279 <= Taylor.Poly(-6.5, n) && 0.00918 <= Taylor.Poly(-7.0, n)
    ensures 32_500 <= Sum(-u, n)
    ensures 7 * SCALE <= u ==> 91_500 <= Sum(-u, n)
  {
    hide Base, Sum, Taylor.Poly;
    PolyUpTo(6.5 - 6.5, 1.0, 2.72, n);
    PolyUpTo(7.0 - 6.5, 1.0, 2.72, n);
    AboveFar(u, n, 6.5, 0.0032, 89.0, 65_000_000, 6.5, 32_500);
    if 7 * SCALE <= u {
      AboveFar(u, n, 6.5, 0.0032, 89.0, 7 * SCALE, 7.0, 91_500);
    }
  }

  // The computed e^x is never 0 for x <= 0: rounding cannot consume the degree-20 sum.
  lemma ExpPositive(x: int)
    requires x <= 0
    ensures Exp(x).Ok? && Exp(x).value >= 1
    ensures -20 * SCALE <= x <= -65_000_000 ==> Exp(x).value >= 32_500
    ensures -20 * SCALE <= x <= -7 * SCALE ==> Exp(x).value >= 91_500
  {
    hide Base, Sum, SlackSum;
    if -65_000_000 < x {
      SlackAtSixFive();
      PositiveNear(-x, 20);
    } else if x >= -20 * SCALE {
      BaseAtSixFive();
      Taylor.AtOne();
      Taylor.AtMinusSixFive();
      Taylor.AtMinusSeven();
      PositiveFar(-x, 20);
    }
  }

  // ---- The error on all of [-20, 20]: rounding, and the Taylor terms left out ----

  lemma {:induction false} Omitted(f: nat -> real, g: nat -> real, z: real, m: nat, n: nat)
    requires 0.0 <= z && m <= n && Taylor.Exponential(f, z) && Taylor.Exponential(g, -z)
    ensures var t := Taylor.Total(f, n) - Taylor.Total(f, m);
      0.0 <= t && -t <= Taylor.Total(g, n) - Taylor.Total(g, m) <= t
  {
    if m < n {
      Omitted(f, g, z, m, n - 1);
      Taylor.Mirror(f, g, z, n);
    }
  }

  lemma OmittedPoly(z: real, m: nat, n: nat)
    requires 0.0 <= z && m <= n
    ensures var t := Taylor.Poly(z, n) - Taylor.Poly(z, m);
      0.0 <= t && -t <= Taylor.Poly(-z, n) - Taylor.Poly(-z, m) <= t
  {
    Taylor.MonomialsExponential(z);
    Taylor.MonomialsExponential(-z);
    Omitted(Taylor.Monomials(z), Taylor.Monomials(-z), z, m, n);
    Taylor.PolyTotal(z, n);
    Taylor.PolyTotal(z, m);
    Taylor.PolyTotal(-z, n);
    Taylor.PolyTotal(-z, m);
  }

  // At |x| = z the loop is within SlackSum(z) units, plus the terms of degree 21 to n at z, of every
  // Taylor sum of degree n >= 20.
  lemma ExpError(x: int, n: nat)
    requires -20 * SCALE <= x <= 20 * SCALE && n >= 20
    ensures Exp(x).Ok?
    ensures var z := Taylor.Unscaled(Abs(x));
      var e := SlackSum(z, 20) + 10_000_000.0 * (Taylor.Poly(z, n) - Taylor.Poly(z, 20));
      -e <= Exp(x).value as real - 10_000_000.0 * Taylor.Poly(Taylor.Unscaled(x), n) <= e
  {
    hide SlackSum, Taylor.Poly, Sum;
    var u := Abs(x);
    RoundedError(u, 20);
    OmittedPoly(Taylor.Unscaled(u), 20, n);
    if x >= 0 {
      SumMonotone(x, x, EXP_ITERATIONS);
    } else {
      ExpPositive(x);
      assert Taylor.Unscaled(x) == -Taylor.Unscaled(u);
    }
  }

  // ---- Where the computed e^x, x <= 0, stays at most 1: on [-8.8, 0], and no longer on [-20, -8.84] ----

  lemma BelowOneNear(u: int, n: nat)
    requires SCALE <= u <= 8 * SCALE && n >= 3 && Taylor.Even(n)
    requires SlackSum(8.8, n) <= 317.0 && Taylor.Monomial(8.0, n) <= 0.48
    ensures Sum(-u, n) < SCALE
  {
    var z := Taylor.Unscaled(u);
    Taylor.BelowOne(z, n);
    Taylor.PolyTotal(-z, n);
    SlackMonotone(z, 8.8, n);
    RoundedError(u, n);
  }

  lemma BelowOneFar(u: int, n: nat)
    requires 65_000_000 <= u <= 88_000_000 && Base(6.5, 0.0032, 89.0, n)
    requires Taylor.Poly(-8.8, n) <= 0.951 && Taylor.Poly(6.0, n) <= 404.0
    ensures Sum(-u, n) < SCALE
  {
    hide Base, Sum, Taylor.Poly;
    PolyUpTo(8.8 - 6.5, 6.0, 404.0, n);
    BelowFar(u, n, 6.5, 0.0032, 89.0, 88_000_000, 8.8, 9_999_999);
  }

  lemma ExpAtMostOne(x: int)
    requires -88_000_000 <= x <= 0
    ensures Exp(x).Ok? && 1 <= Exp(x).value <= SCALE
    ensures x < 0 ==> Exp(x).value < SCALE
  {
    hide Base, Sum, SlackSum;
    if x >= -SCALE {
      ExpUnitInterval(x);
    } else {
      ExpPositive(x);
      if x >= -8 * SCALE {
        SlackAtEightEight();
        Taylor.AtEight();
        BelowOneNear(-x, 20);
      } else {
        BaseAtSixFive();
        Taylor.AtSix();
        Taylor.AtMinusEightEight();
        BelowOneFar(-x, 20);
      }
    }
  }

  lemma AboveOneFar(u: int, n: nat)
    requires 88_400_000 <= u && Base(8.8, 0.95, 317.0, n) && Taylor.Poly(6.0, n) <= 404.0
    requires 1.044 <= Taylor.Poly(-8.84, n) && 1.514 <= Taylor.Poly(-9.0, n)
    ensures 10_300_000 <= Sum(-u, n)
    ensures 9 * SCALE <= u ==> 14_900_000 <= Sum(-u, n)
  {
    hide Base, Sum, Taylor.Poly;
    PolyUpTo(8.84 - 8.8, 6.0, 404.0, n);
    PolyUpTo(9.0 - 8.8, 6.0, 404.0, n);
    AboveFar(u, n, 8.8, 0.95, 317.0, 88_400_000, 8.84, 10_300_000);
    if 9 * SCALE <= u {
      AboveFar(u, n, 8.8, 0.95, 317.0, 9 * SCALE, 9.0, 14_900_000);
    }
  }

  // The 20-term loop claims e^x > 1 from -8.84 down, and e^x > 1.49 from -9 down; the true values are
  // below 0.0002.
  lemma ExpTooLarge(x: int)
    requires -20 * SCALE <= x <= -88_400_000
    ensures Exp(x).Ok? && Exp(x).value >= 10_300_000
    ensures x <= -9 * SCALE ==> Exp(x).value >= 14_900_000
  {
    hide Base, Sum, SlackSum;
    BaseAtEightEight();
    Taylor.AtSix();
    Taylor.AtMinusEightEightFour();
    Taylor.AtMinusNine();
    AboveOneFar(-x, 20);
  }
}
