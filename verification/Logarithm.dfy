/** `ln_scaled`: normalise the argument into [1, 2) by halving or doubling, then sum at most 30
    rounded terms of y - y^2/2 + y^3/3 - ... and add back the power of two.

    `Series` is the plain 30-term sum and `Normalise` the plain normal form; the loops of
    `LnScaled`, with checked arithmetic and early exit, are proved to compute them. */
module Logarithm {
  import opened Fixed

  const LN_ITERATIONS: nat := 30

  datatype Normal = Normal(mantissa: int, exponent: int)

  function Normalise(x: int): Normal
    requires x > 0
    decreases if x < SCALE then 2 * SCALE - x else if x < 2 * SCALE then 0 else x
  {
    if x >= 2 * SCALE then
      var r := Normalise(x / 2);
      r.(exponent := r.exponent + 1)
    else if x < SCALE then
      var r := Normalise(2 * x);
      r.(exponent := r.exponent - 1)
    else
      Normal(x, 0)
  }

  // SCALE * (y/SCALE)^k, rounded down at every multiplication.
  function Power(y: int, k: nat): (p: int)
    requires 0 <= y
    ensures 0 <= p
  {
    if k <= 1 then y
    else
      var p := Power(y, k - 1);
      MulLe(0, p, y);
      DivAtLeast(p * y, SCALE, 0);
      p * y / SCALE
  }

  function Sign(k: nat): int {
    if k % 2 == 1 then 1 else -1
  }

  function Part(y: int, k: nat): (p: int)
    requires 0 <= y && k >= 1
    ensures 0 <= p
  {
    DivAtLeast(Power(y, k), k, 0);
    Power(y, k) / k
  }

  // The first n terms of the alternating series.
  function Series(y: int, n: nat): int
    requires 0 <= y
  {
    if n == 0 then 0 else Series(y, n - 1) + Sign(n) * Part(y, n)
  }

  lemma {:induction false} NormaliseRange(x: int)
    requires x > 0
    ensures SCALE <= Normalise(x).mantissa < 2 * SCALE
    ensures x >= SCALE ==> Normalise(x).exponent >= 0
    ensures x < SCALE ==> x - SCALE <= Normalise(x).exponent < 0
    decreases if x < SCALE then 2 * SCALE - x else if x < 2 * SCALE then 0 else x
  {
    if x >= 2 * SCALE {
      NormaliseRange(x / 2);
    } else if x < SCALE {
      NormaliseRange(2 * x);
    }
  }

  function Ln(x: int): Result<int> {
    if x <= 0 then Err(Overflow)
    else
      var r := Normalise(x);
      NormaliseRange(x);
      Ok(Series(r.mantissa - SCALE, LN_ITERATIONS) + r.exponent * LN2_SCALED)
  }

  // ---- The normal form, stated without the loops ----

  function Pow2(k: nat): (p: int)
    ensures p >= 1
  {
    if k == 0 then 1 else 2 * Pow2(k - 1)
  }

  lemma ShiftDown(x: int, k: nat)
    requires 0 <= x && k >= 1
    ensures x / Pow2(k) == x / 2 / Pow2(k - 1)
  {
    DivDiv(x, 2, Pow2(k - 1));
  }

  lemma ShiftUp(x: int, k: nat)
    requires k >= 1
    ensures x * Pow2(k) == 2 * x * Pow2(k - 1)
  {
    assert Pow2(k) == 2 * Pow2(k - 1);
  }

  // mantissa = floor(x / 2^exponent), or x * 2^-exponent when x was doubled.
  lemma {:induction false} NormaliseScales(x: int)
    requires x > 0
    ensures var r := Normalise(x);
      if x >= SCALE then r.exponent >= 0 && r.mantissa == x / Pow2(r.exponent)
      else r.exponent < 0 && r.mantissa == x * Pow2(-r.exponent)
    decreases if x < SCALE then 2 * SCALE - x else if x < 2 * SCALE then 0 else x
  {
    NormaliseRange(x);
    var r := Normalise(x);
    if x >= 2 * SCALE {
      NormaliseRange(x / 2);
      NormaliseScales(x / 2);
      ShiftDown(x, r.exponent);
    } else if x < SCALE {
      NormaliseRange(2 * x);
      NormaliseScales(2 * x);
      ShiftUp(x, -r.exponent);
    }
  }

  lemma {:induction false} ExponentCap(x: int, bits: nat)
    requires 0 < x < Pow2(bits)
    ensures Normalise(x).exponent <= bits
    decreases bits
  {
    NormaliseRange(x);
    if x >= 2 * SCALE {
      assert bits > 0;
      ExponentCap(x / 2, bits - 1);
    }
  }

  lemma {:induction false} Pow2Add(a: nat, b: nat)
    ensures Pow2(a + b) == Pow2(a) * Pow2(b)
  {
    if a > 0 {
      Pow2Add(a - 1, b);
      assert 2 * (Pow2(a - 1) * Pow2(b)) == (2 * Pow2(a - 1)) * Pow2(b);
    }
  }

  lemma Pow2Join(a: nat, p: int, b: nat, q: int)
    requires Pow2(a) == p && Pow2(b) == q
    ensures Pow2(a + b) == p * q
  {
    Pow2Add(a, b);
  }

  lemma SmallPowers()
    ensures Pow2(2) == 4 && Pow2(7) == 0x80 && Pow2(8) == 0x100
  {}

  lemma Exponent128(x: int)
    requires 0 < x <= I128_MAX
    ensures Normalise(x).exponent <= 127
  {
    hide Pow2, Normalise;
    SmallPowers();
    Pow2Join(8, 0x100, 8, 0x100);
    Pow2Join(16, 0x1_0000, 16, 0x1_0000);
    Pow2Join(32, 0x1_0000_0000, 32, 0x1_0000_0000);
    Pow2Join(8, 0x100, 7, 0x80);
    Pow2Join(16, 0x1_0000, 15, 0x8000);
    Pow2Join(32, 0x1_0000_0000, 31, 0x8000_0000);
    Pow2Join(64, 0x1_0000_0000_0000_0000, 63, 0x8000_0000_0000_0000);
    ExponentCap(x, 127);
  }

  // ---- The series lies in [0, y] ----

  lemma PowerShrinks(y: int, k: nat)
    requires 0 <= y <= SCALE && k >= 1
    ensures Power(y, k + 1) <= Power(y, k)
    ensures Part(y, k + 1) <= Part(y, k)
  {
    var p, q := Power(y, k), Power(y, k + 1);
    MulLe(y, SCALE, p);
    DivAtMost(p * y, SCALE, p);
    DivLe(q, p, k);
    MulLe(k, k + 1, q / (k + 1));
    DivAtLeast(q, k, q / (k + 1));
  }

  lemma {:induction false} PowerCap(y: int, k: nat)
    requires 0 <= y <= SCALE
    ensures Power(y, k) <= y
    ensures k >= 1 ==> Part(y, k) <= y
  {
    if k > 1 {
      PowerCap(y, k - 1);
      PowerShrinks(y, k - 1);
    }
  }

  lemma {:induction false} SeriesNests(y: int, n: nat)
    requires 0 <= y <= SCALE && n >= 2
    ensures n % 2 == 1 ==> y - Part(y, 2) + Part(y, n) <= Series(y, n) <= y
    ensures n % 2 == 0 ==> y - Part(y, 2) <= Series(y, n) <= y - Part(y, n)
  {
    if n == 2 {
      assert Series(y, 0) == 0;
      assert Series(y, 1) == Part(y, 1) == y;
    } else {
      SeriesNests(y, n - 1);
      PowerShrinks(y, n - 1);
    }
  }

  // The series is at least half of its argument.
  lemma SeriesHalf(y: int)
    requires 0 <= y <= SCALE
    ensures y <= 2 * Series(y, LN_ITERATIONS)
  {
    SeriesNests(y, LN_ITERATIONS);
    MulLe(y, SCALE, y);
    DivAtMost(y * y, SCALE, y);
    assert 2 * Part(y, 2) <= Power(y, 2) <= y;
  }

  lemma SeriesBounds(y: int)
    requires 0 <= y <= SCALE
    ensures 0 <= Series(y, LN_ITERATIONS) <= y
    ensures y >= 1 ==> 1 <= Series(y, LN_ITERATIONS)
  {
    SeriesNests(y, LN_ITERATIONS);
    SeriesHalf(y);
  }

  // Once a power rounds to zero, so do all later ones: the early exit loses nothing.
  lemma {:induction false} EarlyExit(y: int, n: nat, k: nat)
    requires 0 <= y && n >= 1 && n <= k && Power(y, n + 1) == 0
    ensures Power(y, k + 1) == 0 && Series(y, k) == Series(y, n)
  {
    if n < k {
      EarlyExit(y, n, k - 1);
    }
  }

  lemma SignedPart(p: int, k: nat)
    requires 0 <= p && k >= 1
    ensures TruncDiv(Sign(k) * p, k) == Sign(k) * (p / k)
  {
    TruncDivSign(p, k);
    assert Sign(k) * p == if k % 2 == 1 then p else -p;
    assert Sign(k) * (p / k) == if k % 2 == 1 then p / k else -(p / k);
  }

  lemma NextPower(p: int, y: int)
    requires 0 <= p <= y <= SCALE
    ensures InRange(p * y) && TruncDiv(p * y, SCALE) == p * y / SCALE
  {
    MulLe(0, p, y);
    MulLe(p, SCALE, y);
    TruncDivSign(p * y, SCALE);
  }

  // One turn of the series loop: the values the checked operations produce, all in range.
  lemma SeriesStep(y: int, k: nat)
    requires 0 <= y <= SCALE && k >= 1
    ensures TruncDiv(Sign(k) * Power(y, k), k) == Sign(k) * Part(y, k)
    ensures InRange(Series(y, k)) && InRange(Power(y, k) * y)
    ensures TruncDiv(Power(y, k) * y, SCALE) == Power(y, k + 1)
    ensures Series(y, k) == Series(y, k - 1) + Sign(k) * Part(y, k) && Sign(k + 1) == -Sign(k)
  {
    PowerCap(y, k);
    SignedPart(Power(y, k), k);
    NextPower(Power(y, k), y);
    PowerCap(y, 2);
    if k >= 2 {
      SeriesNests(y, k);
    } else {
      assert Series(y, 0) == 0;
    }
  }

  lemma AdjustmentInRange(x: int)
    requires 0 < x <= I128_MAX
    ensures var r := Normalise(x);
      r.mantissa >= SCALE && InRange(r.exponent * LN2_SCALED)
      && InRange(Series(r.mantissa - SCALE, LN_ITERATIONS) + r.exponent * LN2_SCALED)
  {
    var r := Normalise(x);
    NormaliseRange(x);
    Exponent128(x);
    SeriesBounds(r.mantissa - SCALE);
    MulLe(r.exponent, 127, LN2_SCALED);
    MulLe(-SCALE, r.exponent, LN2_SCALED);
  }

  // The source's three loops: two in `ScaleToUnit`, one in `SumSeries`. As in `ExpScaled`, `Extract` proves
  // that no checked operation overflows: the only error is the one for a non-positive argument.
  method ScaleToUnit(x: int) returns (normalized: int, n: int)
    requires 0 < x <= I128_MAX
    ensures Normal(normalized, n) == Normalise(x)
  {
    normalized, n := x, 0;
    while normalized >= 2 * SCALE
      invariant 0 < normalized <= x
      invariant Normalise(x) == Normal(Normalise(normalized).mantissa, Normalise(normalized).exponent + n)
      decreases normalized
    {
      normalized := CheckedDiv(normalized, 2).Extract();
      n := n + 1;
    }
    while normalized < SCALE && normalized > 0
      invariant 0 < normalized < 2 * SCALE
      invariant Normalise(x) == Normal(Normalise(normalized).mantissa, Normalise(normalized).exponent + n)
      decreases SCALE - normalized
    {
      normalized := CheckedMul(normalized, 2).Extract();
      n := n - 1;
    }
  }

  lemma SeriesStart(y: int)
    requires 0 <= y
    ensures Power(y, 1) == y && Series(y, 0) == 0
  {}

  method SumSeries(y: int) returns (result: int)
    requires 0 <= y <= SCALE
    ensures result == Series(y, LN_ITERATIONS)
  {
    hide Series, Power, Part;
    SeriesStart(y);
    var power, sign := y, 1;
    result := 0;
    var k := 1;
    while k <= LN_ITERATIONS
      invariant 1 <= k <= LN_ITERATIONS + 1
      invariant power == Power(y, k) && sign == Sign(k) && result == Series(y, k - 1)
    {
      SeriesStep(y, k);
      var term := TruncDiv(sign * power, k);
      result := CheckedAdd(result, term).Extract();
      power := CheckedDiv(CheckedMul(power, y).Extract(), SCALE).Extract();
      sign := -sign;
      if Abs(power) < 1 {
        EarlyExit(y, k, LN_ITERATIONS);
        break;
      }
      k := k + 1;
    }
  }

  method LnScaled(x: int) returns (r: Result<int>)
    requires InRange(x)
    ensures r == Ln(x)
    ensures r.Ok? <==> x > 0
  {
    if x <= 0 {
      return Err(Overflow);
    }
    if x == SCALE {
      SeriesBounds(0);
      return Ok(0);
    }
    hide Series;
    var normalized, n := ScaleToUnit(x);
    NormaliseRange(x);
    var result := SumSeries(normalized - SCALE);
    AdjustmentInRange(x);
    var adjustment := CheckedMul(n, LN2_SCALED).Extract();
    result := CheckedAdd(result, adjustment).Extract();
    return Ok(result);
  }

  // ---- What callers use ----

  lemma LnBounds(x: int)
    requires x >= SCALE
    ensures var r := Normalise(x);
      Ln(x).Ok? && r.exponent * LN2_SCALED <= Ln(x).value <= r.exponent * LN2_SCALED + (r.mantissa - SCALE)
    ensures 0 <= Ln(x).value
    ensures x > SCALE ==> 1 <= Ln(x).value
  {
    NormaliseRange(x);
    SeriesBounds(Normalise(x).mantissa - SCALE);
  }

  lemma LnOfTwo()
    ensures Ln(2 * SCALE) == Ok(LN2_SCALED)
  {
    var r := Normalise(2 * SCALE);
    assert 2 * SCALE / 2 == SCALE && Normalise(SCALE) == Normal(SCALE, 0);
    assert r == Normal(SCALE, 1);
    SeriesBounds(0);
  }
}
