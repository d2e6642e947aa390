/** What the rounded cost function guarantees, for every pair of quantities a market can hold. */
module CostLaws {
  import opened Fixed
  import opened Exponential
  import opened ExponentialAccuracy
  import opened Logarithm
  import opened LogarithmAccuracy
  import opened Lmsr

  // ---- ln(e^a + e^c) against max(a, c) ----

  lemma InsideAboveMax(a: int, c: int)
    ensures Max(a, c) < Inside(a, c)
  {
    InsideBounds(a, c);
    ExpPositive(Min(a, c) - Max(a, c));
  }

  lemma InsideAtMost(a: int, c: int)
    requires Max(a, c) - Min(a, c) <= 88_000_000
    ensures Inside(a, c) <= Max(a, c) + LN2_SCALED
    ensures a != c ==> Inside(a, c) <= Max(a, c) + SERIES_CAP
  {
    hide Exp, Ln;
    var diff := Min(a, c) - Max(a, c);
    ExpAtMostOne(diff);
    LnBelowTwo(SCALE + Exp(diff).value);
  }

  lemma LnOfNext()
    ensures Ln(SCALE + 1) == Ok(1)
  {
    assert Normalise(SCALE + 1) == Normal(SCALE + 1, 0);
    assert Power(1, 2) == 0;
    Logarithm.EarlyExit(1, 1, LN_ITERATIONS);
    assert Series(1, 0) == 0;
  }

  // Past 20 the exponential is cut to one unit, and so is the logarithm.
  lemma InsidePastCap(a: int, c: int)
    requires Max(a, c) - Min(a, c) > 20 * SCALE
    ensures Inside(a, c) == Max(a, c) + 1
  {
    LnOfNext();
  }

  // From 2.03 up, by half of what halving leaves above 1.
  lemma LnAboveTwo(x: int)
    requires x >= 20_300_000
    ensures Ln(x).Ok? && Ln(x).value >= LN2_SCALED + 75_000
    ensures x >= 24_900_000 ==> Ln(x).value >= LN2_SCALED + 1_200_000
  {
    var r := Normalise(x);
    NormaliseRange(x);
    var y := r.mantissa - SCALE;
    SeriesBounds(y);
    NormaliseRange(x / 2);
    if x / 2 >= 2 * SCALE {
      NormaliseRange(x / 2 / 2);
      MulLe(2, r.exponent, LN2_SCALED);
    } else {
      assert r == Normal(x / 2, 1);
      SeriesHalf(y);
    }
  }

  lemma InsideTooLarge(a: int, c: int)
    requires 88_400_000 <= Max(a, c) - Min(a, c) <= 20 * SCALE
    ensures Max(a, c) + LN2_SCALED + 75_000 <= Inside(a, c)
    ensures 9 * SCALE <= Max(a, c) - Min(a, c) ==> Max(a, c) + LN2_SCALED + 1_200_000 <= Inside(a, c)
  {
    var diff := Min(a, c) - Max(a, c);
    ExpTooLarge(diff);
    LnAboveTwo(SCALE + Exp(diff).value);
  }

  // ---- Ratios ----

  lemma RatioLe(y: int, n: int, b: int)
    requires 0 <= y <= n && 0 < b
    ensures Ratio(y, b) <= Ratio(n, b)
  {
    DivLe(y * SCALE, n * SCALE, b);
  }

  lemma RatioShift(y: int, k: int, j: int, b: int)
    requires 0 <= y && 0 <= k && 0 < b && k * SCALE == j * b
    ensures 0 <= j && Ratio(y + k, b) == Ratio(y, b) + j
  {
    var r := Ratio(y, b);
    RatioFloor(y, b);
    if j < 0 {
      MulLe(j, -1, b);
    }
    assert (r + j) * b == r * b + j * b;
    Quotient((y + k) * SCALE, b, r + j);
  }

  // Quantities k*b apart are ratios k apart.
  lemma RatioApart(y: int, n: int, k: int, b: int)
    requires 0 <= y && 0 <= n && 0 <= k && 0 < b
    ensures y <= n + k * b ==> Ratio(y, b) <= Ratio(n, b) + k * SCALE
    ensures n + k * b <= y ==> Ratio(n, b) + k * SCALE <= Ratio(y, b)
  {
    MulLe(0, k, b);
    assert (k * b) * SCALE == (k * SCALE) * b;
    RatioShift(n, k * b, k * SCALE, b);
    if y <= n + k * b {
      RatioLe(y, n + k * b, b);
    }
    if n + k * b <= y {
      RatioLe(n + k * b, y, b);
    }
  }

  lemma RatioMax(y: int, n: int, b: int)
    requires 0 <= y && 0 <= n && 0 < b
    ensures Max(Ratio(y, b), Ratio(n, b)) == Ratio(Max(y, n), b)
  {
    if y <= n {
      RatioLe(y, n, b);
    } else {
      RatioLe(n, y, b);
    }
  }

  // ---- The cost covers every claim, and is at most b ln 2 more ----

  lemma CoverArith(b: int, r: int, q: int, inside: int)
    requires 0 < b && q * SCALE < r * b + b && r + 1 <= inside
    ensures q <= b * inside / SCALE
  {
    MulLe(r + 1, inside, b);
    assert (r + 1) * b == r * b + b;
    DivAtLeast(b * inside, SCALE, q);
  }

  lemma PotentialCovers(y: int, n: int, b: int)
    requires 0 <= y && 0 <= n && 0 < b
    ensures Max(y, n) <= Potential(y, n, b)
  {
    var a, c, q := Ratio(y, b), Ratio(n, b), Max(y, n);
    RatioMax(y, n, b);
    InsideAboveMax(a, c);
    RatioFloor(q, b);
    CoverArith(b, Ratio(q, b), q, Inside(a, c));
  }

  lemma AtMostArith(b: int, r: int, q: int, inside: int, extra: int)
    requires 0 < b && r * b <= q * SCALE && inside <= r + extra
    ensures b * inside / SCALE <= q + b * extra / SCALE
  {
    MulLe(inside, r + extra, b);
    assert (r + extra) * b == r * b + b * extra;
    DivLe(b * inside, q * SCALE + b * extra, SCALE);
  }

  // How far apart the ratios of the two quantities are.
  function Distance(y: int, n: int, b: int): int
    requires 0 <= y && 0 <= n && 0 < b
  {
    Abs(Ratio(y, b) - Ratio(n, b))
  }

  lemma DistanceWithin(y: int, n: int, b: int)
    requires 0 <= y && 0 <= n && 0 < b && Max(y, n) - Min(y, n) <= 8 * b
    ensures Distance(y, n, b) <= 8 * SCALE
  {
    RatioApart(y, n, 8, b);
    RatioApart(n, y, 8, b);
  }

  lemma PotentialAtMost(y: int, n: int, b: int)
    requires 0 <= y && 0 <= n && 0 < b && Distance(y, n, b) <= 88_000_000
    ensures Potential(y, n, b) <= Max(y, n) + b * LN2_SCALED / SCALE
  {
    var a, c, q := Ratio(y, b), Ratio(n, b), Max(y, n);
    RatioMax(y, n, b);
    InsideAtMost(a, c);
    RatioFloor(q, b);
    AtMostArith(b, Ratio(q, b), q, Inside(a, c), LN2_SCALED);
  }

  lemma PotentialPastCap(y: int, n: int, b: int)
    requires 0 <= y && 0 <= n && 0 < b && Distance(y, n, b) > 20 * SCALE
    ensures Potential(y, n, b) <= Max(y, n) + b / SCALE
  {
    var a, c, q := Ratio(y, b), Ratio(n, b), Max(y, n);
    RatioMax(y, n, b);
    InsidePastCap(a, c);
    RatioFloor(q, b);
    AtMostArith(b, Ratio(q, b), q, Inside(a, c), 1);
  }

  // Wherever the quantities are, the cost adds at most 82 ln 2 + 1 times b.
  lemma PotentialCapped(y: int, n: int, b: int)
    requires 0 <= y && 0 <= n && 0 < b
    ensures Potential(y, n, b) <= Max(y, n) + b * LN_CAP / SCALE
  {
    hide Inside, Ratio;
    var a, c, q := Ratio(y, b), Ratio(n, b), Max(y, n);
    RatioMax(y, n, b);
    InsideBounds(a, c);
    RatioFloor(q, b);
    AtMostArith(b, Ratio(q, b), q, Inside(a, c), LN_CAP);
  }

  lemma ExceedArith(b: int, r: int, q: int, inside: int, l: int, margin: int)
    requires 0 < b && q * SCALE < r * b + b && r + l + margin <= inside && SCALE <= (margin - 1) * b
    ensures q + b * l / SCALE < b * inside / SCALE
  {
    MulLe(r + l + margin, inside, b);
    assert (r + l + margin) * b == r * b + b * l + margin * b;
    assert (margin - 1) * b == margin * b - b;
    DivAtLeast(b * inside, SCALE, q + b * l / SCALE + 1);
  }

  lemma PotentialExceeds(y: int, n: int, b: int)
    requires 0 <= y && 0 <= n && 0 < b && 88_400_000 <= Distance(y, n, b) <= 20 * SCALE
    requires 134 <= b || (9 <= b && 9 * SCALE <= Distance(y, n, b))
    ensures Max(y, n) + b * LN2_SCALED / SCALE < Potential(y, n, b)
  {
    hide Inside, Ratio;
    var a, c, q := Ratio(y, b), Ratio(n, b), Max(y, n);
    RatioMax(y, n, b);
    InsideTooLarge(a, c);
    RatioFloor(q, b);
    if 134 <= b {
      ExceedArith(b, Ratio(q, b), q, Inside(a, c), LN2_SCALED, 75_000);
    } else {
      ExceedArith(b, Ratio(q, b), q, Inside(a, c), LN2_SCALED, 1_200_000);
    }
  }

  // Every successful cost is at least the larger quantity, with no rounding slack. It is at most
  // b ln 2 above it up to a distance of 8.8 and past 20, and more than that from 8.84 to 20, where
  // 20 Taylor terms no longer approximate a small exponential. Past 20 almost nothing is added.
  lemma CostSandwich(y: int, n: int, b: int)
    requires 0 <= y && 0 <= n && Cost(y, n, b).Ok?
    ensures Max(y, n) <= Cost(y, n, b).value
    ensures Distance(y, n, b) <= 88_000_000 || Distance(y, n, b) > 20 * SCALE ==>
      Cost(y, n, b).value <= Max(y, n) + b * LN2_SCALED / SCALE
    ensures Distance(y, n, b) > 20 * SCALE ==> Cost(y, n, b).value <= Max(y, n) + b / SCALE
    ensures 88_400_000 <= Distance(y, n, b) <= 20 * SCALE
            && (134 <= b || (9 <= b && 9 * SCALE <= Distance(y, n, b))) ==>
      Max(y, n) + b * LN2_SCALED / SCALE < Cost(y, n, b).value
  {
    assert 0 < b;
    hide Cost, Potential, Distance;
    CostValue(y, n, b);
    PotentialCovers(y, n, b);
    if Distance(y, n, b) <= 88_000_000 {
      PotentialAtMost(y, n, b);
    } else if Distance(y, n, b) > 20 * SCALE {
      PotentialPastCap(y, n, b);
      MulLe(1, LN2_SCALED, b);
      DivLe(b, b * LN2_SCALED, SCALE);
    } else if 88_400_000 <= Distance(y, n, b) && (134 <= b || (9 <= b && 9 * SCALE <= Distance(y, n, b))) {
      PotentialExceeds(y, n, b);
    }
  }

  // ---- Where the cost is defined, and where it starts ----

  lemma FitsArith(b: int, r: int, q: int, inside: int, extra: int)
    requires 0 < b && 0 <= extra && r * b <= q * SCALE && inside <= r + extra
    ensures b * inside <= q * SCALE + b * extra && 0 <= b * extra
  {
    MulLe(inside, r + extra, b);
    MulLe(0, b, extra);
    assert (r + extra) * b == r * b + b * extra;
  }

  lemma SmallMarketFits(y: int, n: int, b: int)
    requires 0 <= y && 0 <= n && 0 < b && Max(y, n) * SCALE + b * LN_CAP <= I128_MAX
    ensures CostFits(y, n, b)
  {
    var a, c, q := Ratio(y, b), Ratio(n, b), Max(y, n);
    RatioMax(y, n, b);
    InsideBounds(a, c);
    RatioFloor(q, b);
    FitsArith(b, Ratio(q, b), q, Inside(a, c), LN_CAP);
  }

  // Up to 10^30 units of each outcome and b up to 10^28 nothing overflows.
  lemma CostEnvelope(y: int, n: int, b: int)
    requires 0 <= y <= 1_000_000_000_000_000_000_000_000_000_000
    requires 0 <= n <= 1_000_000_000_000_000_000_000_000_000_000
    requires 1 <= b <= 10_000_000_000_000_000_000_000_000_000
    ensures Cost(y, n, b).Ok?
  {
    MulLe(b, 10_000_000_000_000_000_000_000_000_000, LN_CAP);
    SmallMarketFits(y, n, b);
    CostValue(y, n, b);
  }

  // The untraded market costs exactly the required initial liquidity, errors included.
  lemma CostAtOrigin(b: int)
    ensures Cost(0, 0, b) == InitialLiquidity(b)
  {
    if b > 0 {
      assert Ratio(0, b) == 0;
      ExpOfZero();
      LnOfTwo();
      assert Inside(0, 0) == LN2_SCALED;
      CostValue(0, 0, b);
      MulLe(0, b, LN2_SCALED);
    }
  }

  lemma CostSymmetric(y: int, n: int, b: int)
    ensures Cost(y, n, b) == Cost(n, y, b)
  {
    if b > 0 && InRange(y * SCALE) && InRange(n * SCALE) {
      var a, c := TruncDiv(y * SCALE, b), TruncDiv(n * SCALE, b);
      assert Max(a, c) == Max(c, a) && Min(a, c) == Min(c, a);
      assert CostOfRatios(a, c, b) == CostOfRatios(c, a, b);
    }
  }

  // ---- Complete sets ----

  lemma InsideShift(a: int, c: int, j: int)
    ensures Inside(a + j, c + j) == Inside(a, c) + j
  {}

  lemma ShiftArith(b: int, inside: int, j: int, k: int)
    requires 0 < b && k * SCALE == j * b
    ensures b * (inside + j) == b * inside + k * SCALE
    ensures b * (inside + j) / SCALE == b * inside / SCALE + k
  {
    assert b * (inside + j) == b * inside + j * b;
  }

  lemma InsideOfShift(y: int, n: int, k: int, j: int, b: int)
    requires 0 <= y && 0 <= n && 0 <= k && 0 < b && k * SCALE == j * b
    ensures Inside(Ratio(y + k, b), Ratio(n + k, b)) == Inside(Ratio(y, b), Ratio(n, b)) + j
  {
    hide *;
    RatioShift(y, k, j, b);
    RatioShift(n, k, j, b);
    InsideShift(Ratio(y, b), Ratio(n, b), j);
  }

  lemma ShiftedProduct(b: int, inside: int, inside': int, j: int, k: int)
    requires 0 < b && 0 <= k && k * SCALE == j * b && inside' == inside + j
    ensures b * inside' / SCALE == b * inside / SCALE + k && b * inside <= b * inside'
  {
    ShiftArith(b, inside, j, k);
  }

  lemma PotentialShift(y: int, n: int, k: int, j: int, b: int)
    requires 0 <= y && 0 <= n && 0 <= k && 0 < b && k * SCALE == j * b
    ensures Potential(y + k, n + k, b) == Potential(y, n, b) + k
    ensures CostFits(y + k, n + k, b) ==> CostFits(y, n, b)
  {
    InsideOfShift(y, n, k, j, b);
    ShiftedProduct(b, Inside(Ratio(y, b), Ratio(n, b)), Inside(Ratio(y + k, b), Ratio(n + k, b)), j, k);
  }

  lemma Quotients(k: int, b: int) returns (j: int)
    requires 0 < b && k * SCALE % b == 0
    ensures k * SCALE == j * b
  {
    j := k * SCALE / b;
  }

  lemma PotentialSet(y: int, n: int, k: int, b: int)
    requires 0 <= y && 0 <= n && 0 <= k && 0 < b && k * SCALE % b == 0
    ensures Potential(y + k, n + k, b) == Potential(y, n, b) + k
    ensures CostFits(y + k, n + k, b) ==> CostFits(y, n, b)
  {
    var j := Quotients(k, b);
    PotentialShift(y, n, k, j, b);
  }

  // Adding k of both outcomes costs exactly k when b divides k * SCALE.
  lemma CompleteSet(y: int, n: int, k: int, b: int)
    requires 0 <= y && 0 <= n && 0 <= k && 0 < b && k * SCALE % b == 0 && Cost(y + k, n + k, b).Ok?
    ensures Cost(y, n, b).Ok? && Cost(y + k, n + k, b).value == Cost(y, n, b).value + k
  {
    hide *;
    CostValue(y + k, n + k, b);
    CostValue(y, n, b);
    PotentialSet(y, n, k, b);
  }

  lemma PotentialSymmetric(y: int, n: int, b: int)
    requires 0 <= y && 0 <= n && 0 < b
    ensures Potential(y, n, b) == Potential(n, y, b)
    ensures CostFits(y, n, b) <==> CostFits(n, y, b)
  {
    hide Ratio, Exp, Ln;
    assert Inside(Ratio(y, b), Ratio(n, b)) == Inside(Ratio(n, b), Ratio(y, b));
  }

  // ---- Just off balance the logarithm falls below ln 2: small purchases compute a negative cost ----

  lemma DipArith(b: int, high: int, low: int, depth: int)
    requires 0 < b && low + depth <= high
    ensures b * low / SCALE <= b * high / SCALE - depth * b / SCALE
  {
    MulLe(low, high - depth, b);
    assert (high - depth) * b == b * high - depth * b;
  }

  lemma InsideDips(r: int, s: int)
    requires r + 1 <= s <= r + 160_001
    ensures Inside(s, r) + 3_871 <= Inside(r, r)
  {
    InsideAtMost(s, r);
    ExpOfZero();
    LnOfTwo();
  }

  lemma DipRatios(q: int, amount: int, b: int)
    requires 0 <= q && 0 < b && b <= amount * SCALE && 1_000 * amount <= 16 * b
    ensures Ratio(q, b) + 1 <= Ratio(q + amount, b) <= Ratio(q, b) + 160_001
  {
    var r := Ratio(q, b);
    RatioFloor(q, b);
    RatioFloor(q + amount, b);
    assert (r + 1) * b == r * b + b && (r + 160_002) * b == r * b + 160_002 * b;
    DivAtLeast((q + amount) * SCALE, b, r + 1);
    if Ratio(q + amount, b) >= r + 160_002 {
      MulLe(r + 160_002, Ratio(q + amount, b), b);
    }
  }

  // From equal ratios, buying between 1e-7 b and 1.6% of b makes the computed cost fall, by at least
  // 3871 units per b.
  lemma PotentialDips(y: int, n: int, amount: int, b: int)
    requires 0 <= y && 0 <= n && 0 < b && Ratio(y, b) == Ratio(n, b)
    requires b <= amount * SCALE && 1_000 * amount <= 16 * b
    ensures Potential(y + amount, n, b) <= Potential(y, n, b) - 3_871 * b / SCALE
  {
    var r, s := Ratio(n, b), Ratio(y + amount, b);
    DipRatios(y, amount, b);
    InsideDips(r, s);
    DipArith(b, Inside(r, r), Inside(s, r), 3_871);
  }
}
