/** Where purchases compute a negative cost, by how far apart the two quantities are.

    Up to the constant ln-part of the other quantity, the cost is b times a function of one signed
    distance, `Height`. It rises with the distance, up to a rounding slack of 1600 units, except
    just above 0, from -20 to about -6.2, and where 20 is crossed. `Falls` and `Holds` are moves for
    which it is known to fall, or not to, without any slack. */
module Regimes {
  import opened Fixed
  import opened Exponential
  import opened ExponentialAccuracy
  import opened Logarithm
  import opened LogarithmAccuracy
  import opened Lmsr
  import opened ExponentialShape
  import CostLaws
  import opened Monotonicity
  import Taylor

  // ---- The cost as a function of one distance ----

  // -|x|
  function Gap(x: int): int {
    if x < 0 then x else -x
  }

  // ln(e^x + 1), as the engine computes it.
  function Height(x: int): int {
    ExpPositive(Gap(x));
    LnBounds(SCALE + Exp(Gap(x)).value);
    Max(x, 0) + Ln(SCALE + Exp(Gap(x)).value).value
  }

  lemma InsideHeight(a: int, c: int)
    ensures Inside(a, c) == c + Height(a - c)
  {
    hide Exp, Ln;
    assert Gap(a - c) == Min(a, c) - Max(a, c);
  }

  lemma HeightAbove(x: int)
    ensures Max(x, 0) + 1 <= Height(x)
  {
    ExpPositive(Gap(x));
    LnBounds(SCALE + Exp(Gap(x)).value);
  }

  lemma HeightAtZero()
    ensures Height(0) == LN2_SCALED
  {
    ExpOfZero();
    LnOfTwo();
  }

  lemma HeightPastCap(x: int)
    requires Abs(x) > CAP
    ensures Height(x) == Max(x, 0) + 1
  {
    CostLaws.LnOfNext();
  }

  lemma HeightNear(x: int)
    requires 1 <= Abs(x) <= EDGE
    ensures Exp(Gap(x)).Ok? && 1 <= Exp(Gap(x)).value < SCALE
    ensures Height(x) == Max(x, 0) + Series(Exp(Gap(x)).value, LN_ITERATIONS)
    ensures Max(x, 0) < Height(x) <= Max(x, 0) + SERIES_CAP
  {
    hide Ln, Series, Exp;
    HeightAbove(x);
    ExpAtMostOne(Gap(x));
    LnOfUnit(SCALE + Exp(Gap(x)).value);
  }

  // ---- Ahead: buying more of the outcome that is ahead ----

  lemma SeriesDrop(x: int, y: int)
    requires 0 <= x <= SCALE && 0 <= y <= SCALE
    ensures Series(x, LN_ITERATIONS) - Series(y, LN_ITERATIONS) <= Max(x - y, 0) + 60
  {
    if y <= x {
      SeriesFollows(y, x, 15);
    } else {
      SeriesFollows(x, y, 15);
    }
  }

  lemma AheadNear(u: int, v: int)
    requires 1 <= u <= v <= EDGE
    ensures Height(u) <= Height(v) + 694
  {
    hide Height, Exp, Series;
    HeightNear(u);
    HeightNear(v);
    ExpSlope(u, v);
    SeriesDrop(Exp(-u).value, Exp(-v).value);
  }

  lemma AheadFar(u: int, v: int)
    requires EDGE <= u && u + 1_600 <= v <= CAP
    ensures Height(u) + (v - u) <= Height(v) + 60
  {
    hide Exp, Ln;
    ExpRises(u, v);
    LnMonotone(SCALE + Exp(-u).value, SCALE + Exp(-v).value);
  }

  lemma AheadPastEdge(u: int, v: int)
    requires u == EDGE <= v <= CAP
    ensures Height(u) + (v - u) <= Height(v) + 694
  {
    hide Exp, Ln, Series;
    ExpPastEdge(u, v);
    var x, y := Exp(-u).value, Exp(-v).value;
    if x <= y {
      LnMonotone(SCALE + x, SCALE + y);
    } else {
      LnOfUnit(SCALE + x);
      LnOfUnit(SCALE + y);
      SeriesDrop(x, y);
    }
  }

  // From 1 on, what rounding takes is made up for within 2400 units.
  lemma AheadGentle(u: int, v: int)
    requires SCALE <= u <= v <= EDGE
    ensures 1_000 * Height(u) + 629 * (v - u) <= 1_000 * Height(v) + 694_000
  {
    hide Height, Exp, Series;
    HeightNear(u);
    HeightNear(v);
    ExpGentle(u, v);
    SeriesDrop(Exp(-u).value, Exp(-v).value);
  }

  lemma AheadFrom(u: int, v: int)
    requires SCALE <= u && u + 2_400 <= v <= CAP
    ensures Height(u) <= Height(v)
  {
    hide Height;
    if v <= EDGE {
      AheadGentle(u, v);
    } else if EDGE <= u {
      AheadFar(u, v);
    } else {
      AheadGentle(u, EDGE);
      AheadPastEdge(EDGE, v);
    }
  }

  lemma Ahead(u: int, v: int)
    requires 1 <= u <= v <= CAP && (u < EDGE || u + 1_600 <= v)
    ensures Height(u) <= Height(v) + 1_388
  {
    hide Height;
    if v <= EDGE {
      AheadNear(u, v);
    } else if EDGE <= u {
      AheadFar(u, v);
    } else {
      AheadNear(u, EDGE);
      AheadPastEdge(EDGE, v);
    }
  }

  lemma TenDoublings()
    ensures Pow2(10) == 1_024 && Pow2(1) == 2
  {
    assert Pow2(0) == 1;
    assert Pow2(5) == 32;
    Pow2Add(5, 5);
  }

  lemma HeightUpToTwelve(u: int)
    requires 0 <= u <= 125_000_000
    ensures Height(u) < CAP - 1_600
  {
    hide Exp, Ln, Pow2;
    if u == 0 {
      HeightAtZero();
    } else if u <= EDGE {
      HeightNear(u);
    } else {
      ExpUpToTwelve(u);
      TenDoublings();
      LnAtMost(SCALE + Exp(-u).value, 10, 3_200_000);
    }
  }

  lemma HeightFromTwelve(u: int)
    requires 127_000_000 <= u <= CAP
    ensures u + 73_414_720 <= Height(u)
    ensures 13 * SCALE <= u ==> u + 11 * LN2_SCALED <= Height(u)
  {
    hide Exp, Ln, Pow2;
    ExpFromTwelve(u);
    TenDoublings();
    LnAtLeast(SCALE + Exp(-u).value, 10, 8_200_000);
    if 13 * SCALE <= u {
      Pow2Join(10, 1_024, 1, 2);
      LnAtLeast(SCALE + Exp(-u).value, 11, 0);
    }
  }

  // ---- Behind: buying the outcome that is behind ----

  lemma Behind(u: int, v: int)
    requires 1 <= u <= v <= 6 * SCALE
    ensures Height(-v) <= Height(-u) + 694
  {
    hide Height, Exp, Series;
    HeightNear(-u);
    HeightNear(-v);
    ExpFalls(u, v);
    SeriesDrop(Exp(-v).value, Exp(-u).value);
  }

  lemma Mirrored(u: int)
    requires 0 <= u
    ensures Height(u) == u + Height(-u)
  {}

  // Behind by at most 6, catching up or overtaking loses nothing.
  lemma CatchUp(u: int, x: int)
    requires 1 <= u <= 6 * SCALE && -u <= x <= CAP
    ensures Height(-u) <= Height(x) + 1_388
  {
    hide Height;
    HeightNear(-u);
    HeightAbove(x);
    if x == 0 {
      HeightAtZero();
    } else if x < 0 {
      Behind(-x, u);
    } else if x <= u {
      Behind(x, u);
      Mirrored(x);
    } else {
      Mirrored(u);
      Ahead(u, x);
    }
  }

  lemma LnFrom(x: int, y: int)
    requires 0 <= y < SCALE && SCALE + y <= x
    ensures Ln(x).Ok? && Series(y, LN_ITERATIONS) <= Ln(x).value + 60
  {
    hide Ln, Series;
    LnOfUnit(SCALE + y);
    LnMonotone(SCALE + y, x);
  }

  lemma SmallSeries(y: int)
    requires 0 <= y <= SCALE
    ensures y - y * y / SCALE / 2 <= Series(y, LN_ITERATIONS) <= y
  {
    SeriesNests(y, LN_ITERATIONS);
    assert Power(y, 1) == y && Power(y, 2) == y * y / SCALE;
  }

  lemma HeightFarBehind(x: int)
    requires -CAP <= x <= -65_000_000
    ensures 32_300 <= Height(x)
    ensures x <= -7 * SCALE ==> 90_900 <= Height(x)
  {
    hide Exp, Ln, Series;
    ExpPositive(x);
    LnFrom(SCALE + Exp(x).value, 32_500);
    SmallSeries(32_500);
    if x <= -7 * SCALE {
      LnFrom(SCALE + Exp(x).value, 91_500);
      SmallSeries(91_500);
    }
  }

  lemma HeightAtLowest(x: int)
    requires x == -62_000_000
    ensures Height(x) <= 27_300
  {
    hide Series, Exp;
    HeightNear(x);
    ExpAtLowest(-x);
    SeriesBounds(Exp(x).value);
  }

  // ---- At balance ----

  // Two turns of the series loop from the k-th on, given the powers p, q, r and the terms d, e.
  lemma TwoTurns(y: int, k: nat, p: int, q: int, r: int, sum: int, d: int, e: int)
    requires 0 <= y && k % 2 == 1 && Power(y, k) == p && Series(y, k - 1) == sum
    requires q * SCALE <= p * y < q * SCALE + SCALE && r * SCALE <= q * y < r * SCALE + SCALE
    requires d * k <= p < d * k + k && e * (k + 1) <= q < e * (k + 1) + k + 1
    ensures Power(y, k + 2) == r && Series(y, k + 1) == sum + d - e
  {
    Quotient(p * y, SCALE, q);
    Quotient(q * y, SCALE, r);
    Quotient(p, k, d);
    Quotient(q, k + 1, e);
    assert Power(y, k + 1) == q;
    assert Series(y, k) == Series(y, k - 1) + d;
  }

  lemma ExpAtDip(x: int)
    requires x == -185_200
    ensures Exp(x) == Ok(9_816_504)
  {
    assert Term(x, 0) == SCALE;
    assert Term(x, 1) == -185_200;
    assert Term(x, 2) == 1_714;
    assert Term(x, 3) == -10;
    assert Term(x, 4) == 0;
    assert Sum(x, 1) == 9_814_800;
    assert Sum(x, 2) == 9_816_514;
    assert Sum(x, 4) == 9_816_504;
    Exponential.EarlyExit(x, 4, EXP_ITERATIONS);
  }

  lemma SeriesAtDip(y: int)
    requires y == 9_816_504
    ensures Series(y, LN_ITERATIONS) == 6_746_157
  {
    hide Series, Power;
    SeriesStart(9_816_504);
    TwoTurns(9_816_504, 1, 9_816_504, 9_636_375, 9_459_551, 0, 9_816_504, 4_818_187);
    TwoTurns(9_816_504, 3, 9_459_551, 9_285_972, 9_115_578, 4_998_317, 3_153_183, 2_321_493);
    TwoTurns(9_816_504, 5, 9_115_578, 8_948_310, 8_784_112, 5_830_007, 1_823_115, 1_491_385);
    TwoTurns(9_816_504, 7, 8_784_112, 8_622_927, 8_464_699, 6_161_737, 1_254_873, 1_077_865);
    TwoTurns(9_816_504, 9, 8_464_699, 8_309_375, 8_156_901, 6_338_745, 940_522, 830_937);
    TwoTurns(9_816_504, 11, 8_156_901, 8_007_225, 7_860_295, 6_448_330, 741_536, 667_268);
    TwoTurns(9_816_504, 13, 7_860_295, 7_716_061, 7_574_474, 6_522_598, 604_638, 551_147);
    TwoTurns(9_816_504, 15, 7_574_474, 7_435_485, 7_299_046, 6_576_089, 504_964, 464_717);
    TwoTurns(9_816_504, 17, 7_299_046, 7_165_111, 7_033_634, 6_616_336, 429_355, 398_061);
    TwoTurns(9_816_504, 19, 7_033_634, 6_904_569, 6_777_872, 6_647_630, 370_191, 345_228);
    TwoTurns(9_816_504, 21, 6_777_872, 6_653_500, 6_531_410, 6_672_593, 322_755, 302_431);
    TwoTurns(9_816_504, 23, 6_531_410, 6_411_561, 6_293_911, 6_692_917, 283_974, 267_148);
    TwoTurns(9_816_504, 25, 6_293_911, 6_178_420, 6_065_048, 6_709_743, 251_756, 237_631);
    TwoTurns(9_816_504, 27, 6_065_048, 5_953_756, 5_844_506, 6_723_868, 224_631, 212_634);
    TwoTurns(9_816_504, 29, 5_844_506, 5_737_261, 5_631_984, 6_735_865, 201_534, 191_242);
  }

  lemma ExpAtRecovery(x: int)
    requires x == -185_500
    ensures Exp(x) == Ok(9_816_210)
  {
    assert Term(x, 0) == SCALE;
    assert Term(x, 1) == -185_500;
    assert Term(x, 2) == 1_720;
    assert Term(x, 3) == -10;
    assert Term(x, 4) == 0;
    assert Sum(x, 1) == 9_814_500;
    assert Sum(x, 2) == 9_816_220;
    assert Sum(x, 4) == 9_816_210;
    Exponential.EarlyExit(x, 4, EXP_ITERATIONS);
  }

  lemma SeriesAtRecovery(y: int)
    requires y == 9_816_210
    ensures Series(y, LN_ITERATIONS) == 6_746_092
  {
    hide Series, Power;
    SeriesStart(9_816_210);
    TwoTurns(9_816_210, 1, 9_816_210, 9_635_797, 9_458_700, 0, 9_816_210, 4_817_898);
    TwoTurns(9_816_210, 3, 9_458_700, 9_284_858, 9_114_211, 4_998_312, 3_152_900, 2_321_214);
    TwoTurns(9_816_210, 5, 9_114_211, 8_946_700, 8_782_268, 5_829_998, 1_822_842, 1_491_116);
    TwoTurns(9_816_210, 7, 8_782_268, 8_620_858, 8_462_415, 6_161_724, 1_254_609, 1_077_607);
    TwoTurns(9_816_210, 9, 8_462_415, 8_306_884, 8_154_211, 6_338_726, 940_268, 830_688);
    TwoTurns(9_816_210, 11, 8_154_211, 8_004_344, 7_857_232, 6_448_306, 741_291, 667_028);
    TwoTurns(9_816_210, 13, 7_857_232, 7_712_823, 7_571_069, 6_522_569, 604_402, 550_915);
    TwoTurns(9_816_210, 15, 7_571_069, 7_431_920, 7_295_328, 6_576_056, 504_737, 464_495);
    TwoTurns(9_816_210, 17, 7_295_328, 7_161_247, 7_029_630, 6_616_298, 429_136, 397_847);
    TwoTurns(9_816_210, 19, 7_029_630, 6_900_432, 6_773_608, 6_647_587, 369_980, 345_021);
    TwoTurns(9_816_210, 21, 6_773_608, 6_649_115, 6_526_910, 6_672_546, 322_552, 302_232);
    TwoTurns(9_816_210, 23, 6_526_910, 6_406_951, 6_289_197, 6_692_866, 283_778, 266_956);
    TwoTurns(9_816_210, 25, 6_289_197, 6_173_607, 6_060_142, 6_709_688, 251_567, 237_446);
    TwoTurns(9_816_210, 27, 6_060_142, 5_948_762, 5_839_429, 6_723_809, 224_449, 212_455);
    TwoTurns(9_816_210, 29, 5_839_429, 5_732_106, 5_626_755, 6_735_803, 201_359, 191_070);
  }

  lemma HeightAtDip()
    ensures Height(185_200) == LN2_SCALED - 115 && Height(185_500) == LN2_SCALED + 120
  {
    hide Exp, Series;
    ExpAtDip(-185_200);
    SeriesAtDip(Exp(-185_200).value);
    ExpAtRecovery(-185_500);
    SeriesAtRecovery(Exp(-185_500).value);
    HeightNear(185_200);
    HeightNear(185_500);
  }

  lemma AheadWithinOne(u: int, v: int)
    requires 1 <= u <= v <= SCALE
    ensures Height(u) <= Height(v) + 103
  {
    hide Exp, Series;
    HeightNear(u);
    HeightNear(v);
    ExcessFollows(u, v);
  }

  // From balance the cost falls up to 1.852%, and has recovered from 1.855% on.
  lemma BalanceDip(x: int)
    requires 1 <= x
    ensures x <= 185_200 ==> Height(x) < Height(0)
    ensures 185_500 <= x ==> Height(0) < Height(x)
  {
    hide Height;
    HeightAtZero();
    HeightAtDip();
    HeightAbove(x);
    if x <= 185_200 {
      AheadWithinOne(x, 185_200);
    } else if 185_500 <= x <= SCALE {
      AheadWithinOne(185_500, x);
    }
  }

  // ---- The regimes ----

  // A purchase that moves the distance from x to y loses more than 1600 units only from balance by
  // less than 1.855%, from behind by more than 6 and at most 20, from ahead by more than 12.5 across
  // 20, or in a move of less than 1600 units between 8.8 and 20 ahead.
  predicate MayLose(x: int, y: int) {
    || (x == 0 && y < 185_500)
    || -CAP <= x < -6 * SCALE
    || 125_000_000 < x <= CAP < y
    || (EDGE <= x && y <= CAP && y - x < 1_600)
  }

  lemma LossRegimes(x: int, y: int)
    requires x <= y && Height(y) + 1_600 < Height(x)
    ensures MayLose(x, y)
  {
    hide Height;
    HeightAbove(y);
    if x < -CAP {
      HeightPastCap(x);
    } else if -6 * SCALE <= x < 0 {
      HeightNear(x);
      if y <= CAP {
        CatchUp(-x, y);
      }
    } else if x == 0 {
      HeightAtZero();
      if 185_500 <= y {
        BalanceDip(y);
      }
    } else if 0 < x <= CAP {
      if CAP < y {
        HeightPastCap(y);
        if x <= 125_000_000 {
          HeightUpToTwelve(x);
        }
      } else if !MayLose(x, y) {
        Ahead(x, y);
      }
    } else if CAP < x {
      HeightPastCap(x);
    }
  }

  ghost predicate LosesAt(x: int, y: int) {
    x + 1_600 <= y && Height(y) + 1_600 < Height(x)
  }

  // Outside two strips, some purchase of at least 1600 units loses more than rounding if and only if
  // it starts at balance, behind by 6.5 to 20, or ahead by 12.7 to 20.
  lemma LossExactly(x: int)
    requires !(-65_000_000 < x < -60_000_000) && !(125_000_000 < x < 127_000_000)
    ensures (exists y :: LosesAt(x, y)) <==>
      x == 0 || -CAP <= x <= -65_000_000 || 127_000_000 <= x <= CAP
  {
    hide Height;
    if x == 0 {
      HeightAtZero();
      HeightNear(2_000);
      assert LosesAt(x, 2_000);
    } else if -CAP <= x <= -65_000_000 {
      HeightFarBehind(x);
      HeightAtLowest(-62_000_000);
      assert LosesAt(x, -62_000_000);
    } else if 127_000_000 <= x <= CAP {
      HeightFromTwelve(x);
      HeightPastCap(CAP + 1_600);
      assert LosesAt(x, CAP + 1_600);
    } else {
      forall y
        ensures !LosesAt(x, y)
      {
        if LosesAt(x, y) {
          LossRegimes(x, y);
        }
      }
    }
  }

  // ---- Pairs of distances for which the height is known to fall, or not to ----

  lemma FarBehindFalls(u: int, v: int)
    requires EDGE <= u && u + 100_000 <= v <= CAP
    ensures Height(-u) + 50 <= Height(-v)
  {
    hide Exp, Ln;
    ExpGrows(u, v);
    LnGains(SCALE + Exp(-u).value, SCALE + Exp(-v).value);
  }

  // 3900 units more below 0.9546 raise the series by more than its rounding.
  lemma NearGain(y: int, x: int)
    requires 0 <= y && y + 3_900 <= x <= 9_546_000
    ensures Series(y, LN_ITERATIONS) + 110 <= Series(x, LN_ITERATIONS)
  {
    hide Series;
    SeriesGains(y, x, 15, 908_000);
    MulLe(3_900, x - y, 908_000);
  }

  lemma NearBehindFalls(u: int, v: int)
    requires 65_000_000 <= u && u + 3_000_000 <= v <= EDGE
    ensures Height(-u) + 110 <= Height(-v)
  {
    hide Height, Exp, Series;
    HeightNear(-u);
    HeightNear(-v);
    ExpRisesNear(u, v);
    NearGain(Exp(-u).value, Exp(-v).value);
  }

  lemma HeightBehind(x: int)
    requires x <= 0
    ensures Exp(x).Ok? && Ln(SCALE + Exp(x).value).Ok? && Height(x) == Ln(SCALE + Exp(x).value).value
  {
    hide Exp, Ln;
    ExpPositive(x);
    LnBounds(SCALE + Exp(x).value);
  }

  lemma AcrossEdgeFalls(u: int, m: int, v: int)
    requires 65_000_000 <= u && u + 3_000_000 <= m == EDGE <= v <= CAP
    ensures Height(-u) + 50 <= Height(-v)
  {
    hide Height, Exp, Ln, Series;
    HeightNear(-u);
    ExpRisesNear(u, m);
    ExpPastEdge(m, v);
    var y, x := Exp(-u).value, Exp(-m).value - 634;
    NearGain(y, x);
    LnFrom(SCALE + Exp(-v).value, x);
    HeightBehind(-v);
  }

  lemma HeightAtFive(x: int)
    requires x == -5 * SCALE
    ensures Height(x) <= 67_800
  {
    hide Series, Exp;
    HeightNear(x);
    ExpAtFive(-x);
    SeriesBounds(Exp(x).value);
  }

  // From 5 to 6 behind the height is lower than from 7 behind on.
  lemma LowFalls(x: int, y: int)
    requires -CAP <= x <= -7 * SCALE && -6 * SCALE <= y <= -5 * SCALE
    ensures Height(y) + 20_000 <= Height(x)
  {
    hide Height;
    HeightFarBehind(x);
    HeightAtFive(-5 * SCALE);
    Behind(5 * SCALE, -y);
  }

  // Behind by 8.84 to 20, catching up to within 8.8 makes the height fall.
  lemma FarFalls(x: int, y: int)
    requires -CAP <= x <= -88_400_000 && -EDGE <= y <= 0
    ensures Height(y) + 75_000 <= Height(x)
  {
    hide Height, Inside;
    InsideHeight(x, 0);
    InsideHeight(y, 0);
    CostLaws.InsideTooLarge(x, 0);
    CostLaws.InsideAtMost(y, 0);
  }

  // Ahead by 12.7 to 20, crossing 20 in a move of at most 7.33 does, and ahead by 13 of at most 7.5.
  lemma PastCapFalls(x: int, y: int)
    requires 127_000_000 <= x <= CAP < y
    ensures y <= x + 73_300_000 ==> Height(y) + 114_000 <= Height(x)
    ensures 13 * SCALE <= x && y <= x + 75_000_000 ==> Height(y) + 1_246_000 <= Height(x)
  {
    hide Height;
    HeightFromTwelve(x);
    HeightPastCap(y);
  }

  // A move from x to y lowers the height: from balance by up to 1.852%; from behind by 8.84 to 20, by
  // 1% or more, to anywhere up to balance; from behind by 6.5 to 8.84, by 0.34 or more, to no less
  // than 6.5; from behind by 7 to 20 to between 6 and 5; from ahead by 12.7 to 20, by up to 7.33,
  // across 20.
  predicate Falls(x: int, y: int) {
    || (x == 0 && 1 <= y <= 185_200)
    || (-CAP <= x <= -88_400_000 && x + 100_000 <= y <= 0)
    || (-88_400_000 <= x && x + 3_400_000 <= y <= -65_000_000)
    || (-CAP <= x <= -7 * SCALE && -6 * SCALE <= y <= -5 * SCALE)
    || (127_000_000 <= x <= CAP < y <= x + 73_300_000)
  }

  lemma FallsLoses(x: int, y: int)
    requires Falls(x, y)
    ensures Height(y) < Height(x)
  {
    hide Height;
    if x == 0 {
      BalanceDip(y);
    } else if 0 < x {
      PastCapFalls(x, y);
    } else if x <= -7 * SCALE && -6 * SCALE <= y <= -5 * SCALE {
      LowFalls(x, y);
    } else if x <= -88_400_000 && -EDGE <= y {
      FarFalls(x, y);
    } else if y <= -EDGE && x + 100_000 <= y {
      FarBehindFalls(-y, -x);
    } else if x < -EDGE {
      AcrossEdgeFalls(-y, EDGE, -x);
    } else {
      NearBehindFalls(-y, -x);
    }
  }

  // A move from x to y does not lower the height, not even by rounding.
  predicate Holds(x: int, y: int) {
    || x == y
    || (x < -CAP && x <= y)
    || (-6 * SCALE <= x <= -1_388 && (y == 0 || 694 <= y))
    || (x == 0 && 185_500 <= y)
    || (SCALE <= x && x + 2_400 <= y <= CAP)
    || (0 < x <= 125_000_000 && CAP < y)
    || (CAP < x <= y)
  }

  lemma HoldsKeeps(x: int, y: int)
    requires Holds(x, y)
    ensures Height(x) <= Height(y)
  {
    hide Height;
    HeightAbove(y);
    if x < -CAP {
      HeightPastCap(x);
    } else if -6 * SCALE <= x < 0 && x != y {
      HeightNear(x);
      if y == 0 {
        HeightAtZero();
      } else if y <= -x {
        Behind(y, -x);
        Mirrored(y);
      } else if y <= CAP {
        Mirrored(-x);
        Ahead(-x, y);
      }
    } else if x == 0 && 185_500 <= y {
      BalanceDip(y);
    } else if 0 < x != y {
      if CAP < y && x <= 125_000_000 {
        HeightUpToTwelve(x);
      } else if CAP < x {
        HeightPastCap(x);
        HeightPastCap(y);
      } else {
        AheadFrom(x, y);
      }
    }
  }

  // Within 6 of balance, off it, the height rises and at most as fast as the distance, up to rounding.
  lemma Follows(x: int, y: int)
    requires -6 * SCALE <= x <= y <= 6 * SCALE && x != 0 && y != 0
    ensures -1_388 <= Height(y) - Height(x) <= y - x + 1_388
  {
    hide Height;
    if y < 0 {
      Behind(-y, -x);
      Mirrored(-x);
      Mirrored(-y);
      AheadNear(-y, -x);
    } else if 0 < x {
      AheadNear(x, y);
      Mirrored(x);
      Mirrored(y);
      Behind(x, y);
    } else {
      Mirrored(-x);
      Mirrored(y);
      if -x <= y {
        AheadNear(-x, y);
        Behind(-x, y);
      } else {
        AheadNear(y, -x);
        Behind(y, -x);
      }
    }
  }

  // ---- The same for the cost ----

  // How far the ratio of q is ahead of that of the other quantity n.
  function Lead(q: int, n: int, b: int): int
    requires 0 <= q && 0 <= n && 0 < b
  {
    Ratio(q, b) - Ratio(n, b)
  }

  lemma PotentialHeight(q: int, n: int, b: int)
    requires 0 <= q && 0 <= n && 0 < b
    ensures Potential(q, n, b) == b * (Ratio(n, b) + Height(Lead(q, n, b))) / SCALE
  {
    hide Inside, Height, Ratio;
    InsideHeight(Ratio(q, b), Ratio(n, b));
  }

  // A lower height lowers the cost.
  lemma PotentialFalls(q: int, q': int, n: int, b: int, depth: nat)
    requires 0 <= q && 0 <= q' && 0 <= n && 0 < b && Height(Lead(q', n, b)) + depth <= Height(Lead(q, n, b))
    ensures Potential(q', n, b) <= Potential(q, n, b) - depth * b / SCALE
  {
    hide Height, Ratio, Potential;
    PotentialHeight(q, n, b);
    PotentialHeight(q', n, b);
    var r := Ratio(n, b);
    CostLaws.DipArith(b, r + Height(Lead(q, n, b)), r + Height(Lead(q', n, b)), depth);
  }

  lemma HoldArith(b: int, high: int, low: int, slack: nat)
    requires 0 < b && high <= low + slack
    ensures -(slack * b / SCALE) - (if slack == 0 then 0 else 1) <= b * low / SCALE - b * high / SCALE
  {
    MulLe(high - slack, low, b);
    assert (high - slack) * b == b * high - slack * b;
    DivLe(b * high - slack * b, b * low, SCALE);
  }

  // A cost that falls by more than the slack comes from a lower height.
  lemma PotentialHolds(q: int, q': int, n: int, b: int, slack: nat)
    requires 0 <= q && 0 <= q' && 0 <= n && 0 < b && Height(Lead(q, n, b)) <= Height(Lead(q', n, b)) + slack
    ensures -(slack * b / SCALE) - (if slack == 0 then 0 else 1) <= Potential(q', n, b) - Potential(q, n, b)
  {
    hide Height, Ratio, Potential;
    PotentialHeight(q, n, b);
    PotentialHeight(q', n, b);
    var r := Ratio(n, b);
    HoldArith(b, r + Height(Lead(q, n, b)), r + Height(Lead(q', n, b)), slack);
  }

  // A purchase with a computed cost below zero by more than rounding is in one of the regimes.
  lemma LossyPurchase(q: int, n: int, amount: int, b: int)
    requires 0 <= q && 0 <= n && 0 <= amount && 0 < b
    requires Potential(q + amount, n, b) - Potential(q, n, b) < -(1_600 * b / SCALE) - 1
    ensures MayLose(Lead(q, n, b), Lead(q + amount, n, b))
  {
    hide Height, Potential, MayLose;
    CostLaws.RatioLe(q, q + amount, b);
    if Height(Lead(q, n, b)) <= Height(Lead(q + amount, n, b)) + 1_600 {
      PotentialHolds(q, q + amount, n, b, 1_600);
    } else {
      LossRegimes(Lead(q, n, b), Lead(q + amount, n, b));
    }
  }

  // From at most 6 behind to 8.8 ahead, and for purchases between 1e-7 b and 1.6% of b, the computed
  // cost is below zero by more than rounding if and only if the purchase starts at equal ratios.
  lemma DipOnlyAtBalance(q: int, n: int, amount: int, b: int)
    requires 0 <= q && 0 <= n && SCALE <= b <= amount * SCALE && 1_000 * amount <= 16 * b
    requires -6 * SCALE <= Lead(q, n, b) < EDGE
    ensures Potential(q + amount, n, b) - Potential(q, n, b) < -(1_600 * b / SCALE) - 1 <==> Lead(q, n, b) == 0
  {
    hide Potential;
    CostLaws.DipRatios(q, amount, b);
    if Lead(q, n, b) == 0 {
      CostLaws.PotentialDips(q, n, amount, b);
    } else if Potential(q + amount, n, b) - Potential(q, n, b) < -(1_600 * b / SCALE) - 1 {
      LossyPurchase(q, n, amount, b);
    }
  }

  lemma RiseAtMost(b: int, low: int, high: int, x: int, amount: int)
    requires 0 < b && high <= low + x && x * b <= amount * SCALE + b
    ensures b * high / SCALE - b * low / SCALE <= amount + b / SCALE + 1
  {
    MulLe(high, low + x, b);
    assert (low + x) * b == b * low + x * b;
    DivLe(b * high, b * low + amount * SCALE + b, SCALE);
  }

  // From balance to at most 8.8 ahead the cost rises at most as fast as the quantity.
  lemma BalanceCostAtMost(q: int, n: int, amount: int, b: int)
    requires 0 <= q && 0 <= n && 0 <= amount && 0 < b && Lead(q, n, b) == 0 && Lead(q + amount, n, b) <= EDGE
    ensures Potential(q + amount, n, b) - Potential(q, n, b) <= amount + b / SCALE + 1
  {
    hide Height, Potential;
    var r, x := Ratio(n, b), Lead(q + amount, n, b);
    PotentialHeight(q, n, b);
    PotentialHeight(q + amount, n, b);
    RatioStep(q, amount, b);
    HeightAtZero();
    if x != 0 {
      HeightNear(x);
    }
    RiseAtMost(b, r + LN2_SCALED, r + Height(x), x, amount);
  }

  lemma FollowArith(b: int, low: int, high: int, d: int, amount: int)
    requires 0 < b && high <= low + d + 1_388 && d * b <= amount * SCALE + b
    ensures b * high / SCALE - b * low / SCALE <= amount + 1_389 * b / SCALE + 1
  {
    MulLe(high, low + d + 1_388, b);
    assert (low + d + 1_388) * b == b * low + d * b + 1_388 * b;
    DivLe(b * high, b * low + amount * SCALE + 1_389 * b, SCALE);
  }

  // Within 6 of balance, off it, the cost rises and at most as fast as the quantity, up to rounding.
  lemma CostFollows(q: int, n: int, amount: int, b: int)
    requires 0 <= q && 0 <= n && 0 <= amount && 0 < b
    requires -6 * SCALE <= Lead(q, n, b) && Lead(q + amount, n, b) <= 6 * SCALE
    requires Lead(q, n, b) != 0 && Lead(q + amount, n, b) != 0
    ensures var cost := Potential(q + amount, n, b) - Potential(q, n, b);
      -(1_388 * b / SCALE) - 1 <= cost <= amount + 1_389 * b / SCALE + 1
  {
    hide Height, Potential;
    var x, y, r := Lead(q, n, b), Lead(q + amount, n, b), Ratio(n, b);
    RatioStep(q, amount, b);
    Follows(x, y);
    PotentialHolds(q, q + amount, n, b, 1_388);
    PotentialHeight(q, n, b);
    PotentialHeight(q + amount, n, b);
    FollowArith(b, r + Height(x), r + Height(y), y - x, amount);
  }
}
