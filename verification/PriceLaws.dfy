/** The quoted probability of an outcome: its range, the sum of the two, and how trades move it. */
module PriceLaws {
  import opened Fixed
  import opened Exponential
  import opened Lmsr
  import opened CostLaws

  predicate PriceFits(y: int, n: int, b: int)
    requires 0 <= y && 0 <= n && 0 < b
  {
    y * SCALE <= I128_MAX && n * SCALE <= I128_MAX && Ratio(y, b) <= 20 * SCALE && Ratio(n, b) <= 20 * SCALE
  }

  function Weight(q: int, b: int): int
    requires 0 <= q && 0 < b && Ratio(q, b) <= 20 * SCALE
  {
    ExpNonNegative(Ratio(q, b));
    Exp(Ratio(q, b)).value
  }

  lemma WeightBounds(q: int, b: int)
    requires 0 <= q && 0 < b && Ratio(q, b) <= 20 * SCALE
    ensures Exp(Ratio(q, b)) == Ok(Weight(q, b)) && SCALE <= Weight(q, b) <= 21 * TERM_CAP
  {
    hide Exp;
    ExpNonNegative(Ratio(q, b));
    ExpMonotone(Ratio(q, b), Ratio(q, b));
  }

  // The share of weight a in a + c, in SCALE units.
  function Share(a: int, c: int): int
    requires 0 < a && 0 <= c
  {
    a * SCALE / (a + c)
  }

  lemma PriceValue(y: int, n: int, outcome: nat, b: int)
    requires 0 <= y && 0 <= n
    ensures 0 < b && PriceFits(y, n, b) ==> 0 < Weight(y, b) && 0 < Weight(n, b)
    ensures CalculatePrice(y, n, outcome, b) ==
      if b <= 0 then Err(InvalidLiquidity)
      else if !PriceFits(y, n, b) then Err(Overflow)
      else if outcome > NO then Err(InvalidOutcome)
      else Ok(if outcome == YES then Share(Weight(y, b), Weight(n, b)) else Share(Weight(n, b), Weight(y, b)))
  {
    hide Weight;
    if 0 < b && y * SCALE <= I128_MAX && n * SCALE <= I128_MAX {
      RatioFloor(y, b);
      RatioFloor(n, b);
      if PriceFits(y, n, b) {
        hide Exp;
        WeightBounds(y, b);
        WeightBounds(n, b);
      }
    }
  }

  lemma ShareRange(a: int, c: int)
    requires 0 < a && 0 < c
    ensures 0 <= Share(a, c) <= SCALE
    ensures SCALE - 1 <= Share(a, c) + Share(c, a) <= SCALE
  {
    var p, q, s := Share(a, c), Share(c, a), a + c;
    MulLe(0, a, SCALE);
    MulLe(a, s, SCALE);
    DivAtLeast(a * SCALE, s, 0);
    DivAtMost(a * SCALE, s, SCALE);
    assert p * s <= a * SCALE < p * s + s;
    assert q * s <= c * SCALE < q * s + s;
    assert (p + q) * s == p * s + q * s;
    assert (p + q + 2) * s == p * s + q * s + 2 * s;
    assert a * SCALE + c * SCALE == s * SCALE;
    if p + q > SCALE {
      MulLe(SCALE + 1, p + q, s);
    }
    if p + q + 2 <= SCALE {
      MulLe(p + q + 2, SCALE, s);
    }
  }

  lemma ShareMonotone(a: int, a': int, c: int)
    requires 0 < a <= a' && 0 < c
    ensures Share(a, c) <= Share(a', c) && Share(c, a') <= Share(c, a)
  {
    var p := Share(a, c);
    ShareRange(a, c);
    assert p * (a + c) <= a * SCALE;
    MulLe(p, SCALE, a' - a);
    assert p * (a' + c) == p * (a + c) + p * (a' - a);
    DivAtLeast(a' * SCALE, a' + c, p);
    var q := Share(c, a');
    ShareRange(c, a');
    assert q * (c + a') <= c * SCALE;
    MulLe(c + a, c + a', q);
    DivAtLeast(c * SCALE, c + a, q);
  }

  // Prices lie in [0, SCALE], and the two add up to SCALE or one unit less.
  lemma PricesSumToOne(y: int, n: int, b: int)
    requires 0 <= y && 0 <= n && CalculatePrice(y, n, YES, b).Ok?
    ensures CalculatePrice(y, n, NO, b).Ok?
    ensures var p, q := CalculatePrice(y, n, YES, b).value, CalculatePrice(y, n, NO, b).value;
      0 <= p <= SCALE && 0 <= q <= SCALE && SCALE - 1 <= p + q <= SCALE
  {
    assert 0 < b;
    hide Weight, CalculatePrice, Share;
    PriceValue(y, n, YES, b);
    PriceValue(y, n, NO, b);
    ShareRange(Weight(y, b), Weight(n, b));
    ShareRange(Weight(n, b), Weight(y, b));
  }

  lemma PriceRange(y: int, n: int, outcome: nat, b: int)
    requires 0 <= y && 0 <= n && CalculatePrice(y, n, outcome, b).Ok?
    ensures 0 <= CalculatePrice(y, n, outcome, b).value <= SCALE
  {
    assert 0 < b && outcome <= NO;
    hide Weight, CalculatePrice, Share;
    PriceValue(y, n, outcome, b);
    ShareRange(Weight(y, b), Weight(n, b));
    ShareRange(Weight(n, b), Weight(y, b));
  }

  // A larger quantity of an outcome never lowers its price or raises the other one's.
  lemma PriceFollowsQuantity(y: int, y': int, n: int, b: int)
    requires 0 <= y <= y' && 0 <= n
    requires CalculatePrice(y, n, YES, b).Ok? && CalculatePrice(y', n, YES, b).Ok?
    ensures CalculatePrice(y, n, YES, b).value <= CalculatePrice(y', n, YES, b).value
    ensures CalculatePrice(y', n, NO, b).Ok? && CalculatePrice(y, n, NO, b).Ok?
    ensures CalculatePrice(y', n, NO, b).value <= CalculatePrice(y, n, NO, b).value
  {
    assert 0 < b;
    hide CalculatePrice, Share, Exp;
    PriceValue(y, n, YES, b);
    PriceValue(y, n, NO, b);
    PriceValue(y', n, YES, b);
    PriceValue(y', n, NO, b);
    RatioLe(y, y', b);
    ExpMonotone(Ratio(y, b), Ratio(y', b));
    ShareMonotone(Weight(y, b), Weight(y', b), Weight(n, b));
  }

  lemma PriceSymmetric(y: int, n: int, b: int)
    requires 0 <= y && 0 <= n
    ensures CalculatePrice(y, n, YES, b) == CalculatePrice(n, y, NO, b)
  {
    if 0 < b {
      hide CalculatePrice, Share, Exp;
      PriceValue(y, n, YES, b);
      PriceValue(n, y, NO, b);
    }
  }
}
