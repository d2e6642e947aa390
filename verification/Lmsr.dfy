/** The pricing formulas of `lmsr.rs`: cost, trade quotes, price and initial liquidity. */
module Lmsr {
  import opened Fixed
  import opened Exponential
  import opened Logarithm

  const YES: nat := 0
  const NO: nat := 1

  // ln(e^a + e^c) = max + ln(1 + e^(min - max)), times b.
  function CostOfRatios(a: int, c: int, b: int): Result<int> {
    var diff :- CheckedSub(Min(a, c), Max(a, c));
    var expDiff :- Exp(diff);
    var sum :- CheckedAdd(SCALE, expDiff);
    var lnSum :- Ln(sum);
    var inside :- CheckedAdd(Max(a, c), lnSum);
    var product :- CheckedMul(b, inside);
    CheckedDiv(product, SCALE)
  }

  function Cost(qYes: int, qNo: int, b: int): Result<int> {
    if b <= 0 then Err(InvalidLiquidity)
    else
      var yesScaled :- CheckedMul(qYes, SCALE);
      var yesOverB :- CheckedDiv(yesScaled, b);
      var noScaled :- CheckedMul(qNo, SCALE);
      var noOverB :- CheckedDiv(noScaled, b);
      CostOfRatios(yesOverB, noOverB, b)
  }

  function CalculateBuyCost(qYes: int, qNo: int, amount: int, outcome: nat, b: int): Result<int> {
    if amount <= 0 then Err(InvalidAmount)
    else
      var before :- Cost(qYes, qNo, b);
      if outcome > NO then Err(InvalidOutcome)
      else
        var sold :- CheckedAdd(if outcome == YES then qYes else qNo, amount);
        var after :- if outcome == YES then Cost(sold, qNo, b) else Cost(qYes, sold, b);
        CheckedSub(after, before)
  }

  function CalculateSellReturn(qYes: int, qNo: int, amount: int, outcome: nat, b: int): Result<int> {
    if amount <= 0 then Err(InvalidAmount)
    else
      var before :- Cost(qYes, qNo, b);
      if outcome > NO then Err(InvalidOutcome)
      else if (if outcome == YES then qYes else qNo) < amount then Err(InsufficientBalance)
      else
        var sold :- CheckedSub(if outcome == YES then qYes else qNo, amount);
        var after :- if outcome == YES then Cost(sold, qNo, b) else Cost(qYes, sold, b);
        CheckedSub(before, after)
  }

  function CalculatePrice(qYes: int, qNo: int, outcome: nat, b: int): Result<int> {
    if b <= 0 then Err(InvalidLiquidity)
    else
      var yesScaled :- CheckedMul(qYes, SCALE);
      var yesOverB :- CheckedDiv(yesScaled, b);
      var noScaled :- CheckedMul(qNo, SCALE);
      var noOverB :- CheckedDiv(noScaled, b);
      var expYes :- Exp(yesOverB);
      var expNo :- Exp(noOverB);
      var sum :- CheckedAdd(expYes, expNo);
      if sum == 0 then Err(Overflow)
      else if outcome > NO then Err(InvalidOutcome)
      else
        var share :- CheckedMul(if outcome == YES then expYes else expNo, SCALE);
        CheckedDiv(share, sum)
  }

  function InitialLiquidity(b: int): Result<int> {
    if b <= 0 then Err(InvalidLiquidity)
    else
      var product :- CheckedMul(b, LN2_SCALED);
      CheckedDiv(product, SCALE)
  }

  // ---- The cost function on the quantities a market can hold ----

  function Ratio(q: int, b: int): (r: int)
    requires 0 <= q && 0 < b
    ensures 0 <= r
  {
    DivAtLeast(q * SCALE, b, 0);
    q * SCALE / b
  }

  lemma RatioFloor(q: int, b: int)
    requires 0 <= q && 0 < b
    ensures Ratio(q, b) * b <= q * SCALE < Ratio(q, b) * b + b
    ensures Ratio(q, b) <= q * SCALE
  {
    MulLe(1, b, Ratio(q, b));
  }

  // The value of ln(e^a + e^c) that `CostOfRatios` multiplies by b.
  function Inside(a: int, c: int): int {
    var diff := Min(a, c) - Max(a, c);
    ExpNonNegative(diff);
    var sum := SCALE + Exp(diff).value;
    Max(a, c) + Ln(sum).value
  }

  // 82 halvings take every exponential the engine can produce below 2 * SCALE.
  const LN_CAP: int := 82 * LN2_SCALED + SCALE

  lemma LnCap(sum: int)
    requires SCALE <= sum <= SCALE + 21 * TERM_CAP
    ensures Ln(sum).Ok? && 0 <= Ln(sum).value <= LN_CAP
  {
    hide Pow2, Normalise, Ln;
    SmallPowers();
    Pow2Join(2, 4, 8, 0x100);
    Pow2Join(10, 0x400, 10, 0x400);
    Pow2Join(20, 0x10_0000, 20, 0x10_0000);
    Pow2Join(40, 0x100_0000_0000, 40, 0x100_0000_0000);
    Pow2Join(2, 4, 80, 0x1_0000_0000_0000_0000_0000);
    ExponentCap(sum, 82);
    LnBounds(sum);
    NormaliseRange(sum);
    MulLe(Normalise(sum).exponent, 82, LN2_SCALED);
  }

  lemma InsideBounds(a: int, c: int)
    ensures Exp(Min(a, c) - Max(a, c)).Ok?
    ensures Max(a, c) <= Inside(a, c) <= Max(a, c) + LN_CAP
    ensures Exp(Min(a, c) - Max(a, c)).value > 0 ==> Max(a, c) < Inside(a, c)
  {
    hide Exp, Ln, Normalise;
    var diff := Min(a, c) - Max(a, c);
    ExpNonNegative(diff);
    var sum := SCALE + Exp(diff).value;
    LnCap(sum);
    LnBounds(sum);
  }

  predicate CostFits(y: int, n: int, b: int)
    requires 0 <= y && 0 <= n && 0 < b
  {
    y * SCALE <= I128_MAX && n * SCALE <= I128_MAX && b * Inside(Ratio(y, b), Ratio(n, b)) <= I128_MAX
  }

  lemma CostOfRatiosValue(a: int, c: int, b: int)
    requires 0 <= a <= I128_MAX && 0 <= c <= I128_MAX && 0 < b
    ensures var product := b * Inside(a, c);
      CostOfRatios(a, c, b) == if product <= I128_MAX then Ok(product / SCALE) else Err(Overflow)
  {
    hide Exp, Ln;
    var diff := Min(a, c) - Max(a, c);
    ExpNonNegative(diff);
    LnCap(SCALE + Exp(diff).value);
    InsideBounds(a, c);
    var inside := Inside(a, c);
    MulLe(1, b, inside);
    DivAtLeast(b * inside, SCALE, 0);
  }

  // b * ln(e^(y/b) + e^(n/b)), as far as fixed point can tell.
  function Potential(y: int, n: int, b: int): int
    requires 0 <= y && 0 <= n && 0 < b
  {
    b * Inside(Ratio(y, b), Ratio(n, b)) / SCALE
  }

  // On non-negative quantities, exactly when the cost is defined and what it is.
  lemma CostValue(y: int, n: int, b: int)
    requires 0 <= y && 0 <= n
    ensures Cost(y, n, b) ==
      if b <= 0 then Err(InvalidLiquidity)
      else if CostFits(y, n, b) then Ok(Potential(y, n, b)) else Err(Overflow)
  {
    hide Exp, Ln, Inside, CostOfRatios;
    if 0 < b && y * SCALE <= I128_MAX && n * SCALE <= I128_MAX {
      var a, c := Ratio(y, b), Ratio(n, b);
      RatioFloor(y, b);
      RatioFloor(n, b);
      CostOfRatiosValue(a, c, b);
    }
  }
}
