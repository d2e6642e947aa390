/** `exp_scaled`: a truncating 20-term Taylor loop with an early exit.

    `Sum(x, 20)` is the plain sum of the rounded terms. The loop of `ExpScaled`, with its checked
    arithmetic and its early exit, is proved to compute it; everything else is proved about it. */
module Exponential {
  import opened Fixed
  import Taylor

  const EXP_ITERATIONS: nat := 20

  // term_n = term_{n-1} * x / (n * SCALE), rounded towards zero.
  function Term(x: int, n: nat): int {
    if n == 0 then SCALE else TruncDiv(Term(x, n - 1) * x, n * SCALE)
  }

  function Sum(x: int, n: nat): int {
    if n == 0 then SCALE else Sum(x, n - 1) + Term(x, n)
  }

  function Exp(x: int): Result<int> {
    if x < -20 * SCALE then Ok(1)
    else if x > 20 * SCALE then Err(Overflow)
    else Ok(Max(Sum(x, EXP_ITERATIONS), 0))
  }

  // ---- No intermediate value leaves the 128-bit range ----

  // SCALE * 20^10 * 2^10: terms grow by at most 20 for ten steps and by at most 2 afterwards.
  const TERM_CAP: int := 1024 * 10_240_000_000_000 * SCALE

  function Cap(n: nat): nat {
    if n == 0 then SCALE else if n <= 10 then 20 * Cap(n - 1) else 2 * Cap(n - 1)
  }

  lemma CapProduct(c: int, f: int, n: int)
    requires 20 * c <= f * n * c
    ensures c * (20 * SCALE) <= (f * c) * (n * SCALE)
  {
    assert (f * c) * (n * SCALE) == (f * n * c) * SCALE;
  }

  lemma TermGrowth(a: int, x: int, n: int, c: int, f: int)
    requires n >= 1 && Abs(x) <= 20 * SCALE && Abs(a) <= c && f >= 1 && 20 <= f * n
    ensures Abs(TruncDiv(a * x, n * SCALE)) <= f * c
  {
    TruncDivAbs(a * x, n * SCALE);
    AbsMul(a, x);
    MulLe(Abs(a), c, Abs(x));
    MulLe(Abs(x), 20 * SCALE, c);
    MulLe(20, f * n, c);
    CapProduct(c, f, n);
    DivAtMost(Abs(a * x), n * SCALE, f * c);
  }

  lemma {:induction false} CapLe(n: nat, m: nat)
    requires n <= m
    ensures Cap(n) <= Cap(m)
  {
    if n < m {
      CapLe(n, m - 1);
    }
  }

  lemma CapTop()
    ensures Cap(10) == 10_240_000_000_000 * SCALE
  {
    assert Cap(5) == 3_200_000 * SCALE;
  }

  lemma CapLast()
    ensures Cap(20) == TERM_CAP
  {
    CapTop();
    assert Cap(15) == 32 * Cap(10);
  }

  lemma {:induction false} TermCap(x: int, n: nat)
    requires -20 * SCALE <= x <= 20 * SCALE && n <= EXP_ITERATIONS
    ensures Abs(Term(x, n)) <= Cap(n) <= TERM_CAP
  {
    CapLe(n, 20);
    CapLast();
    if n > 0 {
      TermCap(x, n - 1);
      TermGrowth(Term(x, n - 1), x, n, Cap(n - 1), if n <= 10 then 20 else 2);
    }
  }

  lemma {:induction false} SumCap(x: int, n: nat)
    requires -20 * SCALE <= x <= 20 * SCALE && n <= EXP_ITERATIONS
    ensures Abs(Sum(x, n)) <= 21 * TERM_CAP
    ensures Abs(Sum(x, n)) <= TERM_CAP + n * TERM_CAP
  {
    TermCap(x, n);
    if n > 0 {
      SumCap(x, n - 1);
      assert n * TERM_CAP == (n - 1) * TERM_CAP + TERM_CAP;
    }
    MulLe(n, 20, TERM_CAP);
  }

  lemma StepInRange(x: int, n: nat)
    requires -20 * SCALE <= x <= 20 * SCALE && 1 <= n <= EXP_ITERATIONS
    ensures InRange(Term(x, n - 1) * x) && InRange(Sum(x, n))
  {
    TermCap(x, n - 1);
    SumCap(x, n);
    AbsMul(Term(x, n - 1), x);
    MulLe(Abs(Term(x, n - 1)), TERM_CAP, Abs(x));
    MulLe(Abs(x), 20 * SCALE, TERM_CAP);
  }

  // Once a term rounds to zero, so do all later ones: the early exit loses nothing.
  lemma {:induction false} EarlyExit(x: int, n: nat, k: nat)
    requires n <= k && Term(x, n) == 0
    ensures Term(x, k) == 0 && Sum(x, k) == Sum(x, n)
  {
    if n < k {
      EarlyExit(x, n, k - 1);
    }
  }

  // The source's loop. Its checked operations are written with `Extract`, whose precondition is
  // the proof that the `Overflow` exit of that operation is never taken.
  method ExpScaled(x: int) returns (r: Result<int>)
    ensures r == Exp(x)
    ensures r.Ok? <==> x <= 20 * SCALE
  {
    if x < -20 * SCALE {
      return Ok(1);
    }
    if x > 20 * SCALE {
      return Err(Overflow);
    }
    var result, term := SCALE, SCALE;
    var n := 1;
    while n <= EXP_ITERATIONS
      invariant 1 <= n <= EXP_ITERATIONS + 1
      invariant term == Term(x, n - 1) && result == Sum(x, n - 1)
    {
      StepInRange(x, n);
      term := CheckedMul(term, x).Extract();
      term := CheckedDiv(term, n * SCALE).Extract();
      result := CheckedAdd(result, term).Extract();
      if Abs(term) < 1 {
        EarlyExit(x, n, EXP_ITERATIONS);
        break;
      }
      n := n + 1;
    }
    return Ok(Max(result, 0));
  }

  // ---- Monotone on the non-negative side, despite truncation and early exit ----

  lemma {:induction false} TermMonotone(x: int, x': int, n: nat)
    requires 0 <= x <= x'
    ensures 0 <= Term(x, n) <= Term(x', n)
  {
    if n > 0 {
      TermMonotone(x, x', n - 1);
      MulLe(Term(x, n - 1), Term(x', n - 1), x);
      MulLe(x, x', Term(x', n - 1));
      MulLe(0, Term(x, n - 1), x);
      DivLe(Term(x, n - 1) * x, Term(x', n - 1) * x', n * SCALE);
      DivAtLeast(Term(x, n - 1) * x, n * SCALE, 0);
    }
  }

  lemma {:induction false} SumMonotone(x: int, x': int, n: nat)
    requires 0 <= x <= x'
    ensures SCALE <= Sum(x, n) <= Sum(x', n)
  {
    if n > 0 {
      SumMonotone(x, x', n - 1);
      TermMonotone(x, x', n);
    }
  }

  lemma ExpMonotone(x: int, x': int)
    requires 0 <= x <= x' <= 20 * SCALE
    ensures Exp(x).Ok? && Exp(x').Ok?
    ensures SCALE <= Exp(x).value <= Exp(x').value
  {
    SumMonotone(x, x', EXP_ITERATIONS);
  }

  lemma ExpOfZero()
    ensures Exp(0) == Ok(SCALE)
  {
    EarlyExit(0, 1, EXP_ITERATIONS);
  }

  lemma ExpNonNegative(x: int)
    requires x <= 20 * SCALE
    ensures Exp(x).Ok? && 0 <= Exp(x).value <= 21 * TERM_CAP
  {
    if x >= -20 * SCALE {
      SumCap(x, EXP_ITERATIONS);
    }
  }

  // ---- Negative arguments: an alternating series of rounded-down magnitudes ----

  function Magnitude(u: int, n: nat): (m: int)
    requires 0 <= u
    ensures 0 <= m
  {
    if n == 0 then SCALE
    else
      var m := Magnitude(u, n - 1);
      MulLe(0, m, u);
      DivAtLeast(m * u, n * SCALE, 0);
      m * u / (n * SCALE)
  }

  lemma SignedStep(m: int, u: int, d: int)
    requires 0 <= m && 0 <= u && d > 0
    ensures TruncDiv(m * -u, d) == -(m * u / d) && TruncDiv(-m * -u, d) == m * u / d
  {
    MulLe(0, m, u);
    assert m * -u == -(m * u) && -m * -u == m * u;
    TruncDivSign(m * u, d);
  }

  lemma TermStep(u: int, n: nat)
    requires 0 <= u && n >= 1
    ensures Term(-u, n) == TruncDiv(Term(-u, n - 1) * -u, n * SCALE)
    ensures Magnitude(u, n) == Magnitude(u, n - 1) * u / (n * SCALE)
  {}

  lemma AlternatingStep(even: bool, m: int, u: int, d: int, t: int)
    requires 0 <= m && 0 <= u && d > 0 && t == (if even then m else -m)
    ensures TruncDiv(t * -u, d) == if even then -(m * u / d) else m * u / d
  {
    hide TruncDiv;
    SignedStep(m, u, d);
  }

  lemma NextParity(n: nat)
    requires n >= 1
    ensures Taylor.Even(n) <==> !Taylor.Even(n - 1)
  {}

  lemma {:induction false} TermAlternates(u: int, n: nat)
    requires 0 <= u
    ensures Term(-u, n) == if Taylor.Even(n) then Magnitude(u, n) else -Magnitude(u, n)
  {
    if n > 0 {
      hide *;
      TermAlternates(u, n - 1);
      TermStep(u, n);
      NextParity(n);
      AlternatingStep(Taylor.Even(n - 1), Magnitude(u, n - 1), u, n * SCALE, Term(-u, n - 1));
    }
  }

  lemma MagnitudeShrinks(u: int, n: nat)
    requires 0 <= u <= SCALE && n >= 1
    ensures n * Magnitude(u, n) <= Magnitude(u, n - 1)
    ensures Magnitude(u, n) <= Magnitude(u, n - 1)
  {
    var p, q := Magnitude(u, n - 1), Magnitude(u, n);
    MulLe(u, SCALE, p);
    assert q * (n * SCALE) <= p * u <= p * SCALE;
    assert q * (n * SCALE) == (n * q) * SCALE;
    MulLe(1, n, q);
  }

  lemma FirstMagnitudes(u: int)
    requires 0 <= u <= SCALE
    ensures Magnitude(u, 1) == u && 2 * Magnitude(u, 2) <= u
    ensures Sum(-u, 2) == SCALE - u + Magnitude(u, 2)
    ensures 3 * Magnitude(u, 3) <= Magnitude(u, 2)
    ensures u == SCALE ==> Magnitude(u, 2) == 5_000_000
  {
    assert Magnitude(u, 0) == SCALE;
    assert Magnitude(u, 1) == SCALE * u / SCALE == u;
    MagnitudeShrinks(u, 2);
    MagnitudeShrinks(u, 3);
    TermAlternates(u, 1);
    TermAlternates(u, 2);
    assert Sum(-u, 0) == SCALE;
    assert Sum(-u, 1) == SCALE - u;
  }

  function FirstTwo(u: int): int
    requires 0 <= u
  {
    SCALE - u + Magnitude(u, 2)
  }

  lemma SumStep(u: int, n: nat)
    requires 0 <= u <= SCALE && n >= 1
    ensures Sum(-u, n) == Sum(-u, n - 1) + if Taylor.Even(n) then Magnitude(u, n) else -Magnitude(u, n)
    ensures 0 <= Magnitude(u, n) <= Magnitude(u, n - 1)
  {
    TermAlternates(u, n);
    MagnitudeShrinks(u, n);
  }

  // Partial sums of an alternating series with shrinking magnitudes nest below the second one
  // and above the third.
  ghost predicate Nested(sum: int, high: int, third: int, last: int, even: bool) {
    if even then high - third + last <= sum <= high else high - third <= sum <= high - last
  }

  lemma {:induction false} SumsNest(u: int, n: nat)
    requires 0 <= u <= SCALE && n >= 3
    ensures Nested(Sum(-u, n), FirstTwo(u), Magnitude(u, 3), Magnitude(u, n), Taylor.Even(n))
  {
    SumStep(u, n);
    if n == 3 {
      FirstMagnitudes(u);
    } else {
      SumsNest(u, n - 1);
    }
  }

  // On [-SCALE, 0] the computed e^x is positive and at most 1, and 1 only at 0.
  lemma ExpUnitInterval(x: int)
    requires -SCALE <= x <= 0
    ensures Exp(x).Ok? && 1 <= Exp(x).value <= SCALE
    ensures x < 0 ==> Exp(x).value < SCALE
  {
    var u := -x;
    FirstMagnitudes(u);
    SumsNest(u, EXP_ITERATIONS);
  }
}
