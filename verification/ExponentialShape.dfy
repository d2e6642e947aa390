/** How the computed exponential moves with a negative argument: down to -6.18 it falls, and from there
    to -20 it rises, up to rounding. */
module ExponentialShape {
  import opened Fixed
  import opened Exponential
  import opened ExponentialAccuracy
  import Monotonicity
  import Taylor

  // The exact sum of degree n at -u / SCALE.
  ghost function SumAt(u: int, n: nat): real {
    Taylor.Total(Taylor.Monomials(-Taylor.Unscaled(u)), n)
  }

  // ---- One unit further from 0 ----

  ghost predicate DominatedAt(c: real, p: nat -> real, q: nat -> real, j: nat) {
    -(c * p(j)) <= q(j) <= c * p(j)
  }

  lemma WidenBand(c: real, d: real, p: real, e: real, x: real, q: real)
    requires e == d + p && -(c * d) <= x <= c * d && -(c * p) <= q <= c * p
    ensures -(c * e) <= x + q <= c * e
  {
    Taylor.DistributeSum(e, d, p, c);
  }

  // The terms from degree 2 on.
  ghost function Rest(f: nat -> real, k: nat): real {
    if k <= 1 then 0.0 else Rest(f, k - 1) + f(k)
  }

  lemma {:induction false} TotalRest(f: nat -> real, k: nat)
    requires k >= 1
    ensures Taylor.Total(f, k) == f(0) + f(1) + Rest(f, k)
  {
    if k == 1 {
      assert Taylor.Total(f, 0) == f(0);
    } else {
      TotalRest(f, k - 1);
    }
  }

  lemma {:induction false} RestDominated(c: real, p: nat -> real, q: nat -> real, k: nat)
    requires forall j: nat | 2 <= j <= k :: DominatedAt(c, p, q, j)
    ensures -(c * Rest(p, k)) <= Rest(q, k) <= c * Rest(p, k)
  {
    if k >= 2 {
      RestDominated(c, p, q, k - 1);
      assert DominatedAt(c, p, q, k);
      WidenBand(c, Rest(p, k - 1), p(k), Rest(p, k), Rest(q, k - 1), q(k));
    }
  }

  // kq and hp are the products k * q and h * p.
  lemma HalvesLinear(kq: real, hp: real, p: real, q: real)
    requires 2.0 * q <= kq == hp <= p
    ensures 2.0 * q <= p
  {}

  lemma Halves(h: real, k: real, p: real, q: real)
    requires 0.0 <= h <= 1.0 && k >= 2.0 && 0.0 <= p && 0.0 <= q && k * q == h * p
    ensures 2.0 * q <= p
  {
    Taylor.MulMono(h, 1.0, p);
    Taylor.MulMono(2.0, k, q);
    HalvesLinear(k * q, h * p, p, q);
  }

  // h^2/2 + h^3/6 + ... <= h^2
  lemma {:induction false} SecondOrder(p: nat -> real, h: real, k: nat)
    requires 0.0 <= h <= 1.0 && k >= 1 && Taylor.Exponential(p, h)
    ensures p(0) == 1.0 && p(1) == h && 0.0 <= p(k)
    ensures Rest(p, k) <= h * h - (if k == 1 then 0.0 else p(k))
  {
    assert Taylor.StepAt(p, h, 1) && Taylor.StepAt(p, h, k);
    Taylor.NonNegative(p, h, k);
    if k > 1 {
      SecondOrder(p, h, k - 1);
      Halves(h, k as real, p(k - 1), p(k));
      if k == 2 {
        assert 2.0 * p(2) == h * h;
      }
    }
  }

  lemma {:induction false} TotalWithin(f: nat -> real, g: nat -> real, z: real, m: nat, n: nat)
    requires 0.0 <= z && m <= n && Taylor.Exponential(f, z) && Taylor.Exponential(g, -z)
    ensures -Taylor.Total(f, n) <= Taylor.Total(g, m) <= Taylor.Total(f, n)
  {
    Taylor.TotalGrows(f, z, m, n);
    if m > 0 {
      TotalWithin(f, g, z, m - 1, m - 1);
      Taylor.Mirror(f, g, z, m);
    }
  }

  lemma DominatedProduct(c: real, t: real, p: real)
    requires -c <= t <= c && 0.0 <= p
    ensures -(c * p) <= t * p <= c * p
  {
    Taylor.MulMono(t, c, p);
    Taylor.MulMono(-c, t, p);
    assert -c * p == -(c * p);
  }

  // From -w to -w + h the sum moves by h times the sum one degree lower, up to c * h^2.
  lemma Moves(
    f: nat -> real, g: nat -> real, p: nat -> real, e: nat -> real, w: real, h: real, c: real, n: nat)
    requires 0.0 <= h <= 1.0 && 0.0 <= w && n >= 1 && Taylor.Exponential(f, w) && Taylor.Exponential(g, -w)
    requires Taylor.Exponential(p, h) && Taylor.Exponential(e, -w + h) && Taylor.Total(f, n) <= c
    ensures var d := Taylor.Total(e, n) - Taylor.Total(g, n) - Taylor.Total(g, n - 1) * h;
      -(c * (h * h)) <= d <= c * (h * h)
  {
    hide Taylor.Total, Rest;
    var q := Taylor.Cross(Taylor.Sums(g), p, n);
    forall j: nat | 2 <= j <= n
      ensures DominatedAt(c, p, q, j)
    {
      TotalWithin(f, g, w, n - j, n);
      Taylor.TotalGrows(f, w, n - j, n);
      Taylor.NonNegative(p, h, j);
      DominatedProduct(c, Taylor.Total(g, n - j), p(j));
    }
    RestDominated(c, p, q, n);
    TotalRest(q, n);
    SecondOrder(p, h, n);
    Taylor.TotalGrows(f, w, n, n);
    Taylor.MulMono(Rest(p, n), h * h, c);
    Taylor.SumsCrossTotal(g, p, e, -w, h, n);
    assert q(0) == Taylor.Total(g, n) && q(1) == Taylor.Total(g, n - 1) * h;
  }

  lemma UnitMoves(u: int, c: real, n: nat)
    requires 1 <= u && n >= 1 && Taylor.Total(Taylor.Monomials(Taylor.Unscaled(u)), n) <= c
    ensures var d := SumAt(u - 1, n) - SumAt(u, n) - 0.0000001 * SumAt(u, n - 1);
      -(0.00000000000001 * c) <= d <= 0.00000000000001 * c
  {
    var w, h := Taylor.Unscaled(u), 0.0000001;
    assert -Taylor.Unscaled(u - 1) == -w + h;
    Taylor.MonomialsExponential(w);
    Taylor.MonomialsExponential(-w);
    Taylor.MonomialsExponential(h);
    Taylor.MonomialsExponential(-w + h);
    hide *;
    Moves(Taylor.Monomials(w), Taylor.Monomials(-w), Taylor.Monomials(h), Taylor.Monomials(-w + h), w, h, c, n);
    assert h * h == 0.00000000000001;
  }

  // ---- The exact sums fall up to 6, and up to 8.8 never faster than with slope 1 ----

  lemma CubicAtSixSevenths(h: real, q: real)
    requires 0.0 <= h <= 6.0 / 7.0 && q == h * h
    ensures 0.405 <= 1.0 + -h + -h * -h / 2.0 + -h * (-h * -h) / 6.0
  {
    var c := 6.0 / 7.0;
    var d := c - h;
    assert -h * -h == q && -h * q == -(h * q);
    Taylor.MulMono(h, c, q);
    assert 0.0 <= d * d;
    assert d * d == c * c - 2.0 * c * h + q;
  }

  lemma SeparatorLow(g: nat -> real, h: real, top: nat)
    requires 0.0 <= h <= 6.0 / 7.0 && Taylor.Even(top) && top >= 3
    requires Taylor.Exponential(g, -h) && Taylor.Alternating(g)
    ensures 0.405 <= Taylor.Total(g, top)
  {
    Taylor.UnitSeparator(g, h, top);
    assert Taylor.SeparatesAt(Taylor.Total(g, top), g, 3);
    Taylor.LowDegree(g, -h);
    CubicAtSixSevenths(h, h * h);
  }

  lemma SeventhPower(s: real)
    requires 0.405 <= s
    ensures 0.00178 <= Taylor.Pow(s, 7)
  {
    Taylor.PowBounds(0.405, s, 7);
    assert Taylor.Pow(0.405, 4) >= 0.0269;
  }

  lemma OddPositive(z: real, top: nat)
    requires 0.0 <= z <= 6.0 && Taylor.Even(top) && top >= 3 && Taylor.Monomial(6.0, top) <= 0.00151
    ensures 0.00025 <= Taylor.Total(Taylor.Monomials(-z), top - 1)
  {
    var h := z / 7.0;
    var g := Taylor.Monomials(-h);
    var s := Taylor.Total(g, top);
    Taylor.MonomialsExponential(-h);
    Taylor.MonomialsAlternate(h);
    SeparatorLow(g, h, top);
    Taylor.SeparatorPower(h, 7, top);
    Taylor.SevenSteps(h);
    assert Taylor.SeparatesAt(Taylor.Pow(s, 7), Taylor.Monomials(-z), top);
    SeventhPower(s);
    Taylor.LastTerm(z, 6.0, top);
  }

  lemma TotalUpTo(z: real, c: real, t: real, n: nat)
    requires 0.0 <= z <= c && Taylor.Poly(c, n) <= t
    ensures Taylor.Total(Taylor.Monomials(z), n) <= t
  {
    PolyUpTo(z, c, t, n);
    Taylor.PolyTotal(z, n);
  }
  lemma {:induction false} ExactFalls(u: int, v: int, top: nat)
    requires 0 <= u <= v <= 6 * SCALE && Taylor.Even(top) && top >= 3
    requires Taylor.Monomial(6.0, top) <= 0.00151 && Taylor.Poly(6.0, top) <= 404.0
    ensures SumAt(v, top) <= SumAt(u, top)
    decreases v - u
  {
    if u < v {
      ExactFalls(u, v - 1, top);
      OddPositive(Taylor.Unscaled(v), top);
      TotalUpTo(Taylor.Unscaled(v), 6.0, 404.0, top);
      UnitMoves(v, 404.0, top);
    }
  }

  lemma {:induction false} SlopeToEight(u: int, v: int, top: nat)
    requires SCALE <= u <= v <= 8 * SCALE && Taylor.Even(top) && top >= 3 && Taylor.Poly(8.0, top) <= 2981.0
    ensures SumAt(u, top) - SumAt(v, top) <= 0.371 * Taylor.Unscaled(v - u)
    decreases v - u
  {
    if u < v {
      SlopeToEight(u, v - 1, top);
      Taylor.BelowOne(Taylor.Unscaled(v), top);
      TotalUpTo(Taylor.Unscaled(v), 8.0, 2981.0, top);
      UnitMoves(v, 2981.0, top);
    }
  }

  lemma ExactRises(u: int, v: int, top: nat)
    requires 65_000_000 <= u <= v && Base(6.5, 0.0032, 89.0, top)
    ensures SumAt(u, top) <= SumAt(v, top)
  {
    hide Base;
    var x, y, d, e, p, q := FarPair(u, v, 6.5, 0.0032, 89.0, top);
    Taylor.PolyTotal(-Taylor.Unscaled(u), top);
    Taylor.PolyTotal(-Taylor.Unscaled(v), top);
  }

  // From 1 on they never fall faster than with slope 0.371.
  lemma GentleSlope(u: int, v: int, top: nat)
    requires SCALE <= u <= v && top >= 3 && Taylor.Poly(8.0, top) <= 2981.0 && Base(6.5, 0.0032, 89.0, top)
    ensures SumAt(u, top) - SumAt(v, top) <= 0.371 * Taylor.Unscaled(v - u)
  {
    BaseOrder(6.5, 0.0032, 89.0, top);
    hide SumAt, Base, Taylor.Poly;
    if v <= 8 * SCALE {
      SlopeToEight(u, v, top);
    } else if 65_000_000 <= u {
      ExactRises(u, v, top);
    } else {
      SlopeToEight(u, 65_000_000, top);
      ExactRises(65_000_000, v, top);
    }
  }

  lemma SlopeToOne(u: int, v: int, j: nat)
    requires 0 <= u <= v <= SCALE && j >= 1
    ensures SumAt(u, 2 * j) - SumAt(v, 2 * j) <= Taylor.Unscaled(v - u)
  {
    var z, w := Taylor.Unscaled(u), Taylor.Unscaled(v);
    Monotonicity.PolyFollows(z, w, j);
    Taylor.PolyTotal(-z, 2 * j);
    Taylor.PolyTotal(-w, 2 * j);
  }

  lemma ExactSlope(u: int, v: int, j: nat)
    requires 0 <= u <= v && j >= 2 && Taylor.Poly(8.0, 2 * j) <= 2981.0 && Base(6.5, 0.0032, 89.0, 2 * j)
    ensures SumAt(u, 2 * j) - SumAt(v, 2 * j) <= Taylor.Unscaled(v - u)
    decreases SCALE - u
  {
    hide SumAt, Base, Taylor.Poly;
    if v <= SCALE {
      SlopeToOne(u, v, j);
    } else if u < SCALE {
      SlopeToOne(u, SCALE, j);
      ExactSlope(SCALE, v, j);
    } else {
      GentleSlope(u, v, 2 * j);
    }
  }

  // ---- The computed exponential ----

  const EDGE: int := 88_000_000
  const CAP: int := 20 * SCALE

  lemma SumNear(u: int, n: nat)
    requires 0 <= u <= EDGE && SlackSum(8.8, n) <= 317.0
    ensures -317.0 <= Sum(-u, n) as real - 10_000_000.0 * SumAt(u, n) <= 317.0
  {
    hide SlackSum, Taylor.Poly, Taylor.Total;
    var z := Taylor.Unscaled(u);
    RoundedError(u, n);
    SlackMonotone(z, 8.8, n);
    Taylor.PolyTotal(-z, n);
  }

  lemma SumSlope(u: int, v: int, j: nat)
    requires 0 <= u <= v <= EDGE && j >= 2 && Taylor.Poly(8.0, 2 * j) <= 2981.0
    requires Base(6.5, 0.0032, 89.0, 2 * j) && SlackSum(8.8, 2 * j) <= 317.0
    ensures Sum(-u, 2 * j) - Sum(-v, 2 * j) <= v - u + 634
  {
    hide SumAt, Sum, Base;
    SumNear(u, 2 * j);
    SumNear(v, 2 * j);
    ExactSlope(u, v, j);
  }

  // Up to 8.8 the computed exponential falls at most as fast as its argument.
  lemma ExpSlope(u: int, v: int)
    requires 1 <= u <= v <= EDGE
    ensures Exp(-u).Ok? && Exp(-v).Ok? && 1 <= Exp(-u).value < SCALE && 1 <= Exp(-v).value < SCALE
    ensures Exp(-u).value - Exp(-v).value <= v - u + 634
  {
    ExpAtMostOne(-u);
    ExpAtMostOne(-v);
    hide Base, Sum, SlackSum;
    Taylor.AtEight();
    BaseAtSixFive();
    SlackAtEightEight();
    SumSlope(u, v, 10);
  }

  lemma SumGentle(u: int, v: int, n: nat)
    requires SCALE <= u <= v <= EDGE && n >= 3 && Taylor.Poly(8.0, n) <= 2981.0
    requires Base(6.5, 0.0032, 89.0, n) && SlackSum(8.8, n) <= 317.0
    ensures 1_000 * (Sum(-u, n) - Sum(-v, n)) <= 371 * (v - u) + 634_000
  {
    hide SumAt, Sum, Base;
    SumNear(u, n);
    SumNear(v, n);
    GentleSlope(u, v, n);
  }

  lemma ExpGentle(u: int, v: int)
    requires SCALE <= u <= v <= EDGE
    ensures Exp(-u).Ok? && Exp(-v).Ok? && 1_000 * (Exp(-u).value - Exp(-v).value) <= 371 * (v - u) + 634_000
  {
    hide Base, Sum, SlackSum;
    ExpAtMostOne(-u);
    ExpAtMostOne(-v);
    Taylor.AtEight();
    BaseAtSixFive();
    SlackAtEightEight();
    SumGentle(u, v, 20);
  }

  lemma SumFalls(u: int, v: int, n: nat)
    requires 0 <= u <= v <= 6 * SCALE && Taylor.Even(n) && n >= 3 && SlackSum(8.8, n) <= 317.0
    requires Taylor.Monomial(6.0, n) <= 0.00151 && Taylor.Poly(6.0, n) <= 404.0
    ensures Sum(-v, n) - Sum(-u, n) <= 634
  {
    hide SumAt, Sum;
    SumNear(u, n);
    SumNear(v, n);
    ExactFalls(u, v, n);
  }

  // Up to 6 it falls.
  lemma ExpFalls(u: int, v: int)
    requires 1 <= u <= v <= 6 * SCALE
    ensures Exp(-u).Ok? && Exp(-v).Ok? && Exp(-v).value - Exp(-u).value <= 634
  {
    ExpAtMostOne(-u);
    ExpAtMostOne(-v);
    Taylor.AtSix();
    SlackAtEightEight();
    SumFalls(u, v, 20);
  }

  lemma AheadStep(n: real, h: real, k: real, o: real, p: real, p': real, q: real, q': real)
    requires n >= 1.0 && 0.0 <= h && 0.0 <= k && 0.0 <= o && 0.0 <= p && p + k * o <= q
    requires n * p' == h * p && (n - 1.0) * p == h * o && n * q' == (h + k) * q
    ensures p' + k * p <= q'
  {
    var s := h + k;
    Taylor.MulMono(p + k * o, q, s);
    Taylor.DistributeSum(s, h, k, p + k * o);
    assert h * (k * o) == k * (h * o) == k * ((n - 1.0) * p);
    Taylor.MulMono(0.0, o, k);
    Taylor.MulMono(0.0, k * o, k);
    assert n * (p' + k * p) == h * p + n * (k * p);
    Taylor.LeCancel(p' + k * p, q', n);
  }

  // p(h + k) >= p(h) + k * p'(h), one degree at a time
  lemma {:induction false} MonomialAhead(p: nat -> real, q: nat -> real, h: real, k: real, n: nat)
    requires 0.0 <= h && 0.0 <= k && Taylor.Exponential(p, h) && Taylor.Exponential(q, h + k)
    ensures 0.0 <= p(n) && p(n) + k * (if n == 0 then 0.0 else p(n - 1)) <= q(n)
  {
    Taylor.NonNegative(p, h, n);
    if n > 0 {
      MonomialAhead(p, q, h, k, n - 1);
      assert Taylor.StepAt(p, h, n) && Taylor.StepAt(q, h + k, n) && Taylor.StepAt(p, h, n - 1);
      var o := if n == 1 then 0.0 else p(n - 2);
      if n >= 2 {
        Taylor.NonNegative(p, h, n - 2);
      }
      AheadStep(n as real, h, k, o, p(n - 1), p(n), q(n - 1), q(n));
    }
  }

  lemma {:induction false} TotalAhead(p: nat -> real, q: nat -> real, h: real, k: real, n: nat)
    requires 0.0 <= h && 0.0 <= k && Taylor.Exponential(p, h) && Taylor.Exponential(q, h + k)
    ensures Taylor.Total(p, n) + k * Taylor.TotalBefore(p, n) <= Taylor.Total(q, n)
  {
    MonomialAhead(p, q, h, k, n);
    if n > 0 {
      TotalAhead(p, q, h, k, n - 1);
      Taylor.DistributeSum(Taylor.TotalBefore(p, n), Taylor.TotalBefore(p, n - 1), p(n - 1), k);
    }
  }

  // Up to h = n the last term is at most half of the sum.
  lemma HalfBefore(p: nat -> real, h: real, n: nat)
    requires 0.0 <= h <= n as real && n >= 1 && Taylor.Exponential(p, h)
    ensures 1.0 <= Taylor.Total(p, n) <= 2.0 * Taylor.TotalBefore(p, n)
  {
    Taylor.TotalGrows(p, h, n, n);
    Taylor.NonNegative(p, h, n - 1);
    assert Taylor.StepAt(p, h, n);
    Taylor.MulMono(h, n as real, p(n - 1));
    Taylor.LeCancel(p(n), p(n - 1), n as real);
    if n > 1 {
      Taylor.TotalGrows(p, h, n - 2, n - 1);
    }
  }

  lemma HalfAhead(p: real, q: real, b: real, k: real)
    requires 0.0 <= k && p <= 2.0 * b && p + k * b <= q
    ensures p + 0.5 * (k * p) <= q
  {
    Taylor.MulMono(p, 2.0 * b, k);
    assert (2.0 * b) * k == 2.0 * (k * b);
  }

  lemma AheadByHalf(h: real, k: real, n: nat)
    requires 0.0 <= h <= n as real && 0.0 <= k && n >= 1
    ensures var p, q := Taylor.Total(Taylor.Monomials(h), n), Taylor.Total(Taylor.Monomials(h + k), n);
      1.0 <= p && p + 0.5 * (k * p) <= q
  {
    hide Taylor.Total, Taylor.TotalBefore, Taylor.Monomial;
    var f, g := Taylor.Monomials(h), Taylor.Monomials(h + k);
    Taylor.MonomialsExponential(h);
    Taylor.MonomialsExponential(h + k);
    TotalAhead(f, g, h, k, n);
    HalfBefore(f, h, n);
    HalfAhead(Taylor.Total(f, n), Taylor.Total(g, n), Taylor.TotalBefore(f, n), k);
  }

  // Rounding at both ends is less than what 1600 units add.
  lemma RiseArith(s: int, t: int, x: real, y: real, d: real, e: real, p: real, q: real, k: real)
    requires s as real - 10_000_000.0 * x <= d <= 317.0 * p && -e <= t as real - 10_000_000.0 * y && e <= 317.0 * q
    requires 0.95 * (q - p) <= y - x && 1.0 <= p && p + 0.5 * (k * p) <= q && 0.00016 <= k
    ensures s <= t
  {
    Taylor.MulMono(0.00016, k, p);
  }

  lemma SumRises(u: int, v: int, n: nat)
    requires EDGE <= u && u + 1_600 <= v <= CAP && n >= 12 && Base(8.8, 0.95, 317.0, n)
    ensures Sum(-u, n) <= Sum(-v, n)
  {
    hide Base, Sum, Taylor.Total, Taylor.Poly;
    var h, k := Taylor.Unscaled(u) - 8.8, Taylor.Unscaled(v) - Taylor.Unscaled(u);
    assert h + k == Taylor.Unscaled(v) - 8.8;
    var x, y, d, e, p, q := FarPair(u, v, 8.8, 0.95, 317.0, n);
    AheadByHalf(h, k, n);
    Taylor.PolyTotal(h, n);
    Taylor.PolyTotal(h + k, n);
    RiseArith(Sum(-u, n), Sum(-v, n), x, y, d, e, p, q, k);
  }

  // From 8.8 to 20 it rises over every 1600 units.
  lemma ExpRises(u: int, v: int)
    requires EDGE <= u && u + 1_600 <= v <= CAP
    ensures Exp(-u).Ok? && Exp(-v).Ok? && 1 <= Exp(-u).value <= Exp(-v).value
  {
    hide Base, Sum;
    ExpPositive(-u);
    ExpPositive(-v);
    BaseAtEightEight();
    SumRises(u, v, 20);
  }

  lemma SumPastEdge(u: int, v: int, n: nat)
    requires u == EDGE <= v <= CAP && Base(8.8, 0.95, 317.0, n)
    ensures Sum(-u, n) - 634 <= Sum(-v, n)
  {
    hide Sum, SlackSum, Taylor.Poly, Taylor.SignsUpTo;
    SumNear(u, n);
    Taylor.PolyTotal(-8.8, n);
    Taylor.PolyTotal(8.8 - 8.8, n);
    Taylor.TotalAtZero(n);
    AboveFar(v, n, 8.8, 0.95, 317.0, u, 8.8, Sum(-u, n) - 634);
  }

  lemma ExpPastEdge(u: int, v: int)
    requires u == EDGE <= v <= CAP
    ensures Exp(-v).Ok? && Exp(-u).Ok? && 1 <= Exp(-u).value < SCALE && 1 <= Exp(-v).value
    ensures Exp(-u).value - 634 <= Exp(-v).value
  {
    hide Base, Sum;
    ExpAtMostOne(-u);
    ExpPositive(-v);
    BaseAtEightEight();
    SumPastEdge(u, v, 20);
  }

  lemma SumUpTo(u: int, n: nat)
    requires EDGE <= u <= 125_000_000 && Base(8.8, 0.95, 317.0, n) && Taylor.Poly(6.0, n) <= 404.0
    requires Taylor.Poly(-12.5, n) <= 1_345.2
    ensures Sum(-u, n) <= 1_346 * SCALE
  {
    hide Base, Sum, Taylor.Poly;
    PolyUpTo(12.5 - 8.8, 6.0, 404.0, n);
    BelowFar(u, n, 8.8, 0.95, 317.0, 125_000_000, 12.5, 1_346 * SCALE);
  }

  lemma ExpUpToTwelve(u: int)
    requires EDGE <= u <= 125_000_000
    ensures Exp(-u).Ok? && 1 <= Exp(-u).value <= 1_346 * SCALE
  {
    hide Base, Sum;
    ExpPositive(-u);
    BaseAtEightEight();
    Taylor.AtSix();
    Taylor.AtMinusTwelveFive();
    SumUpTo(u, 20);
  }

  lemma SumFrom(u: int, n: nat)
    requires 127_000_000 <= u && Base(8.8, 0.95, 317.0, n) && Taylor.Poly(6.0, n) <= 404.0
    requires 1_866.2 <= Taylor.Poly(-12.7, n) && 3_020.0 <= Taylor.Poly(-13.0, n)
    ensures 1_866 * SCALE <= Sum(-u, n)
    ensures 13 * SCALE <= u ==> 3_000 * SCALE <= Sum(-u, n)
  {
    hide Base, Sum, Taylor.Poly;
    PolyUpTo(12.7 - 8.8, 6.0, 404.0, n);
    PolyUpTo(13.0 - 8.8, 6.0, 404.0, n);
    AboveFar(u, n, 8.8, 0.95, 317.0, 127_000_000, 12.7, 1_866 * SCALE);
    if 13 * SCALE <= u {
      AboveFar(u, n, 8.8, 0.95, 317.0, 13 * SCALE, 13.0, 3_000 * SCALE);
    }
  }

  lemma ExpFromTwelve(u: int)
    requires 127_000_000 <= u <= CAP
    ensures Exp(-u).Ok? && 1_866 * SCALE <= Exp(-u).value
    ensures 13 * SCALE <= u ==> 3_000 * SCALE <= Exp(-u).value
  {
    hide Base, Sum;
    BaseAtEightEight();
    Taylor.AtSix();
    Taylor.AtMinusTwelveSeven();
    Taylor.AtMinusThirteen();
    SumFrom(u, 20);
  }

  lemma SumAtPoint(u: int, w: real, n: nat, t: real)
    requires 0 <= u <= EDGE && w == Taylor.Unscaled(u) && SlackSum(8.8, n) <= 317.0 && Taylor.Poly(-w, n) <= t
    ensures Sum(-u, n) as real <= 10_000_000.0 * t + 317.0
  {
    hide Sum, SlackSum, Taylor.Poly, Taylor.Total;
    SumNear(u, n);
    Taylor.PolyTotal(-w, n);
  }

  // Around the lowest point, 6.177.
  lemma ExpAtLowest(u: int)
    requires u == 62_000_000
    ensures Exp(-u).Ok? && 1 <= Exp(-u).value <= 27_300
  {
    hide Sum, SlackSum;
    ExpPositive(-u);
    SlackAtEightEight();
    Taylor.AtMinusSixTwo();
    SumAtPoint(u, 6.2, 20, 0.002695);
  }

  lemma ExpAtFive(u: int)
    requires u == 5 * SCALE
    ensures Exp(-u).Ok? && 1 <= Exp(-u).value <= 67_800
  {
    hide Sum, SlackSum;
    ExpPositive(-u);
    SlackAtEightEight();
    Taylor.AtMinusFive();
    SumAtPoint(u, 5.0, 20, 0.0067456);
  }

  // ---- From -8.8 down, 1 + e^x grows by half of itself per unit ----

  // The sum of degree n, with the sign it has beyond the last of its zeros.
  function Signed(c: real, n: nat): real {
    if Taylor.Even(n) then Taylor.Poly(c, n) else -Taylor.Poly(c, n)
  }

  // By how much the sum of degree n - 1 exceeds half of that of degree n.
  function Margin(c: real, n: nat): real {
    (if n == 0 then 0.0 else Signed(c, n - 1)) - Signed(c, n) / 2.0
  }

  predicate SteepAt(c: real, n: nat) {
    if n < 5 then -10.5 <= Margin(c, n)
    else if n < 10 then 30.0 <= Margin(c, n)
    else if n < 20 then 0.0 <= Margin(c, n)
    else 1.7 <= Margin(c, n)
  }

  predicate SteepUpTo(c: real, n: nat) {
    SteepAt(c, n) && (n > 0 ==> SteepUpTo(c, n - 1))
  }

  lemma {:induction false} SteepBelow(c: real, n: nat, m: nat)
    requires SteepUpTo(c, n) && m <= n
    ensures SteepAt(c, m)
  {
    if m < n {
      SteepBelow(c, n - 1, m);
    }
  }

  lemma SteepLow()
    ensures SteepUpTo(-8.8, 10)
  {
    Taylor.AtMinusEightEight();
    assert SteepUpTo(-8.8, 5);
  }

  lemma Steep()
    ensures SteepUpTo(-8.8, 20)
  {
    Taylor.AtMinusEightEight();
    SteepLow();
    assert SteepUpTo(-8.8, 15);
  }

  // What the sum of degree n - 1 at -(c + h) exceeds half of that of degree n by, in powers of h.
  ghost function Margins(f: nat -> real, g: nat -> real, n: nat): nat -> real
    requires n >= 1
  {
    (j: nat) => -Taylor.Cross(Taylor.Sums(f), g, n - 1)(j) - Taylor.Cross(Taylor.Sums(f), g, n)(j) / 2.0
  }

  lemma MarginProduct(even: bool, p: real, g: real, before: real, at: real, m: real, bg: real, ag: real)
    requires g == (if even then p else -p) && bg == before * g && ag == at * g
    requires m == (if even then -before else before) - (if even then at else -at) / 2.0
    ensures -bg - ag / 2.0 == m * p
  {
    if even {
      Taylor.DistributeSum(m, -before, -at / 2.0, p);
    } else {
      Taylor.DistributeSum(m, before, at / 2.0, p);
    }
  }

  lemma SignedAt(c: real, m: nat)
    ensures Signed(c, m) == if Taylor.Even(m) then Taylor.Total(Taylor.Monomials(c), m)
      else -Taylor.Total(Taylor.Monomials(c), m)
  {
    Taylor.PolyTotal(c, m);
  }

  lemma Parities(n: nat, j: nat)
    requires j <= n && Taylor.Even(n)
    ensures Taylor.Even(n - j) <==> Taylor.Even(j)
    ensures j < n ==> (Taylor.Even(n - 1 - j) <==> !Taylor.Even(j))
  {}

  lemma CrossValue(f: nat -> real, g: nat -> real, n: nat, j: nat)
    ensures Taylor.Cross(Taylor.Sums(f), g, n)(j) == if j <= n then Taylor.Total(f, n - j) * g(j) else 0.0
  {}

  lemma MarginValue(c: real, m: nat, even: bool, at: real, before: real)
    requires (Taylor.Even(m) <==> even) && at == Taylor.Total(Taylor.Monomials(c), m)
    requires before == if m == 0 then 0.0 else Taylor.Total(Taylor.Monomials(c), m - 1)
    requires m > 0 ==> (Taylor.Even(m - 1) <==> !even)
    ensures Margin(c, m) == (if even then -before else before) - (if even then at else -at) / 2.0
  {
    hide Taylor.Total, Taylor.Monomials, Taylor.Even, Signed;
    SignedAt(c, m);
    if m > 0 {
      SignedAt(c, m - 1);
    }
  }

  lemma MarginAt(f: nat -> real, g: nat -> real, n: nat, j: nat, at: real, before: real)
    requires n >= 1 && j <= n && at == Taylor.Total(f, n - j)
    requires before == if n - j == 0 then 0.0 else Taylor.Total(f, n - j - 1)
    ensures Margins(f, g, n)(j) == -(before * g(j)) - (at * g(j)) / 2.0
  {
    hide Taylor.Total, Taylor.Cross, Taylor.Sums;
    CrossValue(f, g, n, j);
    CrossValue(f, g, n - 1, j);
  }

  lemma MarginTerm(c: real, p: nat -> real, g: nat -> real, h: real, n: nat, j: nat)
    requires 0.0 <= h && j <= n && n >= 1 && Taylor.Even(n) && Taylor.Exponential(p, h) && Taylor.Exponential(g, -h)
    ensures Margins(Taylor.Monomials(c), g, n)(j) == Margin(c, n - j) * p(j) && 0.0 <= p(j)
  {
    hide *;
    var f, even := Taylor.Monomials(c), Taylor.Even(j);
    var at, before := Taylor.Total(f, n - j), if n - j == 0 then 0.0 else Taylor.Total(f, n - j - 1);
    Taylor.Mirror(p, g, h, j);
    Parities(n, j);
    MarginValue(c, n - j, even, at, before);
    MarginAt(f, g, n, j, at, before);
    MarginProduct(even, p(j), g(j), before, at, Margin(c, n - j), before * g(j), at * g(j));
  }

  // A margin q of a term p: not negative up to degree n - 10, at least 30 up to n - 5, and at least
  // -10.5 in the last five degrees.
  predicate Low(q: real, p: real, n: nat, j: nat) {
    && 0.0 <= p
    && (if j == 0 then 1.7 * p <= q
        else if j + 10 <= n then 0.0 <= q
        else if j + 5 <= n then 30.0 * p <= q
        else -10.5 * p <= q)
  }

  lemma LowProduct(c: real, m: real, q: real, p: real, n: nat, j: nat)
    requires q == m * p && 0.0 <= p && j <= n == 20 && m == Margin(c, n - j) && SteepAt(c, n - j)
    ensures Low(q, p, n, j)
  {
    hide Margin;
    if j == 0 {
      Taylor.MulMono(1.7, m, p);
    } else if j + 10 <= n {
      Taylor.MulMono(0.0, m, p);
    } else if j + 5 <= n {
      Taylor.MulMono(30.0, m, p);
    } else {
      Taylor.MulMono(-10.5, m, p);
    }
  }

  ghost predicate LowAt(q: nat -> real, p: nat -> real, n: nat, j: nat) {
    Low(q(j), p(j), n, j)
  }

  lemma MarginLow(c: real, p: nat -> real, g: nat -> real, h: real, n: nat, j: nat)
    requires 0.0 <= h && j <= n == 20 && Taylor.Exponential(p, h) && Taylor.Exponential(g, -h) && SteepAt(c, n - j)
    ensures LowAt(Margins(Taylor.Monomials(c), g, n), p, n, j)
  {
    hide Margin, Margins, SteepAt;
    MarginTerm(c, p, g, h, n, j);
    LowProduct(c, Margin(c, n - j), Margins(Taylor.Monomials(c), g, n)(j), p(j), n, j);
  }

  lemma Shrinks(p: nat -> real, h: real, j: nat)
    requires 0.0 <= h <= 12.0 && j >= 11 && Taylor.Exponential(p, h)
    ensures 0.0 <= p(j + 1) <= p(j)
  {
    Taylor.NonNegative(p, h, j);
    Taylor.NonNegative(p, h, j + 1);
    assert Taylor.StepAt(p, h, j + 1);
    Taylor.MulMono(h, (j + 1) as real, p(j));
    Taylor.LeCancel(p(j + 1), p(j), (j + 1) as real);
  }

  // Five degrees further on the term is no larger, so a margin of 30 covers one of -10.5.
  lemma Covered(q: nat -> real, p: nat -> real, h: real, j: nat)
    requires 0.0 <= h <= 12.0 && 11 <= j <= 15 && Taylor.Exponential(p, h)
    requires LowAt(q, p, 20, j) && LowAt(q, p, 20, j + 5)
    ensures 0.0 <= q(j) + q(j + 5) && 0.0 <= q(j)
  {
    Shrinks(p, h, j);
    Shrinks(p, h, j + 1);
    Shrinks(p, h, j + 2);
    Shrinks(p, h, j + 3);
    Shrinks(p, h, j + 4);
  }

  lemma {:induction false} FirstMargins(q: nat -> real, p: nat -> real, k: nat)
    requires p(0) == 1.0 && k <= 10 && forall j: nat | j <= 20 :: LowAt(q, p, 20, j)
    ensures 1.7 <= Taylor.Total(q, k)
  {
    assert LowAt(q, p, 20, k);
    if k > 0 {
      FirstMargins(q, p, k - 1);
    }
  }

  lemma LowTotal(q: nat -> real, p: nat -> real, h: real, n: nat)
    requires 0.0 <= h <= 12.0 && n == 20 && Taylor.Exponential(p, h)
    requires forall j: nat | j <= n :: LowAt(q, p, n, j)
    ensures 1.7 <= Taylor.Total(q, n)
  {
    FirstMargins(q, p, n - 10);
    forall j: nat | 11 <= j <= 15
      ensures 0.0 <= q(j) + q(j + 5)
    {
      assert LowAt(q, p, n, j) && LowAt(q, p, n, j + 5);
      Covered(q, p, h, j);
    }
    assert Taylor.Total(q, n - 5) == Taylor.Total(q, n - 10) + (q(11) + q(12) + q(13) + q(14) + q(15));
    assert Taylor.Total(q, n) == Taylor.Total(q, n - 5) + (q(16) + q(17) + q(18) + q(19) + q(20));
  }

  lemma {:induction false} MarginsTotal(f: nat -> real, g: nat -> real, n: nat, k: nat)
    requires n >= 1
    ensures Taylor.Total(Margins(f, g, n), k)
      == -Taylor.Total(Taylor.Cross(Taylor.Sums(f), g, n - 1), k)
        - Taylor.Total(Taylor.Cross(Taylor.Sums(f), g, n), k) / 2.0
  {
    if k > 0 {
      MarginsTotal(f, g, n, k - 1);
    }
  }

  lemma LastCross(f: nat -> real, g: nat -> real, n: nat)
    requires n >= 1
    ensures var q := Taylor.Cross(Taylor.Sums(f), g, n - 1); Taylor.Total(q, n) == Taylor.Total(q, n - 1)
  {}

  // At -z the sum of one degree less, the slope, is at least half of the sum and 1.7 more.
  lemma SteepBeyond(g: nat -> real, p: nat -> real, e: nat -> real, c: real, h: real, n: nat)
    requires n == 20 && 0.0 <= h <= 12.0 && SteepUpTo(-c, n)
    requires Taylor.Exponential(p, h) && Taylor.Exponential(g, -h) && Taylor.Exponential(e, -c + -h)
    ensures Taylor.Total(e, n) / 2.0 + 1.7 <= -Taylor.Total(e, n - 1)
  {
    hide Taylor.Total, Margins, LowAt, SteepUpTo, SteepAt, Taylor.Monomial;
    var f := Taylor.Monomials(-c);
    Taylor.MonomialsExponential(-c);
    var q := Margins(f, g, n);
    forall j: nat | j <= n
      ensures LowAt(q, p, n, j)
    {
      SteepBelow(-c, n, n - j);
      MarginLow(-c, p, g, h, n, j);
    }
    LowTotal(q, p, h, n);
    MarginsTotal(f, g, n, n);
    LastCross(f, g, n);
    Taylor.SumsCrossTotal(f, g, e, -c, -h, n);
    Taylor.SumsCrossTotal(f, g, e, -c, -h, n - 1);
  }

  // ---- Going k further down adds at least k times the slope ----

  ghost predicate LeadsAt(d: nat -> real, k: real, u: nat -> real, j: nat) {
    k * (if j == 0 then 0.0 else u(j - 1)) <= d(j)
  }

  lemma {:induction false} LeadsTotal(d: nat -> real, k: real, u: nat -> real, n: nat)
    requires forall j: nat | j <= n :: LeadsAt(d, k, u, j)
    ensures k * Taylor.TotalBefore(u, n) <= Taylor.Total(d, n)
  {
    assert LeadsAt(d, k, u, n);
    if n > 0 {
      LeadsTotal(d, k, u, n - 1);
      Taylor.DistributeSum(Taylor.TotalBefore(u, n), Taylor.TotalBefore(u, n - 1), u(n - 1), k);
    }
  }

  ghost function Negated(q: nat -> real): nat -> real {
    (j: nat) => -q(j)
  }

  lemma {:induction false} NegatedTotal(q: nat -> real, n: nat)
    ensures Taylor.Total(Negated(q), n) == -Taylor.Total(q, n)
  {
    if n > 0 {
      NegatedTotal(q, n - 1);
    }
  }

  // t is a sum with the sign of an even degree, a its size.
  lemma LeadProduct(even: bool, t: real, a: real, k: real, p: real, o: real, q: real, g: real, g': real, go: real)
    requires 0.0 <= a && t == (if even then a else -a) && p + k * o <= q
    requires g == (if even then p else -p) && g' == (if even then q else -q) && go == (if even then -o else o)
    ensures k * -(t * go) <= t * g' - t * g
  {
    Taylor.MulMono(p + k * o, q, a);
    Taylor.DistributeSum(p + k * o, p, k * o, a);
    assert t * g' == a * q && t * g == a * p && -(t * go) == a * o;
    assert a * (k * o) == k * (a * o);
  }

  lemma {:induction false} DifferenceTotal(a: nat -> real, b: nat -> real, n: nat)
    ensures Taylor.Total(Taylor.Difference(a, b), n) == Taylor.Total(a, n) - Taylor.Total(b, n)
  {
    if n > 0 {
      DifferenceTotal(a, b, n - 1);
    }
  }

  lemma LeadsFrom(d: nat -> real, k: real, u: nat -> real, j: nat, a: real, b: real)
    requires d(j) == a && b == (if j == 0 then 0.0 else u(j - 1)) && k * b <= a
    ensures LeadsAt(d, k, u, j)
  {}

  lemma LeadScalar(
    f: nat -> real, p1: nat -> real, p2: nat -> real, g1: nat -> real, g2: nat -> real,
    h: real, k: real, gap: real, n: nat, j: nat, t: real, go: real)
    requires 0.0 <= h && 0.0 <= k && 0.0 <= gap && j <= n && n >= 1 && Taylor.Even(n) && Taylor.KeepsSign(gap, f, n)
    requires Taylor.Exponential(p1, h) && Taylor.Exponential(p2, h + k)
    requires Taylor.Exponential(g1, -h) && Taylor.Exponential(g2, -(h + k))
    requires t == Taylor.Total(f, n - j) && go == if j == 0 then 0.0 else g1(j - 1)
    ensures k * -(t * go) <= t * g2(j) - t * g1(j)
  {
    hide Taylor.Total;
    var even := Taylor.Even(j);
    assert Taylor.GapAt(gap, f, n - j);
    Parities(n, j);
    Taylor.Mirror(p1, g1, h, j);
    Taylor.Mirror(p2, g2, h + k, j);
    MonomialAhead(p1, p2, h, k, j);
    var o := 0.0;
    if j > 0 {
      Taylor.Mirror(p1, g1, h, j - 1);
      o := p1(j - 1);
    }
    LeadProduct(even, t, if even then t else -t, k, p1(j), o, p2(j), g1(j), g2(j), go);
  }

  lemma LeadTerm(
    f: nat -> real, p1: nat -> real, p2: nat -> real, g1: nat -> real, g2: nat -> real,
    h: real, k: real, gap: real, n: nat, j: nat)
    requires 0.0 <= h && 0.0 <= k && 0.0 <= gap && j <= n && n >= 1 && Taylor.Even(n) && Taylor.KeepsSign(gap, f, n)
    requires Taylor.Exponential(p1, h) && Taylor.Exponential(p2, h + k)
    requires Taylor.Exponential(g1, -h) && Taylor.Exponential(g2, -(h + k))
    ensures LeadsAt(
              Taylor.Difference(Taylor.Cross(Taylor.Sums(f), g2, n), Taylor.Cross(Taylor.Sums(f), g1, n)), k,
              Negated(Taylor.Cross(Taylor.Sums(f), g1, n - 1)), j)
  {
    hide Taylor.Total, Taylor.KeepsSign, Taylor.Exponential, Taylor.Cross, Taylor.Sums, LeadsAt;
    var t, go := Taylor.Total(f, n - j), if j == 0 then 0.0 else g1(j - 1);
    LeadScalar(f, p1, p2, g1, g2, h, k, gap, n, j, t, go);
    CrossValue(f, g1, n, j);
    CrossValue(f, g2, n, j);
    var q0 := Taylor.Cross(Taylor.Sums(f), g1, n - 1);
    if j > 0 {
      var i := j - 1;
      CrossValue(f, g1, n - 1, i);
      assert n - 1 - i == n - j;
      assert q0(i) == t * go;
    }
    var d := Taylor.Difference(Taylor.Cross(Taylor.Sums(f), g2, n), Taylor.Cross(Taylor.Sums(f), g1, n));
    var u := Negated(q0);
    var a, b := t * g2(j) - t * g1(j), -(t * go);
    assert d(j) == a;
    assert j > 0 ==> u(j - 1) == -q0(j - 1) == b;
    LeadsFrom(d, k, u, j, a, b);
  }

  lemma SlopeLeads(
    f: nat -> real, e1: nat -> real, e2: nat -> real, c: real, h: real, k: real, gap: real, n: nat)
    requires 0.0 <= h && 0.0 <= k && 0.0 <= gap && n >= 1 && Taylor.Even(n) && Taylor.KeepsSign(gap, f, n)
    requires Taylor.Exponential(f, -c)
    requires Taylor.Exponential(e1, -c + -h) && Taylor.Exponential(e2, -c + -(h + k))
    ensures k * -Taylor.Total(e1, n - 1) <= Taylor.Total(e2, n) - Taylor.Total(e1, n)
  {
    hide Taylor.Total, Taylor.KeepsSign, Taylor.Monomial, Taylor.Difference, Negated;
    var p1, p2 := Taylor.Monomials(h), Taylor.Monomials(h + k);
    var g1, g2 := Taylor.Monomials(-h), Taylor.Monomials(-(h + k));
    Taylor.MonomialsExponential(h);
    Taylor.MonomialsExponential(h + k);
    Taylor.MonomialsExponential(-h);
    Taylor.MonomialsExponential(-(h + k));
    var q1, q2 := Taylor.Cross(Taylor.Sums(f), g1, n), Taylor.Cross(Taylor.Sums(f), g2, n);
    var q0 := Taylor.Cross(Taylor.Sums(f), g1, n - 1);
    var d, u := Taylor.Difference(q2, q1), Negated(q0);
    forall j: nat | j <= n
      ensures LeadsAt(d, k, u, j)
    {
      LeadTerm(f, p1, p2, g1, g2, h, k, gap, n, j);
    }
    LeadsTotal(d, k, u, n);
    DifferenceTotal(q2, q1, n);
    NegatedTotal(q0, n - 1);
    Taylor.SumsCrossTotal(f, g1, e1, -c, -h, n);
    Taylor.SumsCrossTotal(f, g2, e2, -c, -(h + k), n);
    Taylor.SumsCrossTotal(f, g1, e1, -c, -h, n - 1);
  }

  // 1 + e^x, for x from -8.8 to -20, grows by half of itself per unit.
  lemma HalfPerUnit(z: real, k: real, gap: real, n: nat)
    requires 8.8 <= z <= 20.8 && 0.0 <= k && 0.0 <= gap && n == 20 && SteepUpTo(-8.8, n)
    requires Taylor.KeepsSign(gap, Taylor.Monomials(-8.8), n)
    ensures var x, y := Taylor.Total(Taylor.Monomials(-z), n), Taylor.Total(Taylor.Monomials(-(z + k)), n);
      k * (x / 2.0 + 1.7) <= y - x
  {
    hide Taylor.Total, Taylor.KeepsSign, Taylor.Monomial, SteepUpTo;
    var h := z - 8.8;
    assert -8.8 + -h == -z && -8.8 + -(h + k) == -(z + k);
    Taylor.MonomialsExponential(-8.8);
    Taylor.MonomialsExponential(-z);
    Taylor.MonomialsExponential(-(z + k));
    Taylor.MonomialsExponential(h);
    Taylor.MonomialsExponential(-h);
    var f, e1, e2 := Taylor.Monomials(-8.8), Taylor.Monomials(-z), Taylor.Monomials(-(z + k));
    SlopeLeads(f, e1, e2, 8.8, h, k, gap, n);
    SteepBeyond(Taylor.Monomials(-h), Taylor.Monomials(h), e1, 8.8, h, n);
    Taylor.MulMono(Taylor.Total(e1, n) / 2.0 + 1.7, -Taylor.Total(e1, n - 1), k);
  }

  // ---- The same as computed ----

  // p and q bound the rounding at both ends.
  lemma GrowArith(s: int, t: int, x: real, y: real, d: real, e: real, p: real, q: real)
    requires s as real - 10_000_000.0 * x <= d <= 317.0 * p && -e <= t as real - 10_000_000.0 * y && e <= 317.0 * q
    requires 0.0 <= p && 0.95 * p <= x && 0.95 * q <= y && 0.005 * x + 0.017 <= y - x
    ensures 205 * (SCALE + s) <= 204 * (SCALE + t)
  {
    assert s as real <= 10_000_334.0 * x;
    assert 9_999_666.0 * y <= t as real;
    assert 205.0 * (10_000_000.0 + 10_000_334.0 * x) <= 204.0 * (10_000_000.0 + 9_999_666.0 * (1.005 * x + 0.017));
  }

  lemma AboveBase(u: int, n: nat, x: real, p: real)
    requires EDGE <= u && Base(8.8, 0.95, 317.0, n) && 0.95 <= Taylor.Poly(-8.8, n)
    requires x == Taylor.Poly(-Taylor.Unscaled(u), n) && p == Taylor.Poly(Taylor.Unscaled(u) - 8.8, n)
    ensures 0.95 * p <= x
  {
    hide Base, Taylor.Poly;
    var x0, y0, d0, e0, p0, q0 := FarPair(EDGE, u, 8.8, 0.95, 317.0, n);
    Taylor.PolyTotal(8.8 - 8.8, n);
    Taylor.TotalAtZero(n);
  }

  lemma BaseKeepsSign(n: nat)
    requires Base(8.8, 0.95, 317.0, n)
    ensures Taylor.KeepsSign(0.95, Taylor.Monomials(-8.8), n) && Taylor.Even(n)
  {
    Taylor.SignsKept(-8.8, 0.95, n);
  }

  lemma SumGrows(u: int, v: int, n: nat)
    requires EDGE <= u && u + 100_000 <= v <= CAP && n == 20 && SteepUpTo(-8.8, n)
    requires Base(8.8, 0.95, 317.0, n) && 0.95 <= Taylor.Poly(-8.8, n)
    ensures 205 * (SCALE + Sum(-u, n)) <= 204 * (SCALE + Sum(-v, n))
  {
    hide Base, Sum, Taylor.Poly, Taylor.Total, SteepUpTo;
    var x, y, d, e, p, q := FarPair(u, v, 8.8, 0.95, 317.0, n);
    AboveBase(u, n, x, p);
    AboveBase(v, n, y, q);
    BaseKeepsSign(n);
    var z, k := Taylor.Unscaled(u), Taylor.Unscaled(v - u);
    assert z + k == Taylor.Unscaled(v);
    HalfPerUnit(z, k, 0.95, n);
    Taylor.PolyTotal(-z, n);
    Taylor.PolyTotal(-(z + k), n);
    Taylor.MulMono(0.01, k, x / 2.0 + 1.7);
    GrowArith(Sum(-u, n), Sum(-v, n), x, y, d, e, p, q);
  }

  // From 8.8 to 20, 1 + e^x grows by 0.5% over every 1%.
  lemma ExpGrows(u: int, v: int)
    requires EDGE <= u && u + 100_000 <= v <= CAP
    ensures Exp(-u).Ok? && Exp(-v).Ok? && 1 <= Exp(-u).value && 1 <= Exp(-v).value
    ensures 205 * (SCALE + Exp(-u).value) <= 204 * (SCALE + Exp(-v).value)
  {
    hide Base, Sum, SteepUpTo;
    ExpPositive(-u);
    ExpPositive(-v);
    BaseAtEightEight();
    Taylor.AtMinusEightEight();
    Steep();
    SumGrows(u, v, 20);
  }

  lemma NearArith(s: int, t: int, x: real, y: real, d: real, e: real, p: real, q: real)
    requires s as real - 10_000_000.0 * x <= d <= 89.0 * p && -e <= t as real - 10_000_000.0 * y && e <= 89.0 * q
    requires 0.0032 * (q - p) <= y - x && 1.0 <= p && 1.15 * p <= q
    ensures s + 4_600 <= t
  {}

  lemma SumRisesNear(u: int, v: int, n: nat)
    requires 65_000_000 <= u && u + 3_000_000 <= v <= EDGE && n >= 3 && Base(6.5, 0.0032, 89.0, n)
    ensures Sum(-u, n) + 4_600 <= Sum(-v, n)
  {
    hide Base, Sum, Taylor.Poly, Taylor.Total;
    var h, k := Taylor.Unscaled(u) - 6.5, Taylor.Unscaled(v - u);
    assert h + k == Taylor.Unscaled(v) - 6.5;
    var x, y, d, e, p, q := FarPair(u, v, 6.5, 0.0032, 89.0, n);
    AheadByHalf(h, k, n);
    Taylor.PolyTotal(h, n);
    Taylor.PolyTotal(h + k, n);
    Taylor.MulMono(0.3, k, p);
    NearArith(Sum(-u, n), Sum(-v, n), x, y, d, e, p, q);
  }

  lemma SumBelowEdge(u: int, n: nat)
    requires 65_000_000 <= u <= EDGE && Base(6.5, 0.0032, 89.0, n)
    requires Taylor.Poly(-8.8, n) <= 0.951 && Taylor.Poly(6.0, n) <= 404.0
    ensures Sum(-u, n) <= 9_546_000
  {
    hide Base, Sum, Taylor.Poly;
    PolyUpTo(8.8 - 6.5, 6.0, 404.0, n);
    BelowFar(u, n, 6.5, 0.0032, 89.0, EDGE, 8.8, 9_546_000);
  }

  // From 6.5 to 8.8 it grows by 0.00046 over every 0.3, and stays below 0.955.
  lemma ExpRisesNear(u: int, v: int)
    requires 65_000_000 <= u && u + 3_000_000 <= v <= EDGE
    ensures Exp(-u).Ok? && Exp(-v).Ok? && 1 <= Exp(-u).value && Exp(-u).value + 4_600 <= Exp(-v).value <= 9_546_000
  {
    hide Base, Sum, SlackSum;
    ExpAtMostOne(-u);
    ExpAtMostOne(-v);
    BaseAtSixFive();
    Taylor.AtSix();
    Taylor.AtMinusEightEight();
    SumRisesNear(u, v, 20);
    SumBelowEdge(v, 20);
  }
}
