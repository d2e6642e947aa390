/** The exact Taylor polynomials of the exponential, over the reals: the reference that the rounded
    integer loop is measured against. */
module Taylor {
  // A fixed-point number as the real it stands for: u / SCALE.
  ghost function Unscaled(u: int): real {
    u as real / 10_000_000.0
  }

  // z^n / n!
  function Monomial(z: real, n: nat): real {
    if n == 0 then 1.0 else Monomial(z, n - 1) * z / (n as real)
  }

  // 1 + z + ... + z^n / n!
  function Poly(z: real, n: nat): real {
    if n == 0 then 1.0 else Poly(z, n - 1) + Monomial(z, n)
  }

  function Pow(z: real, n: nat): real {
    if n == 0 then 1.0 else Pow(z, n - 1) * z
  }

  // Non-linear steps, one at a time.

  lemma MulMono(a: real, b: real, c: real)
    requires a <= b && 0.0 <= c
    ensures a * c <= b * c
  {}

  lemma Distribute(a: real, b: real, c: real)
    ensures (a + b) * c == a * c + b * c && c * (a + b) == c * a + c * b
  {}

  // The same for a sum that goes by another name.
  lemma DistributeSum(s: real, a: real, b: real, c: real)
    requires s == a + b
    ensures s * c == a * c + b * c && c * s == c * a + c * b
  {
    Distribute(a, b, c);
  }

  lemma LeCancel(a: real, b: real, c: real)
    requires c > 0.0 && c * a <= c * b
    ensures a <= b
  {}

  lemma Cancel(a: real, b: real, c: real)
    requires c > 0.0 && c * a == c * b
    ensures a == b
  {}

  // ---- Addition theorem ----

  ghost function Total(f: nat -> real, k: nat): real {
    if k == 0 then f(0) else Total(f, k - 1) + f(k)
  }

  ghost function TotalBefore(f: nat -> real, k: nat): real {
    if k == 0 then 0.0 else Total(f, k - 1)
  }

  ghost function Difference(a: nat -> real, b: nat -> real): nat -> real {
    (k: nat) => a(k) - b(k)
  }

  // f(n - j) * g(j), as a sequence in j
  ghost function Cross(f: nat -> real, g: nat -> real, n: nat): nat -> real {
    (j: nat) => if j <= n then f(n - j) * g(j) else 0.0
  }

  // f is the sequence 1, x, x^2/2!, ...; proofs use its recurrence one degree at a time.
  ghost predicate StepAt(f: nat -> real, x: real, n: nat) {
    n >= 1 ==> (n as real) * f(n) == x * f(n - 1)
  }

  ghost predicate Exponential(f: nat -> real, x: real) {
    f(0) == 1.0 && forall n: nat :: StepAt(f, x, n)
  }

  ghost predicate CrossStepAt(p: nat -> real, q: nat -> real, n: real, x: real, y: real, j: nat) {
    n * p(j) == x * q(j) + y * if j == 0 then 0.0 else q(j - 1)
  }

  lemma CrossStep(n: nat, j: nat, f: real, f': real, g: real, g': real, x: real, y: real)
    requires j <= n && ((n - j) as real) * f == x * f' && (j as real) * g == y * g'
    ensures (n as real) * (f * g) == x * (f' * g) + y * (f * g')
  {
    var a, b := (n - j) as real, j as real;
    assert n as real == a + b;
    Distribute(a, b, f * g);
    assert a * (f * g) == (a * f) * g == x * (f' * g);
    assert b * (f * g) == f * (b * g) == y * (f * g');
  }

  lemma CrossSteps(f: nat -> real, g: nat -> real, x: real, y: real, n: nat, j: nat)
    requires n >= 1 && j <= n && Exponential(f, x) && Exponential(g, y)
    ensures CrossStepAt(Cross(f, g, n), Cross(f, g, n - 1), n as real, x, y, j)
  {
    assert StepAt(f, x, n - j) && StepAt(g, y, j);
    var g' := if j == 0 then 0.0 else g(j - 1);
    var f' := if j == n then 0.0 else f(n - j - 1);
    CrossStep(n, j, f(n - j), f', g(j), g', x, y);
  }

  lemma {:induction false} TotalStep(p: nat -> real, q: nat -> real, n: real, x: real, y: real, k: nat)
    requires forall j: nat | j <= k :: CrossStepAt(p, q, n, x, y, j)
    ensures n * Total(p, k) == x * Total(q, k) + y * TotalBefore(q, k)
  {
    assert CrossStepAt(p, q, n, x, y, k);
    if k > 0 {
      TotalStep(p, q, n, x, y, k - 1);
      DistributeSum(Total(p, k), Total(p, k - 1), p(k), n);
      DistributeSum(Total(q, k), Total(q, k - 1), q(k), x);
      DistributeSum(TotalBefore(q, k), TotalBefore(q, k - 1), q(k - 1), y);
    }
  }

  lemma CancelSum(a: real, b: real, n: real, x: real, y: real, t: real)
    requires n > 0.0 && n * a == x * t + y * t && n * b == (x + y) * t
    ensures a == b
  {
    Distribute(x, y, t);
    Cancel(a, b, n);
  }

  // Binomial theorem.
  lemma {:induction false} CrossTotal(f: nat -> real, g: nat -> real, h: nat -> real, x: real, y: real, n: nat)
    requires Exponential(f, x) && Exponential(g, y) && Exponential(h, x + y)
    ensures Total(Cross(f, g, n), n) == h(n)
  {
    if n > 0 {
      var p, q, r := Cross(f, g, n), Cross(f, g, n - 1), n as real;
      CrossTotal(f, g, h, x, y, n - 1);
      forall j: nat | j <= n
        ensures CrossStepAt(p, q, r, x, y, j)
      {
        CrossSteps(f, g, x, y, n, j);
      }
      TotalStep(p, q, r, x, y, n);
      assert Total(q, n) == Total(q, n - 1) == TotalBefore(q, n) == h(n - 1);
      assert StepAt(h, x + y, n);
      CancelSum(Total(p, n), h(n), r, x, y, h(n - 1));
    }
  }

  ghost function Sums(f: nat -> real): nat -> real {
    (n: nat) => Total(f, n)
  }

  lemma {:induction false} SumsCross(f: nat -> real, g: nat -> real, n: nat, k: nat)
    requires n >= 1 && k <= n
    ensures Total(Cross(Sums(f), g, n), k) == Total(Cross(Sums(f), g, n - 1), k) + Total(Cross(f, g, n), k)
  {
    var F, G := Cross(Sums(f), g, n), Cross(Sums(f), g, n - 1);
    assert F(k) == G(k) + Cross(f, g, n)(k) by {
      if k < n {
        DistributeSum(Total(f, n - k), Total(f, n - 1 - k), f(n - k), g(k));
      }
    }
    if k > 0 {
      SumsCross(f, g, n, k - 1);
    }
  }

  // The same for partial sums: sum of F(n - j) * g(j) is the partial sum for x + y.
  lemma {:induction false} SumsCrossTotal(f: nat -> real, g: nat -> real, h: nat -> real, x: real, y: real, n: nat)
    requires Exponential(f, x) && Exponential(g, y) && Exponential(h, x + y)
    ensures Total(Cross(Sums(f), g, n), n) == Total(h, n)
  {
    CrossTotal(f, g, h, x, y, n);
    if n > 0 {
      SumsCrossTotal(f, g, h, x, y, n - 1);
      SumsCross(f, g, n, n);
      assert Cross(Sums(f), g, n - 1)(n) == 0.0;
    }
  }

  ghost function Monomials(z: real): nat -> real {
    (n: nat) => Monomial(z, n)
  }

  lemma MonomialsExponential(z: real)
    ensures Exponential(Monomials(z), z)
  {
    forall n: nat
      ensures StepAt(Monomials(z), z, n)
    {
    }
  }

  lemma {:induction false} PolyTotal(z: real, n: nat)
    ensures Poly(z, n) == Total(Monomials(z), n)
  {
    if n > 0 {
      PolyTotal(z, n - 1);
    }
  }

  // ---- Separators: a value between all odd and all even partial sums, up to degree 20 ----

  predicate Even(n: nat) {
    n % 2 == 0
  }

  // u below v in an even position, above it in an odd one.
  ghost predicate Sided(even: bool, u: real, v: real) {
    if even then u <= v else v <= u
  }

  ghost predicate SeparatesAt(t: real, f: nat -> real, m: nat) {
    Sided(Even(m), t, Total(f, m))
  }

  ghost predicate Separates(t: real, f: nat -> real, top: nat) {
    forall m: nat | m <= top :: SeparatesAt(t, f, m)
  }

  // Signs of 1, -z, z^2/2!, ...
  ghost predicate Alternating(g: nat -> real) {
    forall m: nat :: Sided(Even(m), 0.0, g(m))
  }

  lemma SidedProduct(even: bool, evenTerm: bool, t: real, a: real, b: real)
    requires Sided(evenTerm, 0.0, b) && Sided(even == evenTerm, t, a)
    ensures Sided(even, t * b, a * b)
  {
    if b >= 0.0 {
      if t <= a { MulMono(t, a, b); } else { MulMono(a, t, b); }
    } else {
      if t <= a { MulMono(t, a, -b); } else { MulMono(a, t, -b); }
    }
  }

  lemma EvenDifference(n: nat, k: nat)
    requires k <= n
    ensures Even(n - k) <==> (Even(n) == Even(k))
  {}

  lemma BlendTerm(f: nat -> real, g: nat -> real, t: real, n: nat, k: nat, top: nat)
    requires k <= n <= top && Separates(t, f, top) && Alternating(g)
    ensures Sided(Even(n), t * g(k), Cross(Sums(f), g, n)(k))
  {
    assert SeparatesAt(t, f, n - k);
    EvenDifference(n, k);
    SidedProduct(Even(n), Even(k), t, Total(f, n - k), g(k));
  }

  lemma SidedAdd(even: bool, t: real, a: real, b: real, s: real, x: real, y: real, z: real)
    requires s == a + b && z == x + y && Sided(even, t * a, x) && Sided(even, t * b, y)
    ensures Sided(even, t * s, z)
  {
    DistributeSum(s, a, b, t);
  }

  ghost predicate SidedAt(even: bool, t: real, g: nat -> real, x: nat -> real, j: nat) {
    Sided(even, t * g(j), x(j))
  }

  lemma {:induction false} SidedTotals(even: bool, t: real, g: nat -> real, x: nat -> real, k: nat)
    requires forall j: nat | j <= k :: SidedAt(even, t, g, x, j)
    ensures Sided(even, t * Total(g, k), Total(x, k))
  {
    assert SidedAt(even, t, g, x, k);
    if k > 0 {
      SidedTotals(even, t, g, x, k - 1);
      SidedAdd(even, t, Total(g, k - 1), g(k), Total(g, k), Total(x, k - 1), x(k), Total(x, k));
    }
  }

  lemma BlendBound(f: nat -> real, g: nat -> real, t: real, n: nat, top: nat)
    requires n <= top && Separates(t, f, top) && Alternating(g)
    ensures Sided(Even(n), t * Total(g, n), Total(Cross(Sums(f), g, n), n))
  {
    var x, even := Cross(Sums(f), g, n), Even(n);
    forall j: nat | j <= n
      ensures SidedAt(even, t, g, x, j)
    {
      BlendTerm(f, g, t, n, j, top);
    }
    SidedTotals(even, t, g, x, n);
  }

  lemma SeparatorAt(even: bool, t: real, s: real, g: real, r: real, h: real)
    requires 0.0 <= t && r == t * s && Sided(even, s, g) && Sided(even, t * g, h)
    ensures Sided(even, r, h)
  {
    SidedProduct(even, true, s, g, t);
  }

  // Separators multiply as exponentials do.
  lemma SeparatorsMultiply(
    f: nat -> real, g: nat -> real, h: nat -> real, x: real, y: real, t: real, s: real, r: real, top: nat)
    requires Exponential(f, x) && Exponential(g, y) && Exponential(h, x + y)
    requires Separates(t, f, top) && Separates(s, g, top) && Alternating(g) && 0.0 <= t && r == t * s
    ensures Separates(r, h, top)
  {
    forall m: nat | m <= top
      ensures SeparatesAt(r, h, m)
    {
      BlendBound(f, g, t, m, top);
      SumsCrossTotal(f, g, h, x, y, m);
      assert SeparatesAt(s, g, m);
      SeparatorAt(Even(m), t, s, Total(g, m), r, Total(h, m));
    }
  }

  lemma SignStep(n: real, z: real, p: real, q: real, p': real, q': real)
    requires n > 0.0 && 0.0 <= z && 0.0 <= p && n * q == z * p && n * q' == -z * p'
    ensures 0.0 <= q
    ensures p' == p ==> q' == -q
    ensures p' == -p ==> q' == q
  {
    assert -z * -p == z * p && -z * p == -(z * p);
    MulMono(0.0, z, p);
    if q < 0.0 {
      MulMono(0.0, -q, n);
    }
    if p' == p {
      Cancel(q', -q, n);
    }
    if p' == -p {
      Cancel(q', q, n);
    }
  }

  lemma {:induction false} Mirror(f: nat -> real, g: nat -> real, z: real, n: nat)
    requires 0.0 <= z && Exponential(f, z) && Exponential(g, -z)
    ensures 0.0 <= f(n) && g(n) == if Even(n) then f(n) else -f(n)
  {
    if n > 0 {
      Mirror(f, g, z, n - 1);
      assert StepAt(f, z, n) && StepAt(g, -z, n);
      SignStep(n as real, z, f(n - 1), f(n), g(n - 1), g(n));
    }
  }

  lemma MonomialsAlternate(z: real)
    requires 0.0 <= z
    ensures Alternating(Monomials(-z))
  {
    MonomialsExponential(z);
    MonomialsExponential(-z);
    forall m: nat
      ensures Sided(Even(m), 0.0, Monomials(-z)(m))
    {
      Mirror(Monomials(z), Monomials(-z), z, m);
    }
  }

  // ---- A separator at -h for 0 <= h <= 1: the degree-20 sum itself ----

  lemma Shrinks(h: real, p: real, q: real, r: real)
    requires 0.0 <= h <= 1.0 && r >= 1.0 && 0.0 <= p && r * q == -(h * p)
    ensures 0.0 <= p + q
  {
    MulMono(h, 1.0, p);
    if q < 0.0 {
      MulMono(1.0, r, -q);
      assert r * -q == h * p;
    }
  }

  lemma NeighbourPair(g: nat -> real, h: real, n: nat)
    requires 0.0 <= h <= 1.0 && n >= 1 && Exponential(g, -h) && Alternating(g)
    ensures Sided(!Even(n), 0.0, g(n - 1) + g(n))
  {
    assert StepAt(g, -h, n) && Sided(Even(n - 1), 0.0, g(n - 1)) && Sided(Even(n), 0.0, g(n));
    var p, q, r := g(n - 1), g(n), n as real;
    assert -h * p == -(h * p);
    if Even(n - 1) {
      Shrinks(h, p, q, r);
    } else {
      assert r * -q == -(r * q) && h * -p == -(h * p);
      Shrinks(h, -p, -q, r);
    }
  }

  lemma {:induction false} SumsNest(g: nat -> real, h: real, m: nat, top: nat)
    requires 0.0 <= h <= 1.0 && m <= top && Even(top) && Exponential(g, -h) && Alternating(g)
    ensures SeparatesAt(Total(g, top), g, m)
    decreases top - m
  {
    if m == top - 1 {
      assert Sided(Even(top), 0.0, g(top));
    } else if m < top {
      SumsNest(g, h, m + 2, top);
      NeighbourPair(g, h, m + 2);
      assert Total(g, m + 2) == Total(g, m) + (g(m + 1) + g(m + 2));
    }
  }

  lemma LowDegree(f: nat -> real, z: real)
    requires Exponential(f, z)
    ensures Total(f, 2) == 1.0 + z + z * z / 2.0
    ensures Total(f, 3) == 1.0 + z + z * z / 2.0 + z * (z * z) / 6.0
  {
    assert StepAt(f, z, 1) && StepAt(f, z, 2) && StepAt(f, z, 3);
    assert f(1) == z;
    assert f(2) == z * z / 2.0;
    assert 3.0 * f(3) == z * (z * z / 2.0);
    assert Total(f, 0) == 1.0 && Total(f, 1) == 1.0 + z;
  }

  lemma Cubic(h: real)
    requires 0.0 <= h <= 1.0
    ensures 1.0 / 3.0 <= 1.0 + -h + -h * -h / 2.0 + -h * (-h * -h) / 6.0
    ensures -h * -h == h * h
  {
    var g, q := 1.0 - h, h * h;
    assert -h * -h == q && -h * q == -(h * q);
    MulMono(h, 1.0, q);
    assert 0.0 <= g * g == 1.0 - 2.0 * h + q;
  }

  lemma UnitSeparator(g: nat -> real, h: real, top: nat)
    requires 0.0 <= h <= 1.0 && Even(top) && top >= 3 && Exponential(g, -h) && Alternating(g)
    ensures var s := Total(g, top);
      Separates(s, g, top) && 1.0 / 3.0 <= s <= 1.0 - h + h * h / 2.0
  {
    var s := Total(g, top);
    forall m: nat | m <= top
      ensures SeparatesAt(s, g, m)
    {
      SumsNest(g, h, m, top);
    }
    LowDegree(g, -h);
    Cubic(h);
    assert SeparatesAt(s, g, 2) && SeparatesAt(s, g, 3);
  }

  lemma MulBoth(a: real, b: real, c: real, d: real)
    requires 0.0 <= a <= b && 0.0 <= c <= d
    ensures 0.0 <= a * c <= b * d
  {
    MulMono(a, b, c);
    MulMono(c, d, b);
  }

  lemma {:induction false} PowBounds(s: real, high: real, k: nat)
    requires 0.0 <= s <= high
    ensures 0.0 <= Pow(s, k) <= Pow(high, k)
  {
    if k > 0 {
      PowBounds(s, high, k - 1);
      MulBoth(Pow(s, k - 1), Pow(high, k - 1), s, high);
    }
  }

  ghost function StepsBack(h: real, k: nat): real {
    if k == 0 then 0.0 else StepsBack(h, k - 1) + -h
  }

  lemma SeparatorNext(s: real, g: nat -> real, h: real, k: nat, top: nat)
    requires k >= 2 && 0.0 <= s && Exponential(g, -h) && Alternating(g) && Separates(s, g, top)
    requires Separates(Pow(s, k - 1), Monomials(StepsBack(h, k - 1)), top)
    ensures Separates(Pow(s, k), Monomials(StepsBack(h, k)), top)
  {
    var x, y, t := StepsBack(h, k - 1), StepsBack(h, k), Pow(s, k - 1);
    MonomialsExponential(x);
    MonomialsExponential(y);
    PowBounds(s, s, k - 1);
    SeparatorsMultiply(Monomials(x), g, Monomials(y), x, -h, t, s, Pow(s, k), top);
  }

  // k steps of length h <= 1 below 0 carry the k-th power of the separator.
  lemma {:induction false} SeparatorPower(h: real, k: nat, top: nat)
    requires 0.0 <= h <= 1.0 && k >= 1 && Even(top) && top >= 3
    ensures Separates(Pow(Total(Monomials(-h), top), k), Monomials(StepsBack(h, k)), top)
  {
    var g := Monomials(-h);
    var s := Total(g, top);
    MonomialsExponential(-h);
    MonomialsAlternate(h);
    UnitSeparator(g, h, top);
    if k == 1 {
      assert StepsBack(h, 0) == 0.0 && StepsBack(h, 1) == -h;
      assert Pow(s, 0) == 1.0 && Pow(s, 1) == s;
    } else {
      SeparatorPower(h, k - 1, top);
      SeparatorNext(s, g, h, k, top);
    }
  }

  // ---- Growth below a point where every sum keeps its sign ----

  // The sum at f is at least `gap` in even degrees and at most -gap in odd ones.
  ghost predicate GapAt(gap: real, f: nat -> real, m: nat) {
    Sided(Even(m), if Even(m) then gap else -gap, Total(f, m))
  }

  ghost predicate KeepsSign(gap: real, f: nat -> real, top: nat) {
    forall m: nat | m <= top :: GapAt(gap, f, m)
  }

  lemma GrowthProduct(even: bool, gap: real, t: real, p: real, g: real)
    requires 0.0 <= p && g == (if even then p else -p) && (if even then gap <= t else t <= -gap)
    ensures gap * p <= t * g
  {
    if even {
      MulMono(gap, t, p);
    } else {
      MulMono(gap, -t, p);
      assert t * g == -t * p;
    }
  }

  // q2 - q1 is at least a times p2 - p1 at j.
  ghost predicate OutgrowsAt(
    a: real, p1: nat -> real, p2: nat -> real, q1: nat -> real, q2: nat -> real, j: nat) {
    a * (p2(j) - p1(j)) <= q2(j) - q1(j)
  }

  lemma {:induction false} TotalMonotone(f: nat -> real, f': nat -> real, z: real, z': real, n: nat)
    requires 0.0 <= z <= z' && Exponential(f, z) && Exponential(f', z')
    ensures 0.0 <= f(n) <= f'(n) && Total(f, n) <= Total(f', n)
  {
    if n > 0 {
      TotalMonotone(f, f', z, z', n - 1);
      assert StepAt(f, z, n) && StepAt(f', z', n);
      MulBoth(z, z', f(n - 1), f'(n - 1));
      LeCancel(0.0, f(n), n as real);
      LeCancel(f(n), f'(n), n as real);
    }
  }

  lemma GrowthTerm(
    f: nat -> real, p1: nat -> real, p2: nat -> real, g1: nat -> real, g2: nat -> real,
    h1: real, h2: real, gap: real, k: nat, top: nat)
    requires 0.0 <= h1 <= h2 && 0.0 <= gap && k <= top && Even(top) && KeepsSign(gap, f, top)
    requires Exponential(p1, h1) && Exponential(p2, h2) && Exponential(g1, -h1) && Exponential(g2, -h2)
    ensures OutgrowsAt(gap, p1, p2, Cross(Sums(f), g1, top), Cross(Sums(f), g2, top), k)
  {
    hide Exponential, Total;
    var t := Total(f, top - k);
    EvenDifference(top, k);
    Mirror(p1, g1, h1, k);
    Mirror(p2, g2, h2, k);
    TotalMonotone(p1, p2, h1, h2, k);
    assert GapAt(gap, f, top - k);
    hide KeepsSign, GapAt;
    var g := g2(k) - g1(k);
    GrowthProduct(Even(k), gap, t, p2(k) - p1(k), g);
    DistributeSum(g2(k), g, g1(k), t);
  }

  lemma {:induction false} TotalsOutgrow(
    a: real, p1: nat -> real, p2: nat -> real, q1: nat -> real, q2: nat -> real, k: nat)
    requires forall j: nat | j <= k :: OutgrowsAt(a, p1, p2, q1, q2, j)
    ensures a * (Total(p2, k) - Total(p1, k)) <= Total(q2, k) - Total(q1, k)
  {
    assert OutgrowsAt(a, p1, p2, q1, q2, k);
    if k > 0 {
      TotalsOutgrow(a, p1, p2, q1, q2, k - 1);
      var d := Total(p2, k) - Total(p1, k);
      DistributeSum(d, Total(p2, k - 1) - Total(p1, k - 1), p2(k) - p1(k), a);
    }
  }

  // Going from h1 to h2 below -c adds at least gap times what it adds at +h1.
  lemma SumsGrow(
    f: nat -> real, p1: nat -> real, p2: nat -> real, e1: nat -> real, e2: nat -> real,
    c: real, h1: real, h2: real, gap: real, top: nat)
    requires 0.0 <= h1 <= h2 && 0.0 <= gap && Even(top) && KeepsSign(gap, f, top) && Exponential(f, -c)
    requires Exponential(p1, h1) && Exponential(p2, h2) && Exponential(e1, -c + -h1) && Exponential(e2, -c + -h2)
    ensures gap * (Total(p2, top) - Total(p1, top)) <= Total(e2, top) - Total(e1, top)
  {
    hide Total, KeepsSign, Monomial;
    var g1, g2 := Monomials(-h1), Monomials(-h2);
    MonomialsExponential(-h1);
    MonomialsExponential(-h2);
    var q1, q2 := Cross(Sums(f), g1, top), Cross(Sums(f), g2, top);
    forall j: nat | j <= top
      ensures OutgrowsAt(gap, p1, p2, q1, q2, j)
    {
      GrowthTerm(f, p1, p2, g1, g2, h1, h2, gap, j, top);
    }
    TotalsOutgrow(gap, p1, p2, q1, q2, top);
    SumsCrossTotal(f, g1, e1, -c, -h1, top);
    SumsCrossTotal(f, g2, e2, -c, -h2, top);
  }

  lemma NonNegative(f: nat -> real, z: real, n: nat)
    requires 0.0 <= z && Exponential(f, z)
    ensures 0.0 <= f(n)
  {
    MonomialsExponential(-z);
    Mirror(f, Monomials(-z), z, n);
  }

  lemma {:induction false} TotalGrows(f: nat -> real, z: real, n: nat, m: nat)
    requires 0.0 <= z && Exponential(f, z) && n <= m
    ensures 1.0 <= Total(f, n) <= Total(f, m)
  {
    NonNegative(f, z, m);
    if n < m {
      TotalGrows(f, z, n, m - 1);
    } else if n > 0 {
      TotalGrows(f, z, n - 1, n - 1);
    }
  }

  ghost predicate AtMostScaled(a: real, p: nat -> real, q: nat -> real, j: nat) {
    q(j) <= a * p(j)
  }

  lemma {:induction false} TotalAtMostScaled(a: real, p: nat -> real, q: nat -> real, k: nat)
    requires forall j: nat | j <= k :: AtMostScaled(a, p, q, j)
    ensures Total(q, k) <= a * Total(p, k)
  {
    assert AtMostScaled(a, p, q, k);
    if k > 0 {
      TotalAtMostScaled(a, p, q, k - 1);
      DistributeSum(Total(p, k), Total(p, k - 1), p(k), a);
    }
  }

  ghost predicate BoundedBy(F: nat -> real, t: real, n: nat) {
    forall m: nat | m <= n :: F(m) <= t
  }

  lemma CrossTermAtMost(F: nat -> real, p: nat -> real, n: nat, t: real, j: nat)
    requires j <= n && 0.0 <= p(j) && F(n - j) <= t
    ensures AtMostScaled(t, p, Cross(F, p, n), j)
  {
    MulMono(F(n - j), t, p(j));
  }

  lemma CrossAtMost(F: nat -> real, p: nat -> real, n: nat, t: real)
    requires BoundedBy(F, t, n) && forall j: nat | j <= n :: 0.0 <= p(j)
    ensures Total(Cross(F, p, n), n) <= t * Total(p, n)
  {
    var q := Cross(F, p, n);
    forall j: nat | j <= n
      ensures AtMostScaled(t, p, q, j)
    {
      CrossTermAtMost(F, p, n, t, j);
    }
    TotalAtMostScaled(t, p, q, n);
  }

  // ---- Sums at given points, computed ----

  predicate SignAt(c: real, gap: real, n: nat) {
    if Even(n) then gap <= Poly(c, n) else Poly(c, n) <= -gap
  }

  predicate SignsUpTo(c: real, gap: real, n: nat) {
    SignAt(c, gap, n) && (n > 0 ==> SignsUpTo(c, gap, n - 1))
  }

  lemma {:induction false} SignsBelow(c: real, gap: real, n: nat, m: nat)
    requires SignsUpTo(c, gap, n) && m <= n
    ensures SignAt(c, gap, m)
  {
    if m < n {
      SignsBelow(c, gap, n - 1, m);
    }
  }

  lemma SignsKept(c: real, gap: real, top: nat)
    requires SignsUpTo(c, gap, top)
    ensures KeepsSign(gap, Monomials(c), top)
  {
    var f := Monomials(c);
    forall m: nat | m <= top
      ensures GapAt(gap, f, m)
    {
      SignsBelow(c, gap, top, m);
      PolyTotal(c, m);
    }
  }

  lemma AtOne()
    ensures Monomial(1.0, 5) == 1.0 / 120.0 && Poly(1.0, 5) == 163.0 / 60.0
    ensures Monomial(1.0, 10) == 1.0 / 3628800.0 && Poly(1.0, 10) == 9864101.0 / 3628800.0
    ensures Monomial(1.0, 15) == 1.0 / 1307674368000.0 && Poly(1.0, 15) == 888656868019.0 / 326918592000.0
    ensures Monomial(1.0, 20) == 1.0 / 2432902008176640000.0
    ensures Poly(1.0, 20) == 6613313319248080001.0 / 2432902008176640000.0
  {}

  lemma AtSix()
    ensures Monomial(6.0, 5) == 324.0 / 5.0 && Poly(6.0, 5) == 899.0 / 5.0
    ensures Monomial(6.0, 10) == 2916.0 / 175.0 && Poly(6.0, 10) == 67591.0 / 175.0
    ensures Monomial(6.0, 15) == 314928.0 / 875875.0 && Poly(6.0, 15) == 50453329.0 / 125125.0
    ensures Monomial(6.0, 20) == 2125764.0 / 1414538125.0 && Poly(6.0, 20) == 570664578739.0 / 1414538125.0
  {}

  lemma AtMinusFive()
    ensures Monomial(-5.0, 5) == -625.0 / 24.0 && Poly(-5.0, 5) == -37.0 / 3.0
    ensures Monomial(-5.0, 10) == 390625.0 / 145152.0 && Poly(-5.0, 10) == 125417.0 / 145152.0
    ensures Monomial(-5.0, 15) == -244140625.0 / 10461394944.0 && Poly(-5.0, 15) == 5855137.0 / 5230697472.0
    ensures Monomial(-5.0, 20) == 152587890625.0 / 3892643213082624.0
    ensures Poly(-5.0, 20) == 26257980879929.0 / 3892643213082624.0
  {}

  lemma AtMinusSixTwo()
    ensures Monomial(-6.2, 5) == -28629151.0 / 375000.0 && Poly(-6.2, 5) == -7589563.0 / 187500.0
    ensures Monomial(-6.2, 10) == 819628286980801.0 / 35437500000000.0
    ensures Poly(-6.2, 10) == 301725931349501.0 / 35437500000000.0
    ensures Monomial(-6.2, 15) == -23465261991844685929951.0 / 39907054687500000000000.0
    ensures Poly(-6.2, 15) == -409631872310058166711.0 / 2494190917968750000000.0
    ensures Monomial(-6.2, 20) == 671790528819082282036142601601.0 / 232019615953125000000000000000000.0
    ensures Poly(-6.2, 20) == 89323419729951894217676559143.0 / 33145659421875000000000000000000.0
  {}

  lemma AtMinusSixFive()
    ensures Monomial(-6.5, 5) == -371293.0 / 3840.0 && Poly(-6.5, 5) == -201443.0 / 3840.0
    ensures Monomial(-6.5, 10) == 137858491849.0 / 3715891200.0 && Poly(-6.5, 10) == 52301621549.0 / 3715891200.0
    ensures Monomial(-6.5, 15) == -3937376385699289.0 / 3296144130048000.0
    ensures Poly(-6.5, 15) == -1147008393794539.0 / 3296144130048000.0
    ensures Monomial(-6.5, 20) == 1461920290375446110677.0 / 196237127394294497280000.0
    ensures Poly(-6.5, 20) == 58501085684464484407.0 / 17839738854026772480000.0
  {}

  lemma SignsAtMinusSixFiveLow()
    ensures SignsUpTo(-6.5, 0.0032, 10)
  {
    AtMinusSixFive();
    assert SignsUpTo(-6.5, 0.0032, 5);
  }

  lemma SignsAtMinusSixFive()
    ensures SignsUpTo(-6.5, 0.0032, 20)
  {
    AtMinusSixFive();
    SignsAtMinusSixFiveLow();
    assert SignsUpTo(-6.5, 0.0032, 15);
  }

  lemma AtMinusSeven()
    ensures Monomial(-7.0, 5) == -16807.0 / 120.0 && Poly(-7.0, 5) == -4721.0 / 60.0
    ensures Monomial(-7.0, 10) == 40353607.0 / 518400.0 && Poly(-7.0, 10) == 5345009.0 / 172800.0
    ensures Monomial(-7.0, 15) == -96889010407.0 / 26687232000.0 && Poly(-7.0, 15) == -7462966003.0 / 6671808000.0
    ensures Monomial(-7.0, 20) == 1628413597910449.0 / 49651061391360000.0
    ensures Poly(-7.0, 20) == 41452650949139.0 / 4513732853760000.0
  {}

  lemma AtEight()
    ensures Monomial(8.0, 5) == 4096.0 / 15.0 && Poly(8.0, 5) == 8551.0 / 15.0
    ensures Monomial(8.0, 10) == 4194304.0 / 14175.0 && Poly(8.0, 10) == 3830591.0 / 1575.0
    ensures Monomial(8.0, 15) == 17179869184.0 / 638512875.0 && Poly(8.0, 15) == 171610301129.0 / 58046625.0
    ensures Monomial(8.0, 20) == 4398046511104.0 / 9280784638125.0
    ensures Poly(8.0, 20) == 27663029411862709.0 / 9280784638125.0
  {}

  lemma AtMinusEightEight()
    ensures Monomial(-8.8, 5) == -20614528.0 / 46875.0 && Poly(-8.8, 5) == -12776353.0 / 46875.0
    ensures Monomial(-8.8, 10) == 106239691165696.0 / 138427734375.0
    ensures Poly(-8.8, 10) == 16097962276457.0 / 46142578125.0
    ensures Monomial(-8.8, 15) == -199098280749690257408.0 / 1771442413330078125.0
    ensures Poly(-8.8, 15) == -71659845656801091383.0 / 1771442413330078125.0
    ensures Monomial(-8.8, 20) == 256519817704146925166526464.0 / 80462235867977142333984375.0
    ensures Poly(-8.8, 20) == 76510177680255811529065739.0 / 80462235867977142333984375.0
  {}

  lemma SignsAtMinusEightEightLow()
    ensures SignsUpTo(-8.8, 0.95, 10)
  {
    AtMinusEightEight();
    assert SignsUpTo(-8.8, 0.95, 5);
  }

  lemma SignsAtMinusEightEight()
    ensures SignsUpTo(-8.8, 0.95, 20)
  {
    AtMinusEightEight();
    SignsAtMinusEightEightLow();
    assert SignsUpTo(-8.8, 0.95, 15);
  }

  lemma AtMinusEightEightFour()
    ensures Monomial(-8.84, 5) == -527182965101.0 / 1171875000.0 && Poly(-8.84, 5) == -40915609997.0 / 146484375.0
    ensures Monomial(-8.84, 10) == 277921878692682183940201.0 / 346069335937500000000.0
    ensures Poly(-8.84, 10) == 126656491960449111401201.0 / 346069335937500000000.0
    ensures Monomial(-8.84, 15) == -11270436928896048252325495881071177.0 / 93682050704956054687500000000000.0
    ensures Poly(-8.84, 15) == -290602770977858577575125986116593.0 / 6691575050354003906250000000000.0
    ensures Monomial(-8.84, 20)
      == 349504844597601589662501408068427385346352581.0 / 100122691690921783447265625000000000000000000.0
    ensures Poly(-8.84, 20)
      == 104577484673715653806135529795144032418759581.0 / 100122691690921783447265625000000000000000000.0
  {}

  lemma AtMinusNine()
    ensures Monomial(-9.0, 5) == -19683.0 / 40.0 && Poly(-9.0, 5) == -3077.0 / 10.0
    ensures Monomial(-9.0, 10) == 43046721.0 / 44800.0 && Poly(-9.0, 10) == 19813921.0 / 44800.0
    ensures Monomial(-9.0, 15) == -282429536481.0 / 1793792000.0 && Poly(-9.0, 15) == -3966985181.0 / 68992000.0
    ensures Monomial(-9.0, 20) == 1853020188851841.0 / 370812682240000.0
    ensures Poly(-9.0, 20) == 80212617722863.0 / 52973240320000.0
  {}

  lemma AtMinusTwelveFive()
    ensures Monomial(-12.5, 5) == -1953125.0 / 768.0 && Poly(-12.5, 5) == -1370707.0 / 768.0
    ensures Monomial(-12.5, 10) == 3814697265625.0 / 148635648.0 && Poly(-12.5, 10) == 2076173928173.0 / 148635648.0
    ensures Monomial(-12.5, 15) == -7450580596923828125.0 / 342798989524992.0
    ensures Poly(-12.5, 15) == -255277771248731291.0 / 26369153040384.0
    ensures Monomial(-12.5, 20) == 14551915228366851806640625.0 / 4081732249801325543424.0
    ensures Poly(-12.5, 20) == 4194406364306381059661.0 / 3118206455157620736.0
  {}

  lemma AtMinusTwelveSeven()
    ensures Monomial(-12.7, 5) == -33038369407.0 / 12000000.0 && Poly(-12.7, 5) == -23300563357.0 / 12000000.0
    ensures Monomial(-12.7, 10) == 1091533853073393531649.0 / 36288000000000000.0
    ensures Poly(-12.7, 10) == 66497328707913234661.0 / 4032000000000000.0
    ensures Monomial(-12.7, 15) == -36062498658084837781704007862143.0 / 1307674368000000000000000000.0
    ensures Poly(-12.7, 15) == -16206663914518124235956228787793.0 / 1307674368000000000000000000.0
    ensures Monomial(-12.7, 20)
      == 1191446152405248657777607437681912764659201.0 / 243290200817664000000000000000000000000.0
    ensures Poly(-12.7, 20)
      == 454039507590273373746962928089283910068601.0 / 243290200817664000000000000000000000000.0
  {}

  lemma AtMinusThirteen()
    ensures Monomial(-13.0, 5) == -371293.0 / 120.0 && Poly(-13.0, 5) == -32966.0 / 15.0
    ensures Monomial(-13.0, 10) == 137858491849.0 / 3628800.0 && Poly(-13.0, 10) == 25467437803.0 / 1209600.0
    ensures Monomial(-13.0, 15) == -3937376385699289.0 / 100590336000.0
    ensures Poly(-13.0, 15) == -896310926045627.0 / 50295168000.0
    ensures Monomial(-13.0, 20) == 1461920290375446110677.0 / 187146308321280000.0
    ensures Poly(-13.0, 20) == 565279130187993532237.0 / 187146308321280000.0
  {}

  // ---- The degree-20 sum is positive at -z for all z >= 0, by more than rounding takes away ----

  lemma SevenSteps(h: real)
    ensures StepsBack(h, 7) == -(7.0 * h)
  {
    assert StepsBack(h, 1) == -h;
    assert StepsBack(h, 2) == -h + -h;
    assert StepsBack(h, 3) == -h + -h + -h;
    assert StepsBack(h, 4) == -h + -h + -h + -h;
    assert StepsBack(h, 5) == -h + -h + -h + -h + -h;
    assert StepsBack(h, 6) == -h + -h + -h + -h + -h + -h;
  }

  lemma EightSteps(h: real)
    ensures StepsBack(h, 8) == -(8.0 * h)
  {
    assert StepsBack(h, 1) == -h;
    assert StepsBack(h, 2) == -h + -h;
    assert StepsBack(h, 3) == -h + -h + -h;
    assert StepsBack(h, 4) == -h + -h + -h + -h;
    assert StepsBack(h, 5) == -h + -h + -h + -h + -h;
    assert StepsBack(h, 6) == -h + -h + -h + -h + -h + -h;
    assert StepsBack(h, 7) == -h + -h + -h + -h + -h + -h + -h;
  }

  lemma ThirdToTheSeventh(s: real)
    requires 1.0 / 3.0 <= s
    ensures 1.0 / 2187.0 <= Pow(s, 7)
  {
    PowBounds(1.0 / 3.0, s, 7);
    assert Pow(1.0 / 3.0, 4) == 1.0 / 81.0;
  }

  lemma PositiveNear(z: real, top: nat)
    requires 0.0 <= z <= 7.0 && Even(top) && top >= 3
    ensures 1.0 / 2187.0 <= Total(Monomials(-z), top)
  {
    var h := z / 7.0;
    var g := Monomials(-h);
    MonomialsExponential(-h);
    MonomialsAlternate(h);
    UnitSeparator(g, h, top);
    SeparatorPower(h, 7, top);
    SevenSteps(h);
    assert SeparatesAt(Pow(Total(g, top), 7), Monomials(-z), top);
    ThirdToTheSeventh(Total(g, top));
  }

  // Beyond a point -c where all sums keep their sign, the sums at -z rise with z.
  lemma RisesBelow(c: real, z: real, w: real, gap: real, top: nat)
    requires 0.0 <= c <= z <= w && 0.0 <= gap && Even(top) && KeepsSign(gap, Monomials(-c), top)
    ensures gap * (Total(Monomials(w - c), top) - Total(Monomials(z - c), top))
      <= Total(Monomials(-w), top) - Total(Monomials(-z), top)
    ensures 1.0 <= Total(Monomials(z - c), top) <= Total(Monomials(w - c), top)
  {
    hide Total, KeepsSign, Monomial;
    assert -c + -(z - c) == -z && -c + -(w - c) == -w;
    MonomialsExponential(-c);
    MonomialsExponential(-z);
    MonomialsExponential(-w);
    MonomialsExponential(z - c);
    MonomialsExponential(w - c);
    SumsGrow(
      Monomials(-c), Monomials(z - c), Monomials(w - c), Monomials(-z), Monomials(-w), c, z - c, w - c, gap, top);
    TotalMonotone(Monomials(z - c), Monomials(w - c), z - c, w - c, top);
    TotalGrows(Monomials(z - c), z - c, top, top);
  }

  lemma {:induction false} TotalAtZero(n: nat)
    ensures Total(Monomials(0.0), n) == 1.0
  {
    if n > 0 {
      TotalAtZero(n - 1);
      assert Monomial(0.0, n) == Monomial(0.0, n - 1) * 0.0 / n as real;
    }
  }

  // ---- Between -8 and -1 the sum stays below 1 ----

  lemma QuadraticGap(h: real, a: real, b: real, q: real)
    requires a == h - 0.125 && b == 1.0 - h && q == h * h
    ensures a * b == 1.125 * h - 0.125 - q
  {}

  lemma QuadraticBound(h: real, q: real)
    requires 0.125 <= h <= 1.0 && q == h * h
    ensures q <= 1.125 * h - 0.125
  {
    var a, b := h - 0.125, 1.0 - h;
    QuadraticGap(h, a, b, q);
    MulMono(0.0, a, b);
  }

  lemma EighthPower(h: real, s: real)
    requires 0.125 <= h <= 1.0 && 0.0 <= s <= 1.0 - h + h * h / 2.0
    ensures Pow(s, 8) <= 0.37
  {
    QuadraticBound(h, h * h);
    assert s <= 0.8828125;
    PowBounds(s, 0.8828125, 8);
    assert Pow(0.8828125, 2) <= 0.7794;
    assert Pow(0.8828125, 4) <= 0.6075;
  }

  lemma LastTerm(z: real, c: real, top: nat)
    requires 0.0 <= z <= c && Even(top) && top >= 1
    ensures Total(Monomials(-z), top) <= Total(Monomials(-z), top - 1) + Monomial(c, top)
  {
    MonomialsExponential(z);
    MonomialsExponential(-z);
    MonomialsExponential(c);
    Mirror(Monomials(z), Monomials(-z), z, top);
    TotalMonotone(Monomials(z), Monomials(c), z, c, top);
  }

  // The odd sum is below the separator, so the even one is at most its last term above it.
  lemma BelowOne(z: real, top: nat)
    requires 1.0 <= z <= 8.0 && Even(top) && top >= 3
    ensures Total(Monomials(-z), top - 1) <= 0.37
    ensures Total(Monomials(-z), top) <= 0.37 + Monomial(8.0, top)
  {
    var h := z / 8.0;
    var g := Monomials(-h);
    var s := Total(g, top);
    MonomialsExponential(-h);
    MonomialsAlternate(h);
    UnitSeparator(g, h, top);
    SeparatorPower(h, 8, top);
    EightSteps(h);
    EighthPower(h, s);
    assert SeparatesAt(Pow(s, 8), Monomials(-z), top - 1);
    LastTerm(z, 8.0, top);
  }
}
