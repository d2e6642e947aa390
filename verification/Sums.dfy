/** Balance maps, where an absent key reads as 0, and sums over them. */
module Sums {

  function At<K(==)>(m: map<K, int>, k: K): int {
    if k in m then m[k] else 0
  }

  ghost predicate NonNegative<K(!new)>(m: map<K, int>) {
    forall k :: k in m ==> 0 <= m[k]
  }

  // The sum of f over all values, in an arbitrary order of the keys.
  ghost function SumOf<K(!new)>(m: map<K, int>, f: int -> int): int
    decreases |m|
  {
    if m == map[] then 0
    else
      var k :| k in m;
      f(m[k]) + SumOf(m - {k}, f)
  }

  // The order does not matter: any key may be taken out first.
  lemma {:induction false} SumWithout<K(!new)>(m: map<K, int>, f: int -> int, k: K)
    requires k in m
    ensures SumOf(m, f) == f(m[k]) + SumOf(m - {k}, f)
    decreases |m|
  {
    var j :| j in m && SumOf(m, f) == f(m[j]) + SumOf(m - {j}, f);
    if j != k {
      SumWithout(m - {j}, f, k);
      SumWithout(m - {k}, f, j);
      assert m - {j} - {k} == m - {k} - {j};
    }
  }

  lemma SumUpdate<K(!new)>(m: map<K, int>, f: int -> int, k: K, v: int)
    requires f(0) == 0
    ensures SumOf(m[k := v], f) == SumOf(m, f) - f(At(m, k)) + f(v)
  {
    SumWithout(m[k := v], f, k);
    assert m[k := v] - {k} == m - {k};
    if k in m {
      SumWithout(m, f, k);
    } else {
      assert m - {k} == m;
    }
  }

  // When every value of f is non-negative, no single one exceeds the sum, and the sum is 0 only if all are.
  lemma {:induction false} SumAtLeast<K(!new)>(m: map<K, int>, f: int -> int, k: K)
    requires f(0) == 0 && forall j :: j in m ==> 0 <= f(m[j])
    ensures 0 <= f(At(m, k)) <= SumOf(m, f)
    decreases |m|, k !in m
  {
    if k in m {
      SumWithout(m, f, k);
      if m - {k} != map[] {
        var j :| j in m - {k};
        SumAtLeast(m - {k}, f, j);
      }
    } else if m != map[] {
      var j :| j in m;
      SumAtLeast(m, f, j);
    }
  }
}
