/** Sums over finite maps. */
module Sums {

  ghost function Sum<K(!new), T(!new)>(m: map<K, T>, f: T -> nat): nat
    decreases |m|
  {
    if m == map[] then 0
    else
      var k :| k in m;
      f(m[k]) + Sum(m - {k}, f)
  }

  /** The sum does not depend on the order in which the keys are taken. */
  lemma {:induction false} SumOf<K(!new), T(!new)>(m: map<K, T>, f: T -> nat, k: K)
    requires k in m
    ensures Sum(m, f) == f(m[k]) + Sum(m - {k}, f)
    decreases |m|
  {
    var j :| j in m && Sum(m, f) == f(m[j]) + Sum(m - {j}, f);
    if j != k {
      SumOf(m - {j}, f, k);
      SumOf(m - {k}, f, j);
      assert m - {j} - {k} == m - {k} - {j};
    }
  }

  /** Changing one entry changes the sum by the difference of that entry. */
  lemma SumUpdate<K(!new), T(!new)>(m: map<K, T>, f: T -> nat, k: K, v: T)
    requires k in m
    ensures Sum(m[k := v], f) == Sum(m, f) - f(m[k]) + f(v)
  {
    SumOf(m, f, k);
    SumOf(m[k := v], f, k);
    assert m[k := v] - {k} == m - {k};
  }
}
