/** The sum of a finite map's values, whatever order they are visited in. */
module FiniteSum {
  ghost function Sum<K(!new)>(m: map<K, nat>): nat
    decreases |m|
  {
    if m == map[] then 0
    else
      var k :| k in m;
      assert |m - {k}| < |m| by { SmallerWithout(m, k); }
      m[k] + Sum(m - {k})
  }

  lemma SmallerWithout<K>(m: map<K, nat>, k: K)
    requires k in m
    ensures |m - {k}| == |m| - 1
  {
    assert (m - {k}).Keys == m.Keys - {k};
  }

  /** Any key may be taken out first. */
  lemma {:induction false} SumWithout<K(!new)>(m: map<K, nat>, k: K)
    requires k in m
    ensures Sum(m) == m[k] + Sum(m - {k})
    decreases |m|
  {
    var j :| j in m && Sum(m) == m[j] + Sum(m - {j});
    if j != k {
      SmallerWithout(m, j);
      SmallerWithout(m, k);
      SumWithout(m - {j}, k);
      SumWithout(m - {k}, j);
      assert m - {j} - {k} == m - {k} - {j};
    }
  }

  lemma SumInsert<K(!new)>(m: map<K, nat>, k: K, v: nat)
    requires k !in m
    ensures Sum(m[k := v]) == v + Sum(m)
  {
    SumWithout(m[k := v], k);
    assert m[k := v] - {k} == m;
  }

  /** Pointwise smaller on a subset of the keys is smaller in sum. */
  lemma {:induction false} SumMonotone<K(!new)>(m: map<K, nat>, n: map<K, nat>)
    requires m.Keys <= n.Keys && forall k :: k in m ==> m[k] <= n[k]
    ensures Sum(m) <= Sum(n)
    decreases |n|
  {
    if n == map[] {
      assert m == map[];
    } else {
      var k :| k in n;
      SmallerWithout(n, k);
      SumWithout(n, k);
      if k in m { SumWithout(m, k); } else { assert m - {k} == m; }
      SumMonotone(m - {k}, n - {k});
    }
  }
}
