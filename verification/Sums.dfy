/** Sums over finite maps, independent of the order in which the map is traversed. */
module Sums {

  ghost function Sum<K>(m: map<K, nat>): nat {
    if m == map[] then 0
    else
      var k :| k in m;
      m[k] + Sum(m - {k})
  }

  /** Any key may be taken first. */
  lemma {:induction false} SumTakes<K>(m: map<K, nat>, k: K)
    requires k in m
    ensures Sum(m) == m[k] + Sum(m - {k})
  {
    var j :| j in m && Sum(m) == m[j] + Sum(m - {j});
    if j == k {
    } else {
      SumTakes(m - {j}, k);
      SumTakes(m - {k}, j);
      assert (m - {j}) - {k} == (m - {k}) - {j};
    }
  }

  lemma SumPut<K>(m: map<K, nat>, k: K, n: nat)
    requires k !in m
    ensures Sum(m[k := n]) == Sum(m) + n
  {
    SumTakes(m[k := n], k);
    assert m[k := n] - {k} == m;
  }

  lemma SumReplace<K>(m: map<K, nat>, k: K, n: nat)
    requires k in m
    ensures Sum(m[k := n]) == Sum(m) - m[k] + n
  {
    SumTakes(m, k);
    SumTakes(m[k := n], k);
    assert m[k := n] - {k} == m - {k};
  }
}
