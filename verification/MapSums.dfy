/** Totals over the entries of a finite map. */
module MapSums {
  ghost function Sum<K>(m: map<K, nat>): nat
    decreases |m|
  {
    if m == map[] then 0
    else
      var k :| k in m;
      m[k] + Sum(m - {k})
  }

  /** The total does not depend on which entry is counted first. */
  lemma {:induction false} SumWithout<K>(m: map<K, nat>, k: K)
    requires k in m
    ensures Sum(m) == m[k] + Sum(m - {k})
    decreases |m|
  {
    var first :| first in m && Sum(m) == m[first] + Sum(m - {first});
    if first != k {
      SumWithout(m - {first}, k);
      SumWithout(m - {k}, first);
      assert m - {first} - {k} == m - {k} - {first};
    }
  }

  lemma SumWith<K>(m: map<K, nat>, k: K, n: nat)
    requires k !in m
    ensures Sum(m[k := n]) == Sum(m) + n
  {
    SumWithout(m[k := n], k);
    assert m[k := n] - {k} == m;
  }

  ghost function Pool<K, V>(m: map<K, seq<V>>): multiset<V>
    decreases |m|
  {
    if m == map[] then multiset{}
    else
      var k :| k in m;
      multiset(m[k]) + Pool(m - {k})
  }

  lemma {:induction false} PoolWithout<K, V>(m: map<K, seq<V>>, k: K)
    requires k in m
    ensures Pool(m) == multiset(m[k]) + Pool(m - {k})
    decreases |m|
  {
    var first :| first in m && Pool(m) == multiset(m[first]) + Pool(m - {first});
    if first != k {
      PoolWithout(m - {first}, k);
      PoolWithout(m - {k}, first);
      assert m - {first} - {k} == m - {k} - {first};
    }
  }

  lemma PoolWith<K, V>(m: map<K, seq<V>>, k: K, rows: seq<V>)
    requires k !in m
    ensures Pool(m[k := rows]) == Pool(m) + multiset(rows)
  {
    PoolWithout(m[k := rows], k);
    assert m[k := rows] - {k} == m;
  }
}
