/** Sums over the values of a map, for counters that must equal what they count. */
module MapSum {
  ghost function Sum<K, V>(m: map<K, V>, weight: V -> int): int
    decreases |m|
  {
    if m == map[] then 0
    else
      var k :| k in m;
      weight(m[k]) + Sum(m - {k}, weight)
  }

  lemma {:induction false} SumRemove<K, V>(m: map<K, V>, k: K, weight: V -> int)
    requires k in m
    ensures Sum(m, weight) == weight(m[k]) + Sum(m - {k}, weight)
    decreases |m|
  {
    var j :| j in m && Sum(m, weight) == weight(m[j]) + Sum(m - {j}, weight);
    if j != k {
      SumRemove(m - {j}, k, weight);
      SumRemove(m - {k}, j, weight);
      assert m - {j} - {k} == m - {k} - {j};
    }
  }

  lemma SumPut<K, V>(m: map<K, V>, k: K, v: V, weight: V -> int)
    ensures Sum(m[k := v], weight) == Sum(m, weight) - (if k in m then weight(m[k]) else 0) + weight(v)
  {
    SumRemove(m[k := v], k, weight);
    if k in m {
      SumRemove(m, k, weight);
      assert m[k := v] - {k} == m - {k};
    } else {
      assert m[k := v] - {k} == m;
    }
  }

  lemma {:induction false} SumBounds<K, V>(m: map<K, V>, k: K, weight: V -> int)
    requires forall j :: j in m ==> weight(m[j]) >= 0
    ensures Sum(m, weight) >= 0
    ensures k in m ==> Sum(m, weight) >= weight(m[k])
    decreases |m|
  {
    if m != map[] {
      var j :| j in m;
      if k in m {
        SumRemove(m, k, weight);
        SumBounds(m - {k}, k, weight);
      } else {
        SumRemove(m, j, weight);
        SumBounds(m - {j}, k, weight);
      }
    }
  }

  lemma {:induction false} SumPositive<K, V>(m: map<K, V>, weight: V -> int) returns (k: K)
    requires Sum(m, weight) > 0
    ensures k in m && weight(m[k]) > 0
    decreases |m|
  {
    k :| k in m;
    SumRemove(m, k, weight);
    if weight(m[k]) <= 0 {
      k := SumPositive(m - {k}, weight);
    }
  }

  /** Sums of pointwise equal weights agree. */
  lemma {:induction false} SumSame<K, V, W>(m: map<K, V>, n: map<K, W>, weight: V -> int, weight': W -> int)
    requires m.Keys == n.Keys
    requires forall k :: k in m ==> weight(m[k]) == weight'(n[k])
    ensures Sum(m, weight) == Sum(n, weight')
    decreases |m|
  {
    if m != map[] {
      var k :| k in m;
      SumRemove(m, k, weight);
      SumRemove(n, k, weight');
      SumSame(m - {k}, n - {k}, weight, weight');
    } else {
      assert n == map[];
    }
  }
}
