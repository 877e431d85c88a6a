/** The sum of a weight over the values of a map. */
module Sums {

  ghost function Sum<K(!new), V(!new)>(m: map<K, V>, weight: V -> nat): nat {
    if m == map[] then 0 else var k :| k in m; weight(m[k]) + Sum(m - {k}, weight)
  }

  lemma {:induction false} SumWithout<K(!new), V(!new)>(m: map<K, V>, weight: V -> nat, key: K)
    requires key in m
    ensures Sum(m, weight) == weight(m[key]) + Sum(m - {key}, weight)
    decreases |m|
  {
    var k :| k in m && Sum(m, weight) == weight(m[k]) + Sum(m - {k}, weight);
    if k != key {
      SumWithout(m - {k}, weight, key);
      SumWithout(m - {key}, weight, k);
      assert m - {k} - {key} == m - {key} - {k};
    }
  }

  /** Adding or replacing one value changes the sum by the difference. */
  lemma SumUpdate<K(!new), V(!new)>(m: map<K, V>, weight: V -> nat, key: K, v: V)
    ensures Sum(m[key := v], weight) == Sum(m, weight) + weight(v) - if key in m then weight(m[key]) else 0
  {
    SumWithout(m[key := v], weight, key);
    if key in m {
      SumWithout(m, weight, key);
      assert m[key := v] - {key} == m - {key};
    } else {
      assert m[key := v] - {key} == m;
    }
  }
}
