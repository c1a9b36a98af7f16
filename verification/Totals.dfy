/** Sums of weights over finite sets, in whatever order the elements are visited, and their sizes. */
module Totals {

  ghost function Total<K(!new)>(weights: map<K, nat>, keys: set<K>): nat
    requires keys <= weights.Keys
  {
    if keys == {} then 0
    else
      var k :| k in keys;
      weights[k] + Total(weights, keys - {k})
  }

  lemma {:induction false} TotalWithout<K(!new)>(weights: map<K, nat>, keys: set<K>, k: K)
    requires keys <= weights.Keys && k in keys
    ensures Total(weights, keys) == weights[k] + Total(weights, keys - {k})
    decreases keys
  {
    var j :| j in keys && Total(weights, keys) == weights[j] + Total(weights, keys - {j});
    if j != k {
      TotalWithout(weights, keys - {j}, k);
      TotalWithout(weights, keys - {k}, j);
      assert keys - {j} - {k} == keys - {k} - {j};
    }
  }

  lemma TotalWith<K(!new)>(weights: map<K, nat>, keys: set<K>, k: K)
    requires keys <= weights.Keys && k in weights && k !in keys
    ensures Total(weights, keys + {k}) == Total(weights, keys) + weights[k]
  {
    TotalWithout(weights, keys + {k}, k);
    assert keys + {k} - {k} == keys;
  }

  lemma {:induction false} TotalGrows<K(!new)>(weights: map<K, nat>, part: set<K>, whole: set<K>)
    requires part <= whole <= weights.Keys
    ensures Total(weights, part) <= Total(weights, whole)
    decreases whole
  {
    if part != whole {
      var rest := whole - part;
      assert part + rest == whole && part + {} == part;
      var k :| k in rest;
      TotalWithout(weights, whole, k);
      TotalGrows(weights, part, whole - {k});
    }
  }

  lemma SubsetSize<T>(a: set<T>, b: set<T>)
    requires a <= b
    ensures |a| <= |b| && (|a| == |b| ==> a == b)
  {
    var rest := b - a;
    assert b == a + rest && |b| == |a| + |rest|;
  }
}
