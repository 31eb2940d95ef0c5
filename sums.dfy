/** Sums of real values over the keys of a map, independent of the order in which keys are visited. */
module Sums {

  /** The sum of m[k] for every k in keys; keys are taken in an arbitrary order. */
  ghost function SumValues<K>(m: map<K, real>, keys: set<K>): real
    requires keys <= m.Keys
    decreases keys
  {
    if keys == {} then 0.0
    else
      var k :| k in keys;
      m[k] + SumValues(m, keys - {k})
  }

  /** Any key may be taken out first: the sum does not depend on the visiting order. */
  lemma {:induction false} SumPick<K>(m: map<K, real>, keys: set<K>, k: K)
    requires keys <= m.Keys && k in keys
    ensures SumValues(m, keys) == m[k] + SumValues(m, keys - {k})
    decreases keys
  {
    var j :| j in keys && SumValues(m, keys) == m[j] + SumValues(m, keys - {j});
    if j != k {
      SumPick(m, keys - {j}, k);
      SumPick(m, keys - {k}, j);
      assert keys - {j} - {k} == keys - {k} - {j};
    }
  }

  /** Adding one key to the visited set adds its value to the sum. */
  lemma SumAdd<K>(m: map<K, real>, done: set<K>, k: K)
    requires done <= m.Keys && k in m && k !in done
    ensures SumValues(m, done + {k}) == SumValues(m, done) + m[k]
  {
    SumPick(m, done + {k}, k);
    assert done + {k} - {k} == done;
  }

  /** When every summed value equals c, the sum is the number of keys times c. */
  lemma {:induction false} SumConstant<K>(m: map<K, real>, keys: set<K>, c: real)
    requires keys <= m.Keys
    requires forall k :: k in keys ==> m[k] == c
    ensures SumValues(m, keys) == |keys| as real * c
    decreases keys
  {
    if keys != {} {
      var k :| k in keys;
      SumPick(m, keys, k);
      SumConstant(m, keys - {k}, c);
    }
  }

  /** The sum only depends on the values at the summed keys. */
  lemma {:induction false} SumCongruent<K>(m1: map<K, real>, m2: map<K, real>, keys: set<K>)
    requires keys <= m1.Keys && keys <= m2.Keys
    requires forall k :: k in keys ==> m1[k] == m2[k]
    ensures SumValues(m1, keys) == SumValues(m2, keys)
    decreases keys
  {
    if keys != {} {
      var k :| k in keys;
      SumPick(m1, keys, k);
      SumPick(m2, keys, k);
      SumCongruent(m1, m2, keys - {k});
    }
  }
}
