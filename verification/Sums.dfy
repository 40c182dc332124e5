/** How often `x` occurs in the multisets a projection takes from the entries of
    a map: the number of references to `x` recorded in a table. */
module Sums {

  ghost function Count<K, V, T>(m: map<K, V>, f: V -> multiset<T>, x: T): nat
  {
    if m == map[] then 0 else
      var k :| k in m;
      f(m[k])[x] + Count(m - {k}, f, x)
  }

  lemma {:induction false} CountSplit<K, V, T>(m: map<K, V>, k: K, f: V -> multiset<T>, x: T)
    requires k in m
    ensures Count(m, f, x) == f(m[k])[x] + Count(m - {k}, f, x)
    decreases |m|
  {
    var k0 :| k0 in m && Count(m, f, x) == f(m[k0])[x] + Count(m - {k0}, f, x);
    if k0 != k {
      CountSplit(m - {k0}, k, f, x);
      CountSplit(m - {k}, k0, f, x);
      assert m - {k0} - {k} == m - {k} - {k0};
    }
  }

  /** Overwriting or adding one entry trades its old contribution for the new one. */
  lemma CountPut<K, V, T>(m: map<K, V>, k: K, v: V, f: V -> multiset<T>, x: T)
    ensures Count(m[k := v], f, x) + (if k in m then f(m[k])[x] else 0) == Count(m, f, x) + f(v)[x]
  {
    CountSplit(m[k := v], k, f, x);
    assert m[k := v] - {k} == m - {k};
    if k in m {
      CountSplit(m, k, f, x);
    } else {
      assert m - {k} == m;
    }
  }

  /** A positive count has an entry behind it. */
  lemma {:induction false} CountWitness<K, V, T>(m: map<K, V>, f: V -> multiset<T>, x: T)
    requires Count(m, f, x) > 0
    ensures exists k :: k in m && x in f(m[k])
    decreases |m|
  {
    var k :| k in m && Count(m, f, x) == f(m[k])[x] + Count(m - {k}, f, x);
    if x !in f(m[k]) {
      CountWitness(m - {k}, f, x);
      var j :| j in m - {k} && x in f((m - {k})[j]);
      assert j in m && m[j] == (m - {k})[j];
    }
  }
}
