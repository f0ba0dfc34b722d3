/** Totals over maps and sizes of sets. */
module Sums {

  /** The sum of `f` over the values of `m`. */
  ghost function Total<K, V>(m: map<K, V>, f: V -> nat): nat {
    if m == map[] then 0
    else
      var k :| k in m;
      f(m[k]) + Total(m - {k}, f)
  }

  /** Any key can be taken out first. */
  lemma {:induction false} TotalWithout<K, V>(m: map<K, V>, f: V -> nat, k: K)
    requires k in m
    ensures Total(m, f) == f(m[k]) + Total(m - {k}, f)
    decreases |m|
  {
    var j :| j in m && Total(m, f) == f(m[j]) + Total(m - {j}, f);
    if j != k {
      TotalWithout(m - {j}, f, k);
      TotalWithout(m - {k}, f, j);
      assert m - {j} - {k} == m - {k} - {j};
    }
  }

  function At<K, V>(m: map<K, V>, f: V -> nat, k: K): nat {
    if k in m then f(m[k]) else 0
  }

  lemma {:induction false} TotalRemoved<K, V>(m: map<K, V>, f: V -> nat, k: K)
    ensures Total(m, f) == At(m, f, k) + Total(m - {k}, f)
  {
    if k in m {
      TotalWithout(m, f, k);
    } else {
      assert m - {k} == m;
    }
  }

  /** Setting one key replaces its share. */
  lemma {:induction false} TotalUpdated<K, V>(m: map<K, V>, f: V -> nat, k: K, v: V)
    ensures Total(m[k := v], f) + At(m, f, k) == Total(m, f) + f(v)
  {
    TotalWithout(m[k := v], f, k);
    TotalRemoved(m, f, k);
    assert m[k := v] - {k} == m - {k};
  }

  lemma {:induction false} SubsetIsAtMost<T>(a: set<T>, b: set<T>)
    requires a <= b
    ensures |a| <= |b|
  {
    assert b == a + (b - a);
  }

  lemma {:induction false} SameSizeIsAll<T>(a: set<T>, b: set<T>)
    requires a <= b && |a| == |b|
    ensures a == b
  {
    assert b == a + (b - a);
  }
}
