/** Sums over the values of a finite map. */
module Sums {
  import opened Options

  ghost function Sum<K>(m: map<K, int>): int {
    if m == map[] then 0
    else
      SomeKey(m);
      var k :| k in m;
      m[k] + Sum(m - {k})
  }

  lemma SomeKey<K>(m: map<K, int>)
    ensures m == map[] || exists k :: k in m
  {
    if !exists k :: k in m {
      assert m == map[];
    }
  }

  /** Any one key may be taken out first. */
  lemma {:induction false} SumRemove<K>(m: map<K, int>, k: K)
    requires k in m
    ensures Sum(m) == m[k] + Sum(m - {k})
    decreases |m|
  {
    SomeKey(m);
    var h :| h in m && Sum(m) == m[h] + Sum(m - {h});
    if h != k {
      SumRemove(m - {h}, k);
      SumRemove(m - {k}, h);
      assert m - {h} - {k} == m - {k} - {h};
    }
  }

  lemma SumPut<K>(m: map<K, int>, k: K, v: int)
    requires k in m
    ensures Sum(m[k := v]) == Sum(m) - m[k] + v
  {
    SumRemove(m, k);
    SumRemove(m[k := v], k);
    assert m[k := v] - {k} == m - {k};
  }

  lemma {:induction false} SumAtLeastZero<K>(m: map<K, int>)
    requires forall k :: k in m ==> m[k] >= 0
    ensures Sum(m) >= 0
    decreases |m|
  {
    if m == map[] {
    } else {
      SomeKey(m);
      var k :| k in m && Sum(m) == m[k] + Sum(m - {k});
      SumAtLeastZero(m - {k});
    }
  }

  /** Adding one at every key of ids adds |ids|. */
  lemma {:induction false} SumRaised(m: map<int, int>, m': map<int, int>, ids: set<int>)
    requires m'.Keys == m.Keys && ids <= m.Keys
    requires forall k :: k in m ==> m'[k] == m[k] + (if k in ids then 1 else 0)
    ensures Sum(m') == Sum(m) + |ids|
    decreases |ids|
  {
    Inhabited(ids);
    if ids == {} {
      assert forall k :: k in m ==> m'[k] == m[k];
      assert m' == m;
    } else {
      var k :| k in ids;
      var n := m'[k := m[k]];
      SumRaised(m, n, ids - {k});
      SumPut(m', k, m[k]);
    }
  }

  /** A new key adds its value. */
  lemma SumNew<K>(m: map<K, int>, k: K, v: int)
    requires k !in m
    ensures Sum(m[k := v]) == Sum(m) + v
  {
    SumRemove(m[k := v], k);
    assert m[k := v] - {k} == m;
  }
}
