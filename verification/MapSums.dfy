/** The SUM of a column over the rows of a table. */
module MapSums {
  ghost function SumBy<K, V>(m: map<K, V>, f: V -> int): int
    decreases |m|
  {
    if m == map[] then 0
    else
      var k :| k in m;
      assert (m - {k}).Keys == m.Keys - {k};
      assert |(m - {k}).Keys| < |m.Keys|;
      f(m[k]) + SumBy(m - {k}, f)
  }

  lemma {:induction false} SumRemove<K, V>(m: map<K, V>, f: V -> int, k: K)
    requires k in m
    ensures SumBy(m, f) == f(m[k]) + SumBy(m - {k}, f)
    decreases |m|
  {
    var p :| p in m && SumBy(m, f) == f(m[p]) + SumBy(m - {p}, f);
    if p != k {
      assert (m - {p}).Keys == m.Keys - {p};
      assert |(m - {p}).Keys| < |m.Keys|;
      SumRemove(m - {p}, f, k);
      assert (m - {k}).Keys == m.Keys - {k};
      assert |(m - {k}).Keys| < |m.Keys|;
      SumRemove(m - {k}, f, p);
      assert m - {p} - {k} == m - {k} - {p};
    }
  }

  lemma SumUpdate<K, V>(m: map<K, V>, f: V -> int, k: K, v: V)
    ensures SumBy(m[k := v], f) == SumBy(m, f) - (if k in m then f(m[k]) else 0) + f(v)
  {
    SumRemove(m[k := v], f, k);
    assert m[k := v] - {k} == m - {k};
    if k in m {
      SumRemove(m, f, k);
    } else {
      assert m - {k} == m;
    }
  }
}
