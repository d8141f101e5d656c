/** Sums over the entries of a finite map, independent of any iteration order. */
module MapSums {

  ghost function Sum<K, V>(m: map<K, V>, f: (K, V) -> int): int
    decreases |m|
  {
    if m == map[] then 0
    else
      var k :| k in m;
      f(k, m[k]) + Sum(m - {k}, f)
  }

  function At<K, V>(m: map<K, V>, f: (K, V) -> int, k: K): int {
    if k in m then f(k, m[k]) else 0
  }

  /** Any key may be taken out first. */
  lemma {:induction false} SumTake<K, V>(m: map<K, V>, f: (K, V) -> int, k: K)
    ensures Sum(m, f) == At(m, f, k) + Sum(m - {k}, f)
    decreases |m|
  {
    if k !in m {
      assert m - {k} == m;
    } else {
      var j :| j in m && Sum(m, f) == f(j, m[j]) + Sum(m - {j}, f);
      if j != k {
        SumTake(m - {j}, f, k);
        SumTake(m - {k}, f, j);
        assert m - {j} - {k} == m - {k} - {j};
      }
    }
  }

  lemma SumPut<K, V>(m: map<K, V>, f: (K, V) -> int, k: K, v: V)
    ensures Sum(m[k := v], f) == Sum(m, f) - At(m, f, k) + f(k, v)
  {
    SumTake(m, f, k);
    SumTake(m[k := v], f, k);
    assert m[k := v] - {k} == m - {k};
  }

  /** Summands that agree on every entry give the same sum. */
  lemma {:induction false} SumSame<K, V>(m: map<K, V>, f: (K, V) -> int, g: (K, V) -> int)
    requires forall k :: k in m ==> f(k, m[k]) == g(k, m[k])
    ensures Sum(m, f) == Sum(m, g)
    decreases |m|
  {
    if m != map[] {
      var k :| k in m;
      SumTake(m, f, k);
      SumTake(m, g, k);
      SumSame(m - {k}, f, g);
    }
  }

  lemma {:induction false} SumOrder<K, V>(m: map<K, V>, f: (K, V) -> int, g: (K, V) -> int)
    requires forall k :: k in m ==> f(k, m[k]) <= g(k, m[k])
    ensures Sum(m, f) <= Sum(m, g)
    decreases |m|
  {
    if m != map[] {
      var k :| k in m;
      SumTake(m, f, k);
      SumTake(m, g, k);
      SumOrder(m - {k}, f, g);
    }
  }

  /** Two maps that agree away from one key, under summands that agree there, differ in that key's term. */
  lemma SumSplit<K, V>(m: map<K, V>, f: (K, V) -> int, n: map<K, V>, g: (K, V) -> int, k: K)
    requires m - {k} == n - {k}
    requires forall j :: j in m && j != k ==> f(j, m[j]) == g(j, m[j])
    ensures Sum(m, f) - At(m, f, k) == Sum(n, g) - At(n, g, k)
  {
    SumTake(m, f, k);
    SumTake(n, g, k);
    SumSame(m - {k}, f, g);
  }

  lemma {:induction false} SumOfSums<K, V>(m: map<K, V>, f: (K, V) -> int, g: (K, V) -> int, h: (K, V) -> int)
    requires forall k :: k in m ==> f(k, m[k]) == g(k, m[k]) + h(k, m[k])
    ensures Sum(m, f) == Sum(m, g) + Sum(m, h)
    decreases |m|
  {
    if m != map[] {
      var k :| k in m;
      SumTake(m, f, k);
      SumTake(m, g, k);
      SumTake(m, h, k);
      SumOfSums(m - {k}, f, g, h);
    }
  }

  /** Sums over maps with the same keys, term by term the same. */
  lemma {:induction false} SumMapped<K, V, W>(m: map<K, V>, f: (K, V) -> int, n: map<K, W>, g: (K, W) -> int)
    requires m.Keys == n.Keys && forall k :: k in m ==> f(k, m[k]) == g(k, n[k])
    ensures Sum(m, f) == Sum(n, g)
    decreases |m|
  {
    if m != map[] {
      var k :| k in m;
      SumTake(m, f, k);
      SumTake(n, g, k);
      SumMapped(m - {k}, f, n - {k}, g);
    } else {
      assert n == map[];
    }
  }

  lemma {:induction false} SumScaled<K, V>(m: map<K, V>, f: (K, V) -> int, g: (K, V) -> int, factor: int)
    requires forall k :: k in m ==> f(k, m[k]) == g(k, m[k]) * factor
    ensures Sum(m, f) == Sum(m, g) * factor
    decreases |m|
  {
    if m != map[] {
      var k :| k in m;
      SumTake(m, f, k);
      SumTake(m, g, k);
      SumScaled(m - {k}, f, g, factor);
      Scale(g(k, m[k]), Sum(m - {k}, g), factor);
    }
  }

  lemma Scale(a: int, b: int, factor: int)
    ensures (a + b) * factor == a * factor + b * factor
  {
  }
}
