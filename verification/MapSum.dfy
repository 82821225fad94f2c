/** Sums over the values of a finite map, and how they change with one key. */
module MapSum {

  ghost function Pick<K>(m: map<K, int>): K
    requires m != map[]
    ensures Pick(m) in m
  {
    var k :| k in m; k
  }

  ghost function Sum<K>(m: map<K, int>): int
    decreases |m|
  {
    if m == map[] then 0 else
    var k := Pick(m);
    m[k] + Sum(m - {k})
  }

  /** Any key may be taken out first. */
  lemma {:induction false} SumRemove<K>(m: map<K, int>, k: K)
    requires k in m
    ensures Sum(m) == m[k] + Sum(m - {k})
    decreases |m|
  {
    var p := Pick(m);
    if p != k {
      SumRemove(m - {p}, k);
      SumRemove(m - {k}, p);
      assert m - {p} - {k} == m - {k} - {p};
    }
  }

  function At<K>(m: map<K, int>, k: K): int {
    if k in m then m[k] else 0
  }

  /** Two maps that differ at most at `k` have sums that differ by the change at `k`. */
  lemma SumChange<K>(m: map<K, int>, m': map<K, int>, k: K)
    requires m - {k} == m' - {k}
    ensures Sum(m') == Sum(m) - At(m, k) + At(m', k)
  {
    if k in m {
      SumRemove(m, k);
    } else {
      assert m - {k} == m;
    }
    if k in m' {
      SumRemove(m', k);
    } else {
      assert m' - {k} == m';
    }
  }

  /** One of several non-negative values is at most their sum. */
  lemma {:induction false} SumAtLeast<K>(m: map<K, int>, k: K)
    requires forall j | j in m :: m[j] >= 0
    ensures 0 <= At(m, k) <= Sum(m)
    decreases |m|
  {
    if k in m {
      SumRemove(m, k);
      SumNonNegative(m - {k});
    } else {
      SumNonNegative(m);
    }
  }

  lemma {:induction false} SumNonNegative<K>(m: map<K, int>)
    requires forall j | j in m :: m[j] >= 0
    ensures Sum(m) >= 0
    decreases |m|
  {
    if m != map[] {
      SumNonNegative(m - {Pick(m)});
    }
  }

  lemma {:induction false} SumOfZeros<K>(m: map<K, int>)
    requires forall j | j in m :: m[j] == 0
    ensures Sum(m) == 0
    decreases |m|
  {
    if m != map[] {
      SumOfZeros(m - {Pick(m)});
    }
  }
}
