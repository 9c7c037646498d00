/** Sizes of sets, and sums over finite maps whatever order the keys are visited in. */
module Collections {
  lemma {:induction false} SubsetIsNoLarger<T>(a: set<T>, b: set<T>)
    requires a <= b
    ensures |a| <= |b|
  {
    assert b == a + (b - a);
  }

  lemma ProperSubsetIsSmaller<T>(a: set<T>, b: set<T>)
    requires a < b
    ensures |a| < |b|
  {
    var x :| x in b && x !in a;
    SubsetIsNoLarger(a, b - {x});
  }

  ghost function Total<K>(m: map<K, int>): int {
    if m == map[] then 0
    else
      var k :| k in m;
      m[k] + Total(m - {k})
  }

  /** Any key may be taken out first. */
  lemma {:induction false} TotalWithout<K>(m: map<K, int>, k: K)
    requires k in m
    ensures Total(m) == m[k] + Total(m - {k})
    decreases |m|
  {
    var c :| c in m && Total(m) == m[c] + Total(m - {c});
    if c != k {
      TotalWithout(m - {c}, k);
      TotalWithout(m - {k}, c);
      assert m - {c} - {k} == m - {k} - {c};
    }
  }

  lemma TotalOfUpdate<K>(m: map<K, int>, k: K, v: int)
    ensures Total(m[k := v]) == Total(m - {k}) + v
    ensures Total(m) == Total(m - {k}) + if k in m then m[k] else 0
  {
    TotalWithout(m[k := v], k);
    assert m[k := v] - {k} == m - {k};
    if k in m {
      TotalWithout(m, k);
    } else {
      assert m - {k} == m;
    }
  }

  lemma SomeKey<K, V>(m: map<K, V>) returns (k: K)
    requires m != map[]
    ensures k in m
  {
    k :| k in m;
  }

  method AnyKey<K(==), V>(m: map<K, V>) returns (k: K)
    requires m != map[]
    ensures k in m
  {
    k :| k in m;
  }

  lemma {:induction false} TotalIsNatural<K>(m: map<K, int>)
    requires forall k :: k in m ==> m[k] >= 0
    ensures Total(m) >= 0
    decreases |m|
  {
    if m != map[] {
      var k :| k in m && Total(m) == m[k] + Total(m - {k});
      TotalIsNatural(m - {k});
    }
  }

  method Sum<K(==)>(m: map<K, int>) returns (total: int)
    ensures total == Total(m)
  {
    total := 0;
    var left := m;
    while left != map[]
      invariant total + Total(left) == Total(m)
      decreases |left|
    {
      var k :| k in left;
      TotalWithout(left, k);
      total := total + left[k];
      left := left - {k};
    }
  }
}
