/** Sums of an integer weight over the entries of a finite map. The keeper's
    counters (supply, holders, reserved, escrow) are all sums of this kind over
    a store. */
module MapSums {

  ghost function Sum<K, V>(m: map<K, V>, f: (K, V) -> int): int
    decreases m.Keys
  {
    if m == map[] then 0
    else
      var k :| k in m;
      f(k, m[k]) + Sum(m - {k}, f)
  }

  /** The weight a map gives to one key, zero when the key is absent. */
  ghost function At<K, V>(m: map<K, V>, f: (K, V) -> int, k: K): int {
    if k in m then f(k, m[k]) else 0
  }

  /** Any key may be taken out first. */
  lemma {:induction false} SumSplit<K, V>(m: map<K, V>, f: (K, V) -> int, k: K)
    requires k in m
    ensures Sum(m, f) == f(k, m[k]) + Sum(m - {k}, f)
    decreases m.Keys
  {
    var j :| j in m && Sum(m, f) == f(j, m[j]) + Sum(m - {j}, f);
    if j != k {
      SumSplit(m - {j}, f, k);
      SumSplit(m - {k}, f, j);
      assert (m - {j}) - {k} == (m - {k}) - {j};
    }
  }

  lemma SumPut<K, V>(m: map<K, V>, f: (K, V) -> int, k: K, v: V)
    ensures Sum(m[k := v], f) == Sum(m, f) - At(m, f, k) + f(k, v)
  {
    SumSplit(m[k := v], f, k);
    assert m[k := v] - {k} == m - {k};
    if k in m {
      SumSplit(m, f, k);
    } else {
      assert m - {k} == m;
    }
  }

  lemma SumDrop<K, V>(m: map<K, V>, f: (K, V) -> int, k: K)
    ensures Sum(m - {k}, f) == Sum(m, f) - At(m, f, k)
  {
    if k in m {
      SumSplit(m, f, k);
    } else {
      assert m - {k} == m;
    }
  }

  ghost predicate NonNegative<K, V>(m: map<K, V>, f: (K, V) -> int) {
    forall k :: k in m ==> 0 <= f(k, m[k])
  }

  /** With no negative weight, a sum is at least any one of its terms. */
  lemma {:induction false} SumBounds<K, V>(m: map<K, V>, f: (K, V) -> int, k: K)
    requires NonNegative(m, f)
    ensures 0 <= At(m, f, k) <= Sum(m, f)
    decreases m.Keys
  {
    if k in m {
      SumSplit(m, f, k);
      SumSign(m - {k}, f);
    } else {
      SumSign(m, f);
    }
  }

  lemma {:induction false} SumSign<K, V>(m: map<K, V>, f: (K, V) -> int)
    requires NonNegative(m, f)
    ensures 0 <= Sum(m, f)
    decreases m.Keys
  {
    if m != map[] {
      var k :| k in m;
      SumSplit(m, f, k);
      SumSign(m - {k}, f);
    }
  }

  /** g = f + c * h pointwise carries over to the sums. */
  lemma {:induction false} SumLinear<K, V>(m: map<K, V>, f: (K, V) -> int, g: (K, V) -> int, h: (K, V) -> int, c: int)
    requires forall k :: k in m ==> g(k, m[k]) == f(k, m[k]) + c * h(k, m[k])
    ensures Sum(m, g) == Sum(m, f) + c * Sum(m, h)
    decreases m.Keys
  {
    if m != map[] {
      var k :| k in m;
      SumSplit(m, f, k);
      SumSplit(m, g, k);
      SumSplit(m, h, k);
      SumLinear(m - {k}, f, g, h, c);
      assert c * (h(k, m[k]) + Sum(m - {k}, h)) == c * h(k, m[k]) + c * Sum(m - {k}, h);
    }
  }
}
