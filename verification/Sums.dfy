/** Sums over the values of a finite map: what the conservation laws are stated with. */
module Sums {

  /** The sum of the values of a map. */
  ghost function Sum<K(!new)>(m: map<K, int>): int
    decreases |m|
  {
    if m == map[] then 0
    else
      var k :| k in m;
      assert |m - {k}| < |m| by { Smaller(m, k); }
      m[k] + Sum(m - {k})
  }

  lemma Smaller<K, V>(m: map<K, V>, k: K)
    requires k in m
    ensures |m - {k}| < |m|
  {
    assert (m - {k}).Keys == m.Keys - {k};
    assert |m.Keys - {k}| < |m.Keys|;
  }

  /** Which entry is taken first does not matter. */
  lemma {:induction false} SumTake<K(!new)>(m: map<K, int>, k: K)
    requires k in m
    ensures Sum(m) == m[k] + Sum(m - {k})
    decreases |m|
  {
    var j :| j in m && Sum(m) == m[j] + Sum(m - {j});
    if j != k {
      Smaller(m, j);
      SumTake(m - {j}, k);
      assert (m - {j}) - {k} == (m - {k}) - {j};
      Smaller(m, k);
      SumTake(m - {k}, j);
    }
  }

  lemma SumUpdate<K(!new)>(m: map<K, int>, k: K, v: int)
    ensures Sum(m[k := v]) == Sum(m) - (if k in m then m[k] else 0) + v
  {
    SumTake(m[k := v], k);
    if k in m {
      SumTake(m, k);
      assert m[k := v] - {k} == m - {k};
    } else {
      assert m[k := v] - {k} == m;
    }
  }

  lemma {:induction false} SumNonNegative<K(!new)>(m: map<K, int>)
    requires forall k :: k in m ==> m[k] >= 0
    ensures Sum(m) >= 0
    ensures forall k :: k in m ==> m[k] <= Sum(m)
    decreases |m|
  {
    if m != map[] {
      forall k | k in m
        ensures m[k] <= Sum(m) && Sum(m) >= 0
      {
        SumTake(m, k);
        Smaller(m, k);
        SumNonNegative(m - {k});
      }
      var k :| k in m;
      assert Sum(m) >= 0;
    }
  }

  lemma {:induction false} SumMonotone<K(!new)>(less: map<K, int>, more: map<K, int>)
    requires less.Keys == more.Keys && forall k :: k in less ==> less[k] <= more[k]
    ensures Sum(less) <= Sum(more)
    decreases |less|
  {
    if less != map[] {
      var k :| k in less;
      Smaller(less, k);
      SumMonotone(less - {k}, more - {k});
      SumTake(less, k);
      SumTake(more, k);
    } else {
      assert more == map[];
    }
  }

  /** A loop that takes one entry at a time. */
  lemma SumTakeOne<K(!new)>(pending: map<K, nat>, k: K)
    requires k in pending
    ensures Sum(pending) == pending[k] + Sum(pending - {k}) && Sum(pending - {k}) >= 0
    ensures |pending - {k}| < |pending|
  {
    SumTake(pending, k);
    Smaller(pending, k);
    SumNonNegative(pending - {k});
  }
}
