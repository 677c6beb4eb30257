/** Sums of the values of a finite map. */
module Sums {
  ghost function SumValues<T>(m: map<T, nat>): nat {
    if m == map[] then 0
    else
      var k :| k in m;
      m[k] + SumValues(m - {k})
  }

  lemma {:induction false} SumRemove<T>(m: map<T, nat>, k: T)
    requires k in m
    ensures SumValues(m) == m[k] + SumValues(m - {k})
    decreases |m|
  {
    var j :| j in m && SumValues(m) == m[j] + SumValues(m - {j});
    if j != k {
      assert |m - {j}| < |m| && |m - {k}| < |m| by {
        assert (m - {j}).Keys == m.Keys - {j} && (m - {k}).Keys == m.Keys - {k};
      }
      SumRemove(m - {j}, k);
      SumRemove(m - {k}, j);
      assert m - {j} - {k} == m - {k} - {j};
    }
  }

  lemma SumUpdate<T>(m: map<T, nat>, k: T, v: nat)
    ensures SumValues(m[k := v]) == v + SumValues(m - {k})
    ensures SumValues(m) == (if k in m then m[k] else 0) + SumValues(m - {k})
  {
    SumRemove(m[k := v], k);
    assert m[k := v] - {k} == m - {k};
    if k in m { SumRemove(m, k); } else { assert m - {k} == m; }
  }

  lemma {:induction false} SumSubmap<T>(small: map<T, nat>, large: map<T, nat>)
    requires small.Keys <= large.Keys && forall k <- small :: small[k] == large[k]
    ensures SumValues(small) <= SumValues(large)
    decreases |small|
  {
    if small != map[] {
      var k :| k in small;
      SumRemove(small, k);
      SumRemove(large, k);
      assert (small - {k}).Keys == small.Keys - {k};
      SumSubmap(small - {k}, large - {k});
    }
  }
}
