/** Sums over finite maps, for counting arguments about the queue. */
module Totals {

  ghost function Total<K>(m: map<K, int>): int {
    if m == map[] then 0 else
      var k :| k in m;
      m[k] + Total(m - {k})
  }

  lemma {:induction false} TotalSplit<K>(m: map<K, int>, k: K)
    requires k in m
    ensures Total(m) == m[k] + Total(m - {k})
    decreases |m|
  {
    var j :| j in m && Total(m) == m[j] + Total(m - {j});
    if j != k {
      TotalSplit(m - {j}, k);
      TotalSplit(m - {k}, j);
      assert m - {j} - {k} == m - {k} - {j};
    }
  }

  lemma TotalUpdate<K>(m: map<K, int>, k: K, v: int)
    ensures Total(m[k := v]) == Total(m) + v - if k in m then m[k] else 0
  {
    TotalSplit(m[k := v], k);
    assert m[k := v] - {k} == m - {k};
    if k in m {
      TotalSplit(m, k);
    } else {
      assert m - {k} == m;
    }
  }

  lemma {:induction false} TotalNonNegative<K>(m: map<K, int>)
    requires forall k | k in m :: m[k] >= 0
    ensures Total(m) >= 0
  {
    if m == map[] {
    } else {
      var k :| k in m;
      TotalSplit(m, k);
      TotalNonNegative(m - {k});
    }
  }

  lemma {:induction false} TotalAdds<K>(m: map<K, int>, a: map<K, int>, b: map<K, int>)
    requires m.Keys == a.Keys == b.Keys
    requires forall k | k in m :: m[k] == a[k] + b[k]
    ensures Total(m) == Total(a) + Total(b)
  {
    if m == map[] {
    } else {
      var k :| k in m;
      TotalSplit(m, k);
      TotalSplit(a, k);
      TotalSplit(b, k);
      TotalAdds(m - {k}, a - {k}, b - {k});
    }
  }

  // 1 on the chosen keys, 0 on the others.
  function Indicator<K>(keys: set<K>, chosen: set<K>): map<K, int> {
    map k | k in keys :: if k in chosen then 1 else 0
  }

  lemma {:induction false} TotalOfIndicator<K>(keys: set<K>, chosen: set<K>)
    requires chosen <= keys
    ensures Total(Indicator(keys, chosen)) == |chosen|
  {
    var m := Indicator(keys, chosen);
    if keys == {} {
    } else {
      var k :| k in keys;
      TotalSplit(m, k);
      TotalOfIndicator(keys - {k}, chosen - {k});
      assert m - {k} == Indicator(keys - {k}, chosen - {k});
      if k in chosen {
        assert |chosen| == |chosen - {k}| + 1;
      } else {
        assert chosen - {k} == chosen;
      }
    }
  }
}
