/** Sizes of finite sets. */
module Sets {
  lemma SubsetSize<T>(a: set<T>, b: set<T>)
    requires a < b
    ensures |a| < |b|
  {
    assert |b| == |a| + |b - a|;
    assert b - a != {};
  }

  lemma {:induction false} PickSubset<T>(pool: set<T>, n: nat) returns (r: set<T>)
    requires n <= |pool|
    ensures r <= pool && |r| == n
  {
    if n == 0 {
      r := {};
    } else {
      var t :| t in pool;
      assert |pool - {t}| == |pool| - 1;
      r := PickSubset(pool - {t}, n - 1);
      assert |r + {t}| == |r| + 1;
      r := r + {t};
    }
  }
}
