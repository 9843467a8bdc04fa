/** Histograms: each observation is counted in one bucket, and the export accumulates them. */
module Histogram {
  import opened Words

  /** A 64-bit float, but for rounding. */
  datatype Float = NegInf | Finite(value: real) | PosInf | NaN

  /** `a <= b` of floats: false when either is not a number. */
  predicate AtMost(a: Float, b: Float) {
    !a.NaN? && !b.NaN? && (a.NegInf? || b.PosInf? || (a.Finite? && b.Finite? && a.value <= b.value))
  }

  function Plus(a: Float, b: Float): Float {
    if a.NaN? || b.NaN? || (a.NegInf? && b.PosInf?) || (a.PosInf? && b.NegInf?) then NaN
    else if a.Finite? && b.Finite? then Finite(a.value + b.value)
    else if a.Finite? then b
    else a
  }

  /** What a 64-bit counter shows after `n` steps. */
  function Wrapped(n: nat): nat { n % U64_SIZE }

  function WrappedSum(a: nat, b: nat): nat { (a + b) % U64_SIZE }

  lemma WrappedSumIsSum(m: nat, n: nat)
    ensures WrappedSum(Wrapped(m), Wrapped(n)) == Wrapped(m + n)
  {
    var a, b := Wrapped(m), Wrapped(n);
    var k := m / U64_SIZE + n / U64_SIZE;
    assert m + n == k * U64_SIZE + (a + b);
  }

  const DEFAULT_BUCKETS: seq<Float> :=
    [Finite(0.1), Finite(0.5), Finite(1.0), Finite(5.0), Finite(10.0), Finite(30.0), Finite(60.0)]

  // ---- What the log of observations says ----

  /** The first bucket from `i` on whose bound is not exceeded; one past the last if there is none. */
  function BucketFrom(bounds: seq<Float>, v: Float, i: nat): (b: nat)
    requires i <= |bounds|
    ensures i <= b <= |bounds|
    ensures forall j | i <= j < b :: !AtMost(v, bounds[j])
    ensures b < |bounds| ==> AtMost(v, bounds[b])
    decreases |bounds| - i
  {
    if i == |bounds| || AtMost(v, bounds[i]) then i else BucketFrom(bounds, v, i + 1)
  }

  function Bucket(bounds: seq<Float>, v: Float): nat { BucketFrom(bounds, v, 0) }

  /** Observations that fall in a bucket before `i`. */
  function Before(bounds: seq<Float>, log: seq<Float>, i: nat): (n: nat)
    ensures n <= |log|
  {
    if log == [] then 0
    else Before(bounds, log[..|log| - 1], i) + if Bucket(bounds, log[|log| - 1]) < i then 1 else 0
  }

  function InBucket(bounds: seq<Float>, log: seq<Float>, i: nat): nat {
    if log == [] then 0
    else InBucket(bounds, log[..|log| - 1], i) + if Bucket(bounds, log[|log| - 1]) == i then 1 else 0
  }

  /** What the counter of a bucket shows. */
  function CountOf(bounds: seq<Float>, log: seq<Float>, i: nat): nat { Wrapped(InBucket(bounds, log, i)) }

  /** Observations at or below a bound. */
  function CountAtMost(log: seq<Float>, bound: Float): nat {
    if log == [] then 0
    else CountAtMost(log[..|log| - 1], bound) + if AtMost(log[|log| - 1], bound) then 1 else 0
  }

  function Total(log: seq<Float>): Float {
    if log == [] then Finite(0.0) else Plus(Total(log[..|log| - 1]), log[|log| - 1])
  }

  /** Each bound that can be met at all is at or below all later ones. */
  predicate Ascending(bounds: seq<Float>) {
    forall i, j | 0 <= i < j < |bounds| :: bounds[i].NaN? || AtMost(bounds[i], bounds[j])
  }

  class HistogramInner {
    const buckets: seq<Float>
    const counts: array<nat>
    var infCount: nat
    var sum: Float
    ghost var log: seq<Float>

    ghost predicate Valid()
      reads this, counts
    {
      && counts.Length == |buckets|
      && (forall i | 0 <= i < counts.Length :: counts[i] == CountOf(buckets, log, i))
      && infCount == CountOf(buckets, log, |buckets|)
      && sum == Total(log)
    }

    constructor (bounds: seq<Float>)
      ensures Valid() && fresh(counts) && buckets == bounds && log == []
    {
      buckets := bounds;
      counts := new nat[|bounds|](i => 0);
      infCount, sum, log := 0, Finite(0.0), [];
    }

    method FindBucket(value: Float) returns (b: nat)
      ensures b == Bucket(buckets, value)
    {
      for i := 0 to |buckets|
        invariant Bucket(buckets, value) == BucketFrom(buckets, value, i)
      {
        if AtMost(value, buckets[i]) {
          return i;
        }
      }
      return |buckets|;
    }

    method Record(value: Float)
      requires Valid()
      modifies this, counts
      ensures Valid() && log == old(log) + [value]
    {
      sum := Plus(sum, value);
      log := log + [value];
      TotalSnoc(old(log), value);
      forall i: nat
        ensures CountOf(buckets, log, i)
                == if i == Bucket(buckets, value) then WrappedSum(CountOf(buckets, old(log), i), 1) else CountOf(buckets, old(log), i)
      {
        CountOfSnoc(buckets, old(log), value, i);
      }
      var b := FindBucket(value);
      if b < |buckets| {
        counts[b] := WrappedSum(counts[b], 1);
      } else {
        infCount := WrappedSum(infCount, 1);
      }
    }

    /** The cumulative counts of the buckets, the count of all, and the sum. */
    method Export() returns (cumulative: seq<nat>, total: nat, s: Float)
      requires Valid()
      ensures |cumulative| == |buckets|
      ensures forall i | 0 <= i < |buckets| :: cumulative[i] == Wrapped(Before(buckets, log, i + 1))
      ensures total == Wrapped(|log|) && s == Total(log)
    {
      s := sum;
      cumulative := [];
      var soFar := 0;
      BeforeNone(buckets, log);
      for i := 0 to |buckets|
        invariant |cumulative| == i && soFar == Wrapped(Before(buckets, log, i))
        invariant forall k | 0 <= k < i :: cumulative[k] == Wrapped(Before(buckets, log, k + 1))
      {
        BeforeNext(buckets, log, i);
        WrappedSumIsSum(Before(buckets, log, i), InBucket(buckets, log, i));
        soFar := WrappedSum(soFar, counts[i]);
        cumulative := cumulative + [soFar];
      }
      total := 0;
      for i := 0 to |buckets|
        invariant total == Wrapped(Before(buckets, log, i))
      {
        BeforeNext(buckets, log, i);
        WrappedSumIsSum(Before(buckets, log, i), InBucket(buckets, log, i));
        total := WrappedSum(total, counts[i]);
      }
      EveryObservationHasABucket(buckets, log);
      WrappedSumIsSum(Before(buckets, log, |buckets|), InBucket(buckets, log, |buckets|));
      total := WrappedSum(total, infCount);
    }
  }

  lemma TotalSnoc(log: seq<Float>, v: Float)
    ensures Total(log + [v]) == Plus(Total(log), v)
  {
    assert (log + [v])[..|log|] == log;
  }

  lemma CountOfSnoc(bounds: seq<Float>, log: seq<Float>, v: Float, i: nat)
    ensures CountOf(bounds, log + [v], i)
            == if i == Bucket(bounds, v) then WrappedSum(CountOf(bounds, log, i), 1) else CountOf(bounds, log, i)
  {
    assert (log + [v])[..|log|] == log;
    WrappedSumIsSum(InBucket(bounds, log, i), 1);
  }

  lemma {:induction false} BeforeNone(bounds: seq<Float>, log: seq<Float>)
    ensures Before(bounds, log, 0) == 0
  {
    if log != [] {
      BeforeNone(bounds, log[..|log| - 1]);
    }
  }

  lemma {:induction false} BeforeNext(bounds: seq<Float>, log: seq<Float>, i: nat)
    ensures Before(bounds, log, i + 1) == Before(bounds, log, i) + InBucket(bounds, log, i)
  {
    if log != [] {
      BeforeNext(bounds, log[..|log| - 1], i);
    }
  }

  lemma {:induction false} EveryObservationHasABucket(bounds: seq<Float>, log: seq<Float>)
    ensures Before(bounds, log, |bounds|) + InBucket(bounds, log, |bounds|) == |log|
  {
    if log != [] {
      EveryObservationHasABucket(bounds, log[..|log| - 1]);
    }
  }

  lemma {:induction false} AscendingBoundsCount(bounds: seq<Float>, log: seq<Float>, i: nat)
    requires Ascending(bounds) && i < |bounds|
    ensures Before(bounds, log, i + 1) == CountAtMost(log, bounds[i])
  {
    if log != [] {
      AscendingBoundsCount(bounds, log[..|log| - 1], i);
      var v := log[|log| - 1];
      var b := Bucket(bounds, v);
      if b < i {
        assert AtMost(v, bounds[b]) && AtMost(bounds[b], bounds[i]);
      }
    }
  }

  /** An export shows, at each bound, the observations at or below it, whatever was observed,
      exactly when the bounds are ascending. */
  lemma ExportIsExactIffAscending(bounds: seq<Float>)
    ensures Ascending(bounds) <==>
            forall log: seq<Float>, i | 0 <= i < |bounds| ::
              Wrapped(Before(bounds, log, i + 1)) == Wrapped(CountAtMost(log, bounds[i]))
  {
    if Ascending(bounds) {
      forall log: seq<Float>, i | 0 <= i < |bounds|
        ensures Before(bounds, log, i + 1) == CountAtMost(log, bounds[i])
      {
        AscendingBoundsCount(bounds, log, i);
      }
    } else {
      var i, j :| 0 <= i < j < |bounds| && !bounds[i].NaN? && !AtMost(bounds[i], bounds[j]);
      var log := [bounds[i]];
      assert log[..0] == [];
      assert AtMost(bounds[i], bounds[i]) && Bucket(bounds, bounds[i]) <= i;
      assert Before(bounds, log, j + 1) == 1 && CountAtMost(log, bounds[j]) == 0;
    }
  }

  /** The buckets every histogram is made with are ascending. */
  lemma DefaultBucketsAscend()
    ensures Ascending(DEFAULT_BUCKETS)
  {
  }

  // ---- The sum and the order of floats ----

  function Finites(values: seq<real>): (r: seq<Float>)
    ensures |r| == |values|
  {
    seq(|values|, i requires 0 <= i < |values| => Finite(values[i]))
  }

  function RealSum(values: seq<real>): real {
    if values == [] then 0.0 else RealSum(values[..|values| - 1]) + values[|values| - 1]
  }

  /** The exported sum of finite observations is their sum. */
  lemma {:induction false} SumOfFinites(values: seq<real>)
    ensures Total(Finites(values)) == Finite(RealSum(values))
  {
    if values != [] {
      var n := |values| - 1;
      SumOfFinites(values[..n]);
      assert Finites(values)[..n] == Finites(values[..n]);
    }
  }

  lemma {:induction false} SumAppend(a: seq<real>, b: seq<real>)
    ensures RealSum(a + b) == RealSum(a) + RealSum(b)
  {
    if b == [] {
      assert a + b == a;
    } else {
      SumAppend(a, b[..|b| - 1]);
      assert (a + b)[..|a + b| - 1] == a + b[..|b| - 1];
    }
  }

  lemma WithoutOne(values: seq<real>, i: nat) returns (rest: seq<real>)
    requires i < |values|
    ensures |rest| == |values| - 1 && multiset(rest) + multiset{values[i]} == multiset(values)
    ensures RealSum(values) == RealSum(rest) + values[i]
  {
    var before, after := values[..i], values[i + 1..];
    rest := before + after;
    assert values == before + ([values[i]] + after);
    SumAppend(before, [values[i]] + after);
    SumAppend([values[i]], after);
    SumAppend(before, after);
    SumOne(values[i]);
  }

  /** The order in which values are observed does not matter, and each adds itself. */
  lemma {:induction false} SumIgnoresOrder(a: seq<real>, b: seq<real>)
    requires multiset(a) == multiset(b)
    ensures RealSum(a) == RealSum(b)
    decreases |a|
  {
    if a == [] {
      assert |multiset(b)| == |b|;
    } else {
      assert a[0] in multiset(b);
      var i :| 0 <= i < |b| && b[i] == a[0];
      var ra := WithoutOne(a, 0);
      var rb := WithoutOne(b, i);
      assert multiset(ra) == multiset(rb) by {
        assert multiset(ra) == multiset(a) - multiset{a[0]};
        assert multiset(rb) == multiset(b) - multiset{a[0]};
      }
      SumIgnoresOrder(ra, rb);
    }
  }

  lemma SumOne(x: real)
    ensures RealSum([x]) == x
  {
    assert [x][..0] == [];
  }

  /** Infinities and values that are no numbers: one infinity makes the sum infinite, both, or a
      value that is no number, make it none. */
  lemma SumOfOthers(log: seq<Float>, v: Float)
    ensures Total(log + [v]) ==
            if Total(log).NaN? || v.NaN? || (Total(log).PosInf? && v.NegInf?) || (Total(log).NegInf? && v.PosInf?) then NaN
            else if Total(log).PosInf? || v.PosInf? then PosInf
            else if Total(log).NegInf? || v.NegInf? then NegInf
            else Finite(Total(log).value + v.value)
  {
    assert (log + [v])[..|log|] == log;
  }

  /** Comparison: of finite values as of reals; nothing is at most, or at least, a value that is
      no number; the infinities are at the ends. */
  lemma AtMostMeans(a: Float, b: Float)
    ensures a.Finite? && b.Finite? ==> (AtMost(a, b) <==> a.value <= b.value)
    ensures a.NaN? || b.NaN? ==> !AtMost(a, b)
    ensures !b.NaN? ==> AtMost(NegInf, b) && (AtMost(PosInf, b) <==> b.PosInf?)
    ensures !a.NaN? ==> AtMost(a, PosInf) && (AtMost(a, NegInf) <==> a.NegInf?)
  {}

  function PlacesAtMost(log: seq<Float>, bound: Float): set<nat> { set i: nat | i < |log| && AtMost(log[i], bound) }

  /** The observations at or below a bound, counted one by one. */
  lemma {:induction false} CountIsSize(log: seq<Float>, bound: Float)
    ensures CountAtMost(log, bound) == |PlacesAtMost(log, bound)|
  {
    if log == [] {
      assert PlacesAtMost(log, bound) == {};
    } else {
      var n := |log| - 1;
      CountIsSize(log[..n], bound);
      assert n !in PlacesAtMost(log[..n], bound);
      if AtMost(log[n], bound) {
        assert PlacesAtMost(log, bound) == PlacesAtMost(log[..n], bound) + {n};
      } else {
        assert PlacesAtMost(log, bound) == PlacesAtMost(log[..n], bound);
      }
    }
  }
}
