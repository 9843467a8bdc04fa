/** Filtering, cutting and joining sequences. */
module Sequences {
  function Filter<T>(xs: seq<T>, keep: T -> bool): seq<T> {
    if xs == [] then []
    else Filter(xs[..|xs| - 1], keep) + (if keep(xs[|xs| - 1]) then [xs[|xs| - 1]] else [])
  }

  lemma {:induction false} FilterAll<T>(xs: seq<T>, keep: T -> bool)
    requires forall i | 0 <= i < |xs| :: keep(xs[i])
    ensures Filter(xs, keep) == xs
  {
    if xs != [] {
      FilterAll(xs[..|xs| - 1], keep);
    }
  }

  lemma {:induction false} FilterAppend<T>(a: seq<T>, b: seq<T>, keep: T -> bool)
    ensures Filter(a + b, keep) == Filter(a, keep) + Filter(b, keep)
  {
    if b == [] {
      assert a + b == a;
    } else {
      var rest, x := b[..|b| - 1], b[|b| - 1];
      FilterAppend(a, rest, keep);
      FilterSnoc(a + rest, x, keep);
      assert a + b == a + rest + [x];
    }
  }

  lemma FilterSnoc<T>(xs: seq<T>, x: T, keep: T -> bool)
    ensures Filter(xs + [x], keep) == if keep(x) then Filter(xs, keep) + [x] else Filter(xs, keep)
  {
    assert (xs + [x])[..|xs|] == xs;
  }

  lemma FilterCons<T>(x: T, xs: seq<T>, keep: T -> bool)
    ensures Filter([x] + xs, keep) == if keep(x) then [x] + Filter(xs, keep) else Filter(xs, keep)
  {
    FilterAppend([x], xs, keep);
    FilterSnoc([], x, keep);
    assert [] + [x] == [x];
  }

  lemma {:induction false} FilterNone<T>(xs: seq<T>, keep: T -> bool)
    requires forall x <- xs :: !keep(x)
    ensures Filter(xs, keep) == []
  {
    if xs != [] {
      FilterNone(xs[..|xs| - 1], keep);
    }
  }

  lemma {:induction false} FirstKept<T>(xs: seq<T>, keep: T -> bool) returns (i: nat)
    requires Filter(xs, keep) != []
    ensures i < |xs| && xs[i] == Filter(xs, keep)[0] && keep(xs[i])
    ensures forall x <- xs[..i] :: !keep(x)
    decreases |xs|
  {
    assert xs == [xs[0]] + xs[1..];
    FilterCons(xs[0], xs[1..], keep);
    if keep(xs[0]) {
      i := 0;
    } else {
      var k := FirstKept(xs[1..], keep);
      i := k + 1;
      assert xs[..i] == [xs[0]] + xs[1..][..k];
    }
  }

  /** Two lists that filter alike still do without their first kept element. */
  lemma FilterRemove<T>(x: T, a: seq<T>, before: seq<T>, after: seq<T>, keep: T -> bool)
    requires Filter([x] + a, keep) == Filter(before + ([x] + after), keep)
    requires keep(x) ==> forall y <- before :: !keep(y)
    ensures Filter(a, keep) == Filter(before + after, keep)
  {
    FilterAppend(before, [x] + after, keep);
    FilterAppend(before, after, keep);
    FilterCons(x, a, keep);
    FilterCons(x, after, keep);
    if keep(x) {
      FilterNone(before, keep);
      assert ([x] + Filter(a, keep))[1..] == ([x] + Filter(after, keep))[1..];
    }
  }

  lemma {:induction false} FilterIsPart<T>(xs: seq<T>, keep: T -> bool)
    ensures forall x <- Filter(xs, keep) :: x in xs && keep(x)
  {
    if xs != [] {
      FilterIsPart(xs[..|xs| - 1], keep);
    }
  }

  lemma {:induction false} FilterTwiceWithin<T>(xs: seq<T>, wide: T -> bool, narrow: T -> bool)
    requires forall x <- xs :: narrow(x) ==> wide(x)
    ensures Filter(Filter(xs, wide), narrow) == Filter(xs, narrow)
  {
    if xs != [] {
      var front, last := xs[..|xs| - 1], xs[|xs| - 1];
      assert xs == front + [last] && last in xs;
      FilterTwiceWithin(front, wide, narrow);
      FilterSnoc(front, last, wide);
      FilterSnoc(front, last, narrow);
      if wide(last) {
        FilterSnoc(Filter(front, wide), last, narrow);
      }
    }
  }

  lemma FilterTwiceNone<T>(xs: seq<T>, one: T -> bool, other: T -> bool)
    requires forall x <- xs :: one(x) ==> !other(x)
    ensures Filter(Filter(xs, one), other) == []
  {
    FilterIsPart(xs, one);
    FilterNone(Filter(xs, one), other);
  }

  // ---- Which elements ----

  /** `places` lists, in order, the places below `n` that are wanted. */
  ghost predicate Enumerates(places: seq<nat>, n: nat, wanted: nat -> bool) {
    && (forall a, b | 0 <= a < b < |places| :: places[a] < places[b])
    && (forall i: nat :: i in places <==> i < n && wanted(i))
  }

  lemma AllPlaces(n: nat, wanted: nat -> bool) returns (places: seq<nat>)
    requires forall i: nat | i < n :: wanted(i)
    ensures Enumerates(places, n, wanted) && |places| == n && forall i | 0 <= i < n :: places[i] == i
  {
    places := seq(n, j requires 0 <= j < n => j);
    forall i: nat
      ensures i in places <==> i < n && wanted(i)
    {
      if i < n {
        assert places[i] == i;
      }
    }
  }

  function Shifted(places: seq<nat>): (r: seq<nat>)
    ensures |r| == |places| && forall j | 0 <= j < |r| :: r[j] == places[j] + 1
  {
    seq(|places|, j requires 0 <= j < |places| => places[j] + 1)
  }

  /** The places in a list with one more element at its head. */
  lemma PlacesCons(places: seq<nat>, n: nat, wanted: nat -> bool, all: nat -> bool)
    requires Enumerates(places, n, wanted) && forall i: nat | i < n :: all(i + 1) == wanted(i)
    ensures Enumerates((if all(0) then [0] else []) + Shifted(places), n + 1, all)
  {
    var r := (if all(0) then [0] else []) + Shifted(places);
    forall i: nat
      ensures i in r <==> i < n + 1 && all(i)
    {
      if i > 0 {
        assert i - 1 in places <==> i - 1 < n && wanted(i - 1);
        if i - 1 in places {
          var j :| 0 <= j < |places| && places[j] == i - 1;
          assert Shifted(places)[j] == i;
        }
        if i in Shifted(places) {
          var j :| 0 <= j < |places| && Shifted(places)[j] == i;
          assert places[j] == i - 1;
        }
      }
    }
  }

  lemma PlacesSnoc(places: seq<nat>, n: nat, wanted: nat -> bool, all: nat -> bool)
    requires Enumerates(places, n, wanted) && forall i: nat | i < n :: all(i) == wanted(i)
    ensures Enumerates(places + (if all(n) then [n] else []), n + 1, all)
    ensures forall j | 0 <= j < |places| :: places[j] < n
  {
    assert forall j | 0 <= j < |places| :: places[j] in places;
  }

  /** Element `j` is the value for place `j` of the list. */
  predicate AllFrom<T(==)>(r: seq<T>, places: seq<nat>, value: nat -> T) {
    |r| == |places| && forall j | 0 <= j < |r| :: r[j] == value(places[j])
  }

  lemma AllFromCons<T>(r: seq<T>, places: seq<nat>, value: nat -> T, first: bool, more: nat -> T)
    requires AllFrom(r, places, value) && forall j | 0 <= j < |places| :: more(places[j] + 1) == value(places[j])
    ensures AllFrom((if first then [more(0)] else []) + r, (if first then [0] else []) + Shifted(places), more)
  {}

  function Picked(places: seq<nat>, of: seq<nat>): (r: seq<nat>)
    requires forall j | 0 <= j < |of| :: of[j] < |places|
    ensures |r| == |of| && forall j | 0 <= j < |of| :: r[j] == places[of[j]]
  {
    seq(|of|, j requires 0 <= j < |of| => places[of[j]])
  }

  /** Wanted places among wanted places. */
  lemma PlacesOfPlaces(places: seq<nat>, n: nat, wanted: nat -> bool, of: seq<nat>, among: nat -> bool, all: nat -> bool)
    requires Enumerates(places, n, wanted) && Enumerates(of, |places|, among)
    requires forall j | 0 <= j < |places| :: among(j) == all(places[j])
    requires forall i: nat | i < n && all(i) :: wanted(i)
    ensures forall j | 0 <= j < |of| :: of[j] < |places|
    ensures Enumerates(Picked(places, of), n, all)
  {
    forall j | 0 <= j < |of|
      ensures of[j] < |places| && among(of[j])
    {
      assert of[j] in of;
    }
    var r := Picked(places, of);
    forall i: nat
      ensures i in r <==> i < n && all(i)
    {
      if i in r {
        var j :| 0 <= j < |of| && r[j] == i;
        assert places[of[j]] in places;
      }
      if i < n && all(i) {
        assert i in places;
        var k :| 0 <= k < |places| && places[k] == i;
        assert k in of;
        var j :| 0 <= j < |of| && of[j] == k;
        assert r[j] == i;
      }
    }
  }

  /** A filter takes exactly the elements at the places where they are kept, in order. */
  lemma {:induction false} FilterPlaces<T>(xs: seq<T>, keep: T -> bool) returns (places: seq<nat>)
    ensures Enumerates(places, |xs|, i => 0 <= i < |xs| && keep(xs[i]))
    ensures |Filter(xs, keep)| == |places|
    ensures forall j | 0 <= j < |places| :: places[j] < |xs| && Filter(xs, keep)[j] == xs[places[j]]
  {
    places := [];
    if xs != [] {
      var n := |xs| - 1;
      places := FilterPlaces(xs[..n], keep);
      assert forall j | 0 <= j < |places| :: places[j] in places;
      if keep(xs[n]) {
        places := places + [n];
      }
    }
  }

  lemma {:induction false} FilterBoth<T>(xs: seq<T>, p: T -> bool, q: T -> bool, both: T -> bool)
    requires forall x <- xs :: both(x) == (p(x) && q(x))
    ensures Filter(Filter(xs, p), q) == Filter(xs, both)
  {
    if xs != [] {
      var front, last := xs[..|xs| - 1], xs[|xs| - 1];
      FilterBoth(front, p, q, both);
      assert xs == front + [last] && last in xs;
      FilterSnoc(front, last, p);
      FilterSnoc(front, last, both);
      if p(last) {
        FilterSnoc(Filter(front, p), last, q);
      }
    }
  }

  lemma FilterFour<T>(xs: seq<T>, a: T -> bool, b: T -> bool, c: T -> bool, d: T -> bool, all: T -> bool)
    requires forall x <- xs :: all(x) == (a(x) && b(x) && c(x) && d(x))
    ensures Filter(Filter(Filter(Filter(xs, a), b), c), d) == Filter(xs, all)
  {
    var ab, abc := x => a(x) && b(x), x => a(x) && b(x) && c(x);
    FilterBoth(xs, a, b, ab);
    FilterBoth(xs, ab, c, abc);
    FilterBoth(xs, abc, d, all);
  }

  lemma {:induction false} FilterSame<T>(xs: seq<T>, p: T -> bool, q: T -> bool)
    requires forall x <- xs :: p(x) == q(x)
    ensures Filter(xs, p) == Filter(xs, q)
  {
    if xs != [] {
      assert xs[|xs| - 1] in xs;
      FilterSame(xs[..|xs| - 1], p, q);
    }
  }

  lemma DropDrop<T>(s: seq<T>, a: nat, b: nat)
    requires a + b <= |s|
    ensures s[a..][b..] == s[a + b..]
  {}

  lemma DropTake<T>(s: seq<T>, a: nat, b: nat)
    requires a + b <= |s|
    ensures s[a..][..b] == s[a..a + b]
  {}

  lemma Reassociate<T>(a: seq<T>, b: seq<T>, c: seq<T>)
    ensures a + (b + c) == a + b + c
  {}
}
