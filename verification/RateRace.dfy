/** The limit on tool calls when several threads check before any of them records. */
module RateRace {
  import opened Wrappers
  import opened Sets
  import opened Meter
  import opened RateLimit

  type Tid = nat

  /** `cleared` are the threads whose check has allowed a call that they have yet to record. */
  datatype Race = Race(h: History, cleared: set<Tid>)

  datatype Label = CheckCall(t: Tid, now: Time) | RecordCall(t: Tid, now: Time)

  /** What a truncation leaves. */
  const KEPT: nat := MAX_ENTRIES + 1 - (MAX_ENTRIES + 1) / 2

  /** The check and the record each hold the meter's lock, so each is a step; the clock does not
      go back. */
  function Step(limit: nat, pool: set<Tid>, s: Race, l: Label): Option<Race> {
    if l.t !in pool || l.now < s.h.clock then None
    else
      match l
      case CheckCall(t, now) =>
        if t in s.cleared then None
        else
          var h := Next(s.h, Read(now), WINDOW);
          Some(Race(h, if |h.entries| < limit then s.cleared + {t} else s.cleared))
      case RecordCall(t, now) =>
        if t !in s.cleared then None else Some(Race(Next(s.h, Record(now, 1), WINDOW), s.cleared - {t}))
  }

  function RunRace(limit: nat, pool: set<Tid>, s: Race, labels: seq<Label>): Option<Race>
    decreases |labels|
  {
    if labels == [] then Some(s)
    else match Step(limit, pool, s, labels[0])
      case None => None
      case Some(s') => RunRace(limit, pool, s', labels[1..])
  }

  const BEFORE := Race(START, {})

  /** The limit, and one more call for every thread but one. */
  function Bound(limit: nat, pool: set<Tid>): nat
    requires pool != {}
  {
    limit + |pool| - 1
  }

  /** The bound is within what the meter can hold, or a truncation leaves enough to refuse. */
  predicate Holds(limit: nat, pool: set<Tid>)
    requires pool != {}
  {
    limit <= KEPT || Bound(limit, pool) <= MAX_ENTRIES
  }

  // ---- Where the bound holds ----

  function InWindow(log: seq<Entry>, now: Time): nat { |log| - Expired(log, now, WINDOW) }

  ghost predicate Inv(limit: nat, pool: set<Tid>, s: Race)
    requires pool != {}
  {
    && Represents(s.h, WINDOW) && s.cleared <= pool
    && InWindow(s.h.log, s.h.clock) + |s.cleared| <= Bound(limit, pool)
    && Spaced(s.h.log, Bound(limit, pool))
    && s.h.dropped <= |s.h.log|
    && (if limit <= KEPT then s.h.dropped > 0 ==> |s.h.log| - s.h.dropped >= KEPT else s.h.dropped == 0)
  }

  /** A check that passes has counted all of the window. */
  lemma PassingCheckIsExact(limit: nat, h: History, now: Time)
    requires Represents(h, WINDOW) && h.clock <= now && h.dropped <= |h.log|
    requires if limit <= KEPT then h.dropped > 0 ==> |h.log| - h.dropped >= KEPT else h.dropped == 0
    ensures |Retained(h.entries, now, WINDOW)| < limit ==> InWindow(h.log, now) < limit
  {
    PrunedEntries(h, now, WINDOW);
  }

  lemma CheckKeeps(limit: nat, pool: set<Tid>, s: Race, t: Tid, now: Time)
    requires pool != {} && Inv(limit, pool, s) && t in pool - s.cleared && s.h.clock <= now
    ensures Inv(limit, pool, Step(limit, pool, s, CheckCall(t, now)).value)
  {
    var s' := Step(limit, pool, s, CheckCall(t, now)).value;
    assert Represents(s'.h, WINDOW) by { NextRepresents(s.h, Read(now), WINDOW); }
    assert InWindow(s.h.log, now) <= InWindow(s.h.log, s.h.clock) by {
      ExpiredGrows(s.h.log, s.h.clock, s.h.clock, now, WINDOW);
    }
    if |s'.h.entries| < limit {
      assert InWindow(s.h.log, now) < limit by { PassingCheckIsExact(limit, s.h, now); }
      SizeOfSubset(s'.cleared, pool);
    }
  }

  lemma SizeOfSubset<T>(a: set<T>, b: set<T>)
    requires a <= b
    ensures |a| <= |b|
  {
    if a != b {
      SubsetSize(a, b);
    }
  }

  lemma RecordGrows(log: seq<Entry>, clock: Time, now: Time)
    requires Ordered(log, clock) && clock <= now
    ensures InWindow(log, now) <= InWindow(log, clock)
    ensures InWindow(log + [Entry(now, 1)], now) <= InWindow(log, now) + 1
  {
    ExpiredGrows(log, clock, clock, now, WINDOW);
    ExpiredSnoc(log, Entry(now, 1), now, WINDOW);
  }

  lemma RecordSpaced(log: seq<Entry>, clock: Time, now: Time, bound: nat)
    requires Ordered(log, clock) && clock <= now && Spaced(log, bound) && InWindow(log, clock) < bound
    ensures Spaced(log + [Entry(now, 1)], bound)
  {
    ExpiredIsBoundary(log, clock, WINDOW, clock);
    var n, more := |log|, log + [Entry(now, 1)];
    if bound <= n {
      assert !Recent(log[n - bound], clock, WINDOW);
    }
    forall i | bound <= i < |more|
      ensures more[i].at - more[i - bound].at >= WINDOW
    {}
  }

  lemma RecordDrops(h: History, now: Time)
    requires Represents(h, WINDOW) && h.clock <= now
    ensures var h' := Next(h, Record(now, 1), WINDOW);
            && h'.log == h.log + [Entry(now, 1)] && h'.clock == now
            && (h'.dropped == h.dropped || (h'.dropped <= |h'.log| && |h'.log| - h'.dropped == KEPT))
            && (InWindow(h.log, now) < MAX_ENTRIES ==> h'.dropped == h.dropped)
  {
    PrunedEntries(h, now, WINDOW);
    RetainedShorter(h.entries, now, WINDOW);
    NextRepresents(h, Record(now, 1), WINDOW);
  }

  lemma RecordKeeps(limit: nat, pool: set<Tid>, s: Race, t: Tid, now: Time)
    requires pool != {} && Holds(limit, pool) && Inv(limit, pool, s) && t in s.cleared && s.h.clock <= now
    ensures Inv(limit, pool, Step(limit, pool, s, RecordCall(t, now)).value)
  {
    var s' := Step(limit, pool, s, RecordCall(t, now)).value;
    assert |s'.cleared| == |s.cleared| - 1;
    NextRepresents(s.h, Record(now, 1), WINDOW);
    RecordGrows(s.h.log, s.h.clock, now);
    RecordSpaced(s.h.log, s.h.clock, now, Bound(limit, pool));
    RecordDrops(s.h, now);
  }

  lemma {:induction false} RaceKeeps(limit: nat, pool: set<Tid>, s: Race, labels: seq<Label>)
    requires pool != {} && Holds(limit, pool) && Inv(limit, pool, s) && RunRace(limit, pool, s, labels).Some?
    ensures Inv(limit, pool, RunRace(limit, pool, s, labels).value)
    decreases |labels|
  {
    if labels != [] {
      match labels[0] {
        case CheckCall(t, now) => CheckKeeps(limit, pool, s, t, now);
        case RecordCall(t, now) => RecordKeeps(limit, pool, s, t, now);
      }
      RaceKeeps(limit, pool, Step(limit, pool, s, labels[0]).value, labels[1..]);
    }
  }

  // ---- Runs of one instant ----

  /** Everything so far happened at time 0, so nothing has left the window. */
  ghost predicate Instant(s: Race) {
    && Represents(s.h, WINDOW) && s.h.clock == 0 && s.h.dropped <= |s.h.log|
    && (|s.h.log| <= MAX_ENTRIES ==> s.h.dropped == 0)
    && (|s.h.log| == MAX_ENTRIES + 1 ==> |s.h.log| - s.h.dropped == KEPT)
  }

  function Counted(s: Race): int { |s.h.log| - s.h.dropped }

  lemma {:induction false} NothingExpired(log: seq<Entry>)
    requires Ordered(log, 0)
    ensures Expired(log, 0, WINDOW) == 0
  {
    if log != [] {
      assert Recent(log[|log| - 1], 0, WINDOW);
      NothingExpired(log[..|log| - 1]);
    }
  }

  lemma InstantCheck(limit: nat, pool: set<Tid>, s: Race, t: Tid)
    requires Instant(s) && t in pool - s.cleared && Counted(s) < limit
    ensures var r := Step(limit, pool, s, CheckCall(t, 0));
            r.Some? && Instant(r.value) && r.value.cleared == s.cleared + {t}
            && r.value.h.log == s.h.log && r.value.h.dropped == s.h.dropped
  {
    NextRepresents(s.h, Read(0), WINDOW);
    PrunedEntries(s.h, 0, WINDOW);
    NothingExpired(s.h.log);
  }

  lemma InstantRecord(limit: nat, pool: set<Tid>, s: Race, t: Tid)
    requires Instant(s) && t in pool && t in s.cleared
    ensures var r := Step(limit, pool, s, RecordCall(t, 0));
            r.Some? && Instant(r.value) && r.value.cleared == s.cleared - {t}
            && |r.value.h.log| == |s.h.log| + 1
  {
    NextRepresents(s.h, Record(0, 1), WINDOW);
    PrunedEntries(s.h, 0, WINDOW);
    NothingExpired(s.h.log);
    RecordDrops(s.h, 0);
  }

  lemma {:induction false} RunOn(limit: nat, pool: set<Tid>, s: Race, a: seq<Label>, b: seq<Label>)
    requires RunRace(limit, pool, s, a).Some?
    ensures RunRace(limit, pool, s, a + b) == RunRace(limit, pool, RunRace(limit, pool, s, a).value, b)
    decreases |a|
  {
    if a == [] {
      assert a + b == b;
    } else {
      assert (a + b)[1..] == a[1..] + b;
      RunOn(limit, pool, Step(limit, pool, s, a[0]).value, a[1..], b);
    }
  }

  lemma {:induction false} ClearAll(limit: nat, pool: set<Tid>, s: Race, group: set<Tid>) returns (labels: seq<Label>)
    requires Instant(s) && group <= pool && group !! s.cleared && Counted(s) < limit
    ensures RunRace(limit, pool, s, labels).Some?
    ensures var s' := RunRace(limit, pool, s, labels).value;
            Instant(s') && s'.cleared == s.cleared + group && s'.h.log == s.h.log
    decreases |group|
  {
    labels := [];
    if group != {} {
      var t :| t in group;
      InstantCheck(limit, pool, s, t);
      var s1 := Step(limit, pool, s, CheckCall(t, 0)).value;
      var rest := ClearAll(limit, pool, s1, group - {t});
      labels := [CheckCall(t, 0)] + rest;
      assert labels[1..] == rest;
      assert s.cleared + {t} + (group - {t}) == s.cleared + group;
    } else {
      assert s.cleared + group == s.cleared;
    }
  }

  lemma {:induction false} RecordAll(limit: nat, pool: set<Tid>, s: Race) returns (labels: seq<Label>)
    requires Instant(s) && s.cleared <= pool
    ensures RunRace(limit, pool, s, labels).Some?
    ensures var s' := RunRace(limit, pool, s, labels).value;
            Instant(s') && s'.cleared == {} && |s'.h.log| == |s.h.log| + |s.cleared|
    decreases |s.cleared|
  {
    labels := [];
    if s.cleared != {} {
      var t :| t in s.cleared;
      InstantRecord(limit, pool, s, t);
      var s1 := Step(limit, pool, s, RecordCall(t, 0)).value;
      assert |s1.cleared| == |s.cleared| - 1;
      var rest := RecordAll(limit, pool, s1);
      labels := [RecordCall(t, 0)] + rest;
      assert labels[1..] == rest;
    }
  }

  /** A group of threads all check, and then all record. */
  lemma Rush(limit: nat, pool: set<Tid>, s: Race, group: set<Tid>) returns (labels: seq<Label>)
    requires Instant(s) && s.cleared == {} && group <= pool && Counted(s) < limit
    ensures RunRace(limit, pool, s, labels).Some?
    ensures var s' := RunRace(limit, pool, s, labels).value;
            Instant(s') && s'.cleared == {} && |s'.h.log| == |s.h.log| + |group|
  {
    var checks := ClearAll(limit, pool, s, group);
    var s1 := RunRace(limit, pool, s, checks).value;
    assert s1.cleared == group;
    var records := RecordAll(limit, pool, s1);
    RunOn(limit, pool, s, checks, records);
    labels := checks + records;
  }

  /** Alone, a thread can make as many calls as the limit, and any number if that is above the cap. */
  lemma {:induction false} Alone(limit: nat, pool: set<Tid>, t: Tid, n: nat) returns (labels: seq<Label>)
    requires t in pool && (n <= limit || limit > MAX_ENTRIES)
    ensures RunRace(limit, pool, BEFORE, labels).Some?
    ensures var s := RunRace(limit, pool, BEFORE, labels).value; Instant(s) && s.cleared == {} && |s.h.log| == n
  {
    labels := [];
    if n > 0 {
      labels := Alone(limit, pool, t, n - 1);
      var s := RunRace(limit, pool, BEFORE, labels).value;
      CountedAtMost(s);
      var more := Rush(limit, pool, s, {t});
      RunOn(limit, pool, BEFORE, labels, more);
      labels := labels + more;
    }
  }

  lemma CountedAtMost(s: Race)
    requires Instant(s)
    ensures Counted(s) <= |s.h.log| && Counted(s) <= MAX_ENTRIES
  {
    PrunedEntries(s.h, 0, WINDOW);
    NothingExpired(s.h.log);
    RetainedShorter(s.h.entries, 0, WINDOW);
  }

  /** The bound is reached: all threads check when one more call is allowed, and all record. */
  lemma BoundIsReached(limit: nat, pool: set<Tid>) returns (labels: seq<Label>)
    requires pool != {} && limit >= 1
    ensures RunRace(limit, pool, BEFORE, labels).Some?
    ensures !Spaced(RunRace(limit, pool, BEFORE, labels).value.h.log, Bound(limit, pool) - 1)
  {
    var t :| t in pool;
    var first := Alone(limit, pool, t, limit - 1);
    var s := RunRace(limit, pool, BEFORE, first).value;
    CountedAtMost(s);
    var rush := Rush(limit, pool, s, pool);
    RunOn(limit, pool, BEFORE, first, rush);
    labels := first + rush;
    AllAtOnceIsCrowded(RunRace(limit, pool, BEFORE, labels).value.h.log, Bound(limit, pool) - 1);
  }

  /** Where the bound does not hold it is passed: once a truncation has left fewer entries than
      the limit, all threads are let through again. */
  lemma BoundIsPassed(limit: nat, pool: set<Tid>) returns (labels: seq<Label>)
    requires pool != {} && !Holds(limit, pool)
    ensures RunRace(limit, pool, BEFORE, labels).Some?
    ensures !Spaced(RunRace(limit, pool, BEFORE, labels).value.h.log, Bound(limit, pool))
  {
    var t :| t in pool;
    if limit > MAX_ENTRIES {
      labels := Alone(limit, pool, t, limit + |pool|);
    } else {
      labels := Alone(limit, pool, t, limit - 1);
      var s := RunRace(limit, pool, BEFORE, labels).value;
      CountedAtMost(s);
      var group := PickSubset(pool, MAX_ENTRIES + 2 - limit);
      var fill := Rush(limit, pool, s, group);
      RunOn(limit, pool, BEFORE, labels, fill);
      labels := labels + fill;
      var s1 := RunRace(limit, pool, BEFORE, labels).value;
      assert Counted(s1) == KEPT;
      var rush := Rush(limit, pool, s1, pool);
      RunOn(limit, pool, BEFORE, labels, rush);
      labels := labels + rush;
    }
    AllAtOnceIsCrowded(RunRace(limit, pool, BEFORE, labels).value.h.log, Bound(limit, pool));
  }

  /** Threads that check before they record, in any interleaving, never have more calls in a
      minute than the limit and one more for each thread but one, exactly when the limit is at
      most the 5,001 entries that a truncation leaves or that sum is at most the cap. */
  lemma RaceBoundHoldsExactlyWhen(limit: nat, pool: set<Tid>)
    requires pool != {}
    ensures Holds(limit, pool) <==>
            forall labels: seq<Label> | RunRace(limit, pool, BEFORE, labels).Some? ::
              Spaced(RunRace(limit, pool, BEFORE, labels).value.h.log, Bound(limit, pool))
  {
    if Holds(limit, pool) {
      forall labels: seq<Label> | RunRace(limit, pool, BEFORE, labels).Some?
        ensures Spaced(RunRace(limit, pool, BEFORE, labels).value.h.log, Bound(limit, pool))
      {
        RaceKeeps(limit, pool, BEFORE, labels);
      }
    } else {
      var labels := BoundIsPassed(limit, pool);
    }
  }
}
