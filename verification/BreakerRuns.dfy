/** Where the bounds on probes are exact: when the bound with late decrements holds, and when
    the plain limit holds. */
module BreakerRuns {
  import opened Wrappers
  import opened Words
  import opened Sets
  import opened CircuitBreaker
  import opened BreakerProtocol
  import opened BreakerInvariants
  import opened BreakerTheorems

  predicate Bounded(c: Config, s: State) { s.admitted <= c.halfOpenMax + s.late }

  predicate AllIdle(s: State) { forall t <- s.pcs :: s.pcs[t] == Idle }

  lemma {:induction false} RunAppend(c: Config, s: State, a: seq<Label>, b: seq<Label>)
    requires Run(c, s, a).Some?
    ensures Run(c, s, a + b) == Run(c, Run(c, s, a).value, b)
    decreases |a|
  {
    if a == [] {
      assert a + b == b;
    } else {
      assert (a + b)[1..] == a[1..] + b;
      RunAppend(c, Step(c, s, a[0]).value, a[1..], b);
    }
  }

  lemma RunThen(c: Config, s: State, a: seq<Label>, l: Label)
    requires Run(c, s, a).Some?
    ensures Run(c, s, a + [l]) == Step(c, Run(c, s, a).value, l)
  {
    RunAppend(c, s, a, [l]);
    var m := Run(c, s, a).value;
    assert [l][0] == l && [l][1..] == [];
    if Step(c, m, l).Some? {
      assert Run(c, Step(c, m, l).value, []) == Some(Step(c, m, l).value);
    }
  }

  lemma RunOne(c: Config, s: State, l: Label)
    ensures Run(c, s, [l]) == Step(c, s, l)
  {
    RunThen(c, s, [], l);
    assert [] + [l] == [l];
  }

  lemma RunTwo(c: Config, s: State, l: Label, m: Label)
    requires Step(c, s, l).Some?
    ensures Run(c, s, [l, m]) == Step(c, Step(c, s, l).value, m)
  {
    RunOne(c, s, l);
    RunThen(c, s, [l], m);
    assert [l] + [m] == [l, m];
  }

  // ---- Getting into a period ----

  lemma {:induction false} OpenUp(c: Config, s: State, t: Tid) returns (labels: seq<Label>)
    requires t in s.pcs && s.pcs[t] == Idle && Writable(s) && s.core.mode == Closed
    requires s.core.failures == 0 || s.core.failures < c.failureThreshold
    requires s.now >= NANOS_PER_MILLI
    ensures Run(c, s, labels).Some?
    ensures var s' := Run(c, s, labels).value; s'.pcs == s.pcs && JustOpened(s')
    decreases c.failureThreshold - s.core.failures
  {
    var s1 := Step(c, s, Failure(t)).value;
    RunThen(c, s, [], Failure(t));
    if s1.core.mode == Open {
      labels := [Failure(t)];
      assert [] + [Failure(t)] == labels;
    } else {
      var rest := OpenUp(c, s1, t);
      labels := [Failure(t)] + rest;
      assert labels[1..] == rest;
    }
  }

  predicate JustOpened(s: State) {
    s.core.mode == Open && s.core.lastMillis == s.now / NANOS_PER_MILLI && s.now >= NANOS_PER_MILLI
  }

  /** The breaker moved to HalfOpen by thread `t`, after the wait. */
  function MovedUp(c: Config, s: State, t: Tid): State {
    s.(core := s.core.(mode := HalfOpen, probes := 0), now := s.now + c.openDuration, pcs := s.pcs[t := Bare],
    period := s.period + 1, admitted := 0, late := 0, strays := 0)
  }

  function MoveUp(c: Config, t: Tid): seq<Label> { [Tick(c.openDuration), ReadCheck(t), WriteCheck(t)] }

  lemma MovesUp(c: Config, s: State, t: Tid)
    requires t in s.pcs && s.pcs[t] == Idle && Writable(s) && JustOpened(s)
    ensures Run(c, s, MoveUp(c, t)) == Some(MovedUp(c, s, t))
  {
    var s1 := s.(now := s.now + c.openDuration);
    var s2 := s1.(pcs := s.pcs[t := WantWrite]);
    assert s2.pcs[t := Bare] == s.pcs[t := Bare];
    assert Writable(s2);
    RunThrough(c, [s, s1, s2, MovedUp(c, s, t)], MoveUp(c, t));
  }

  lemma {:induction false} RunThrough(c: Config, states: seq<State>, labels: seq<Label>)
    requires |states| == |labels| + 1
    requires forall i | 0 <= i < |labels| :: Step(c, states[i], labels[i]) == Some(states[i + 1])
    ensures Run(c, states[0], labels) == Some(states[|labels|])
    decreases |labels|
  {
    if labels != [] {
      RunThrough(c, states[1..], labels[1..]);
    }
  }

  /** One thread alone fills what is left of the limit. */
  lemma {:induction false} AdmitUpTo(c: Config, s: State, t: Tid) returns (labels: seq<Label>)
    requires t in s.pcs && s.pcs[t] == Idle && Readable(s)
    requires s.core.mode == HalfOpen && s.core.probes <= c.halfOpenMax
    ensures Run(c, s, labels)
            == Some(s.(core := s.core.(probes := c.halfOpenMax), admitted := s.admitted + c.halfOpenMax - s.core.probes))
    decreases c.halfOpenMax - s.core.probes
  {
    labels := [];
    if s.core.probes < c.halfOpenMax {
      var s1 := Step(c, s, ReadCheck(t)).value;
      assert s1.pcs == s.pcs;
      var rest := AdmitUpTo(c, s1, t);
      labels := [ReadCheck(t)] + rest;
      assert labels[1..] == rest;
    } else {
      assert Run(c, s, []) == Some(s);
    }
  }

  // ---- The bound is exact: without room in the counter word it fails ----

  /** Reaches HalfOpen with nobody counted but the thread that moved it there. */
  lemma HalfOpenUp(c: Config, pool: set<Tid>, t: Tid) returns (labels: seq<Label>)
    requires t in pool && c.halfOpenMax >= 1
    ensures Run(c, Init(pool, NANOS_PER_MILLI), labels).Some?
    ensures var s := Run(c, Init(pool, NANOS_PER_MILLI), labels).value;
            AllIdle(s) && s.pcs.Keys == pool && s.core.mode == HalfOpen
            && s.core.probes == 1 && s.admitted == 1 && s.late == 0
  {
    var s0 := Init(pool, NANOS_PER_MILLI);
    assert s0.pcs.Keys == pool;
    labels := OpenUp(c, s0, t);
    var s1 := Run(c, s0, labels).value;
    MovesUp(c, s1, t);
    RunAppend(c, s0, labels, MoveUp(c, t));
    labels := labels + MoveUp(c, t);
    RunThen(c, s0, labels, BareAdd(t));
    labels := labels + [BareAdd(t)];
  }

  lemma {:induction false} RefuseAll(c: Config, s: State, r: set<Tid>) returns (labels: seq<Label>)
    requires r <= s.pcs.Keys && (forall t <- r :: s.pcs[t] == Idle) && Readable(s)
    requires s.core.mode == HalfOpen && s.core.probes >= c.halfOpenMax >= 1
    requires s.core.probes + |r| == U32_SIZE
    ensures Run(c, s, labels).Some?
    ensures var s' := Run(c, s, labels).value;
            && s'.pcs.Keys == s.pcs.Keys && (forall t <- s.pcs.Keys - r :: s'.pcs[t] == s.pcs[t])
            && Readable(s') && s'.core.mode == HalfOpen && s'.core.probes == 0
            && s'.admitted == s.admitted && s'.late == s.late
    decreases |r|
  {
    var t :| t in r;
    var s1 := Step(c, s, ReadCheck(t)).value;
    RunThen(c, s, [], ReadCheck(t));
    assert [] + [ReadCheck(t)] == [ReadCheck(t)];
    if r == {t} {
      labels := [ReadCheck(t)];
    } else {
      assert |r - {t}| == |r| - 1 && r - {t} != {};
      var rest := RefuseAll(c, s1, r - {t});
      labels := [ReadCheck(t)] + rest;
      assert labels[1..] == rest;
    }
  }

  /** A pool too large for the counter word can admit one probe over the limit, with no
      late decrement at all: enough refused threads wrap the counter to 0. */
  lemma WrapBreaksBound(c: Config, pool: set<Tid>) returns (labels: seq<Label>)
    requires !Fits(c, pool)
    ensures Run(c, Init(pool, NANOS_PER_MILLI), labels).Some?
    ensures !Bounded(c, Run(c, Init(pool, NANOS_PER_MILLI), labels).value)
  {
    var s0 := Init(pool, NANOS_PER_MILLI);
    var t :| t in pool;
    labels := HalfOpenUp(c, pool, t);
    var s1 := Run(c, s0, labels).value;
    var admit := AdmitUpTo(c, s1, t);
    RunAppend(c, s0, labels, admit);
    labels := labels + admit;
    var s2 := Run(c, s0, labels).value;
    assert |pool - {t}| == |pool| - 1;
    var r := PickSubset(pool - {t}, U32_SIZE - c.halfOpenMax);
    var refuse := RefuseAll(c, s2, r);
    RunAppend(c, s0, labels, refuse);
    labels := labels + refuse;
    RunThen(c, s0, labels, ReadCheck(t));
    labels := labels + [ReadCheck(t)];
  }

  /** The probe bound holds on every run exactly when pool and limit fit in the counter word. */
  lemma BoundHoldsIffFits(c: Config, pool: set<Tid>)
    ensures Fits(c, pool) <==>
            forall start: nat, labels: seq<Label> | Run(c, Init(pool, start), labels).Some? ::
              Bounded(c, Run(c, Init(pool, start), labels).value)
  {
    if Fits(c, pool) {
      forall start: nat, labels: seq<Label> | Run(c, Init(pool, start), labels).Some?
        ensures Bounded(c, Run(c, Init(pool, start), labels).value)
      {
        ProbeBound(c, pool, start, labels);
      }
    } else {
      var labels := WrapBreaksBound(c, pool);
    }
  }

  // ---- The plain limit ----

  /** Probes let through since the last move to HalfOpen, in the period or after it. */
  function LetThrough(s: State): nat { s.admitted + s.strays }

  /** Thread `a` has moved the breaker up and not counted itself, while `b` has filled the limit. */
  predicate Filled(c: Config, s: State, a: Tid, b: Tid) {
    && a in s.pcs && b in s.pcs && a != b && s.pcs[a] == Bare && s.pcs[b] == Idle && Writable(s)
    && s.core.mode == HalfOpen && s.core.probes == s.admitted == c.halfOpenMax && s.strays == 0
    && s.now >= NANOS_PER_MILLI
  }

  lemma FillPeriod(c: Config, pool: set<Tid>, a: Tid, b: Tid) returns (labels: seq<Label>)
    requires a in pool && b in pool && a != b
    ensures Run(c, Init(pool, NANOS_PER_MILLI), labels).Some?
    ensures Filled(c, Run(c, Init(pool, NANOS_PER_MILLI), labels).value, a, b)
  {
    var s0 := Init(pool, NANOS_PER_MILLI);
    labels := OpenUp(c, s0, b);
    var s1 := Run(c, s0, labels).value;
    MovesUp(c, s1, a);
    RunAppend(c, s0, labels, MoveUp(c, a));
    labels := labels + MoveUp(c, a);
    var fill := AdmitUpTo(c, MovedUp(c, s1, a), b);
    RunAppend(c, s0, labels, fill);
    labels := labels + fill;
  }

  /** From there `b` can end the period, which gives one probe back, and `a` then takes it. */
  lemma StrayGetsThrough(c: Config, s: State, a: Tid, b: Tid) returns (labels: seq<Label>)
    requires c.halfOpenMax >= 1 && Filled(c, s, a, b)
    ensures Run(c, s, labels).Some? && LetThrough(Run(c, s, labels).value) == c.halfOpenMax + 1
  {
    labels := [Failure(b), BareAdd(a)];
    RunTwo(c, s, Failure(b), BareAdd(a));
  }

  /** Or `a` is refused, `b` ends the period, begins the next and fills that too; now `a`
      takes back its increment of the period before. */
  lemma StragglerLetsOneThrough(c: Config, s: State, a: Tid, b: Tid) returns (labels: seq<Label>)
    requires c.halfOpenMax >= 1 && Filled(c, s, a, b)
    ensures Run(c, s, labels).Some?
    ensures var s' := Run(c, s, labels).value;
            s'.core.mode == HalfOpen && s'.admitted == c.halfOpenMax + 1 && s'.late == 1 && s'.strays == 0
  {
    labels := [BareAdd(a), Failure(b)];
    RunTwo(c, s, BareAdd(a), Failure(b));
    var s1 := Run(c, s, labels).value;
    assert s1.pcs == s.pcs[a := BareUndo(s.period)];
    MovesUp(c, s1, b);
    RunAppend(c, s, labels, MoveUp(c, b));
    labels := labels + MoveUp(c, b);
    RunThen(c, s, labels, BareAdd(b));
    labels := labels + [BareAdd(b)];
    var s2 := Run(c, s, labels).value;
    var fill := AdmitUpTo(c, s2, b);
    RunAppend(c, s, labels, fill);
    labels := labels + fill;
    var s3 := Run(c, s, labels).value;
    RunTwo(c, s3, Decrement(a), ReadCheck(b));
    RunAppend(c, s, labels, [Decrement(a), ReadCheck(b)]);
    labels := labels + [Decrement(a), ReadCheck(b)];
  }

  lemma TwoThreadsBreakLimit(c: Config, pool: set<Tid>) returns (late: seq<Label>, stray: seq<Label>)
    requires c.halfOpenMax >= 1 && |pool| >= 2
    ensures Run(c, Init(pool, NANOS_PER_MILLI), late).Some? && Run(c, Init(pool, NANOS_PER_MILLI), stray).Some?
    ensures var s := Run(c, Init(pool, NANOS_PER_MILLI), late).value;
            s.core.mode == HalfOpen && s.admitted == c.halfOpenMax + s.late == c.halfOpenMax + 1
    ensures LetThrough(Run(c, Init(pool, NANOS_PER_MILLI), stray).value) == c.halfOpenMax + 1
  {
    var s0 := Init(pool, NANOS_PER_MILLI);
    var a :| a in pool;
    assert |pool - {a}| == |pool| - 1;
    var b :| b in pool - {a};
    var filled := FillPeriod(c, pool, a, b);
    var s := Run(c, s0, filled).value;
    var one := StragglerLetsOneThrough(c, s, a, b);
    RunAppend(c, s0, filled, one);
    var other := StrayGetsThrough(c, s, a, b);
    RunAppend(c, s0, filled, other);
    late, stray := filled + one, filled + other;
  }

  /** Nothing of an earlier period is under way, and nothing has gone through outside one. */
  ghost predicate NobodyLate(s: State) {
    && s.late == 0 && s.strays == 0
    && forall t <- s.pcs :: (s.pcs[t].BareUndo? ==> s.pcs[t].born == s.period) && (s.pcs[t] == Bare ==> s.core.mode == HalfOpen)
  }

  lemma AloneIsNeverLate(c: Config, s: State, l: Label)
    requires |s.pcs.Keys| <= 1 && NobodyLate(s) && Step(c, s, l).Some?
    ensures NobodyLate(Step(c, s, l).value) && Step(c, s, l).value.pcs.Keys == s.pcs.Keys
  {
    var s' := Step(c, s, l).value;
    assert s'.pcs.Keys == s.pcs.Keys;
    if !l.Tick? {
      assert |s.pcs.Keys - {l.t}| == |s.pcs.Keys| - 1;
      assert s.pcs.Keys - {l.t} == {};
      assert forall t <- s.pcs :: t == l.t;
    }
  }

  lemma PlainLimitAlone(c: Config, pool: set<Tid>, start: nat, labels: seq<Label>)
    requires c.halfOpenMax == 0 || |pool| <= 1
    requires Run(c, Init(pool, start), labels).Some?
    ensures LetThrough(Run(c, Init(pool, start), labels).value) <= c.halfOpenMax
  {
    var s0 := Init(pool, start);
    assert s0.pcs.Keys == pool;
    if c.halfOpenMax == 0 {
      RunPreserves(c, (s: State) => LetThrough(s) == 0, s0, labels);
    } else {
      var alone := (s: State) => |s.pcs.Keys| <= 1 && NobodyLate(s);
      forall s: State, l: Label | alone(s) && Step(c, s, l).Some?
        ensures alone(Step(c, s, l).value)
      {
        AloneIsNeverLate(c, s, l);
      }
      RunPreserves(c, alone, s0, labels);
      ProbeBound(c, pool, start, labels);
    }
  }

  /** The plain limit, for the probes of a period and for all that are let through up to the
      next, holds on every run exactly when the limit is 0 or there are not two threads. */
  lemma PlainLimitHoldsExactlyWhen(c: Config, pool: set<Tid>)
    ensures c.halfOpenMax == 0 || |pool| <= 1 <==>
            forall start: nat, labels: seq<Label> | Run(c, Init(pool, start), labels).Some? ::
              var s := Run(c, Init(pool, start), labels).value;
              s.core.mode == HalfOpen ==> s.admitted <= c.halfOpenMax
    ensures c.halfOpenMax == 0 || |pool| <= 1 <==>
            forall start: nat, labels: seq<Label> | Run(c, Init(pool, start), labels).Some? ::
              LetThrough(Run(c, Init(pool, start), labels).value) <= c.halfOpenMax
  {
    if c.halfOpenMax == 0 || |pool| <= 1 {
      forall start: nat, labels: seq<Label> | Run(c, Init(pool, start), labels).Some?
        ensures LetThrough(Run(c, Init(pool, start), labels).value) <= c.halfOpenMax
      {
        PlainLimitAlone(c, pool, start, labels);
      }
    } else {
      var late, stray := TwoThreadsBreakLimit(c, pool);
    }
  }

  // ---- Leaving Open ----

  /** The failure time is kept in whole milliseconds, so Open can end almost a
      millisecond early: here after 1 nanosecond of a 500 microsecond wait. */
  lemma OpenCanEndEarly()
    ensures var c := Config(1, 500_000, 1);
            var s := Run(c, Init({0}, 2 * NANOS_PER_MILLI - 1), [Failure(0), Tick(1), ReadCheck(0), WriteCheck(0)]);
            s.Some? && s.value.core.mode == HalfOpen && s.value.now - s.value.failedAt == 1
  {
    var c := Config(1, 500_000, 1);
    var s0 := Init({0}, 2 * NANOS_PER_MILLI - 1);
    var idle := map[0 := Idle];
    var at := 2 * NANOS_PER_MILLI - 1;
    assert s0.pcs == idle && [] + [Failed] == [Failed];
    assert idle[0 := WantWrite][0 := Bare] == idle[0 := Bare];
    RunThrough(c, [
      s0,
      State(Core(Open, 1, 0, 1), at, idle, 0, 0, 0, 0, [Failed], at),
      State(Core(Open, 1, 0, 1), at + 1, idle, 0, 0, 0, 0, [Failed], at),
      State(Core(Open, 1, 0, 1), at + 1, idle[0 := WantWrite], 0, 0, 0, 0, [Failed], at),
      State(Core(HalfOpen, 1, 0, 1), at + 1, idle[0 := Bare], 1, 0, 0, 0, [Failed], at)
      ], [Failure(0), Tick(1), ReadCheck(0), WriteCheck(0)]);
  }
}
