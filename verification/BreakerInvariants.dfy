/** What every step of the shared breaker keeps, and so every run. */
module BreakerInvariants {
  import opened Sets
  import opened Words
  import opened CircuitBreaker
  import opened BreakerProtocol

  ghost predicate CountInv(c: Config, s: State) {
    && (forall t <- s.pcs :: s.pcs[t].BareUndo? ==> s.pcs[t].born <= s.period)
    && (s.core.mode == HalfOpen ==> s.core.probes == (s.admitted + |Pending(s)| - s.late) % U32_SIZE)
    && (Fits(c, s.pcs.Keys) ==> s.admitted <= c.halfOpenMax + s.late)
  }

  /** The threads that moved the breaker to HalfOpen and have yet to count themselves. */
  function Bares(s: State): set<Tid> { set t | t in s.pcs && s.pcs[t] == Bare }

  ghost predicate StrayInv(s: State) {
    if s.core.mode == HalfOpen then s.strays == 0
    else s.strays + |Bares(s)| == 0 || s.strays + |Bares(s)| < |s.pcs.Keys|
  }

  ghost predicate LogInv(c: Config, s: State) {
    && s.core.failures == CountedRun(s.log)
    && (s.core.mode == Closed ==> Trailing(s.log) == 0 || Trailing(s.log) < c.failureThreshold)
    && s.failedAt <= s.now
    && (Failed in s.log ==> s.core.lastMillis == s.failedAt / NANOS_PER_MILLI)
    && (s.core.mode != Closed ==> Failed in s.log)
  }

  lemma PendingUnchanged(s: State, s': State)
    requires s'.period == s.period && s'.pcs.Keys == s.pcs.Keys
    requires forall t <- s.pcs :: Refusing(s.pcs[t], s.period) <==> Refusing(s'.pcs[t], s.period)
    ensures Pending(s') == Pending(s)
  {}

  lemma PendingGrows(s: State, s': State, t: Tid, pc: Pc)
    requires t in s.pcs && s'.pcs == s.pcs[t := pc] && s'.period == s.period
    requires !Refusing(s.pcs[t], s.period) && Refusing(pc, s.period)
    ensures |Pending(s')| == |Pending(s)| + 1
  {
    assert Pending(s') == Pending(s) + {t};
  }

  lemma PendingShrinks(s: State, s': State, t: Tid, pc: Pc)
    requires t in s.pcs && s'.pcs == s.pcs[t := pc] && s'.period == s.period
    requires Refusing(s.pcs[t], s.period) && !Refusing(pc, s.period)
    ensures |Pending(s')| == |Pending(s)| - 1
  {
    assert Pending(s') == Pending(s) - {t};
  }

  /** The one place where a probe is let through: the counter is below the limit only if
      fewer probes than the limit plus the late decrements have gone before. */
  lemma AddKeepsCount(c: Config, s: State, t: Tid, refused: Pc)
    requires CountInv(c, s) && t in s.pcs && !Refusing(s.pcs[t], s.period)
    requires refused == BareUndo(s.period) || refused.Undo?
    ensures CountInv(c, Add(c, s, t, refused))
  {
    var s' := Add(c, s, t, refused);
    assert s'.pcs.Keys == s.pcs.Keys;
    if s.core.mode == HalfOpen {
      var v := s.admitted + |Pending(s)| - s.late;
      IncModulo(v, s.core.probes);
      if s.core.probes < c.halfOpenMax {
        PendingUnchanged(s, s');
        assert t !in Pending(s);
        SubsetSize(Pending(s), s.pcs.Keys);
        if Fits(c, s.pcs.Keys) && v >= 0 {
          assert v < U32_SIZE;
        }
      } else {
        PendingGrows(s, s', t, refused);
      }
    }
  }

  lemma IncModulo(v: int, x: U32)
    requires x == v % U32_SIZE
    ensures Inc(x) == (v + 1) % U32_SIZE
  {}

  lemma SmallModulo(n: nat, x: U32)
    requires x == n % U32_SIZE && n < U32_SIZE
    ensures x == n
  {}

  lemma DecModulo(v: int, x: U32)
    requires x == v % U32_SIZE
    ensures Dec(x) == (v - 1) % U32_SIZE
  {}

  lemma DecrementKeepsCount(c: Config, s: State, t: Tid)
    requires CountInv(c, s) && t in s.pcs && (s.pcs[t].Undo? || s.pcs[t].BareUndo?)
    ensures CountInv(c, Step(c, s, Decrement(t)).value)
  {
    var s' := Step(c, s, Decrement(t)).value;
    assert s'.pcs.Keys == s.pcs.Keys;
    if s.core.mode == HalfOpen {
      DecModulo(s.admitted + |Pending(s)| - s.late, s.core.probes);
      if Stale(s.pcs[t], s.period) {
        PendingUnchanged(s, s');
      } else {
        PendingShrinks(s, s', t, Idle);
      }
    }
  }

  lemma WriteCheckKeepsCount(c: Config, s: State, t: Tid)
    requires CountInv(c, s) && t in s.pcs && s.pcs[t] == WantWrite && Writable(s)
    ensures CountInv(c, Step(c, s, WriteCheck(t)).value)
    ensures Step(c, s, WriteCheck(t)).value.pcs.Keys == s.pcs.Keys
  {
    var s' := Step(c, s, WriteCheck(t)).value;
    assert s'.pcs.Keys == s.pcs.Keys;
    if s.core.mode == HalfOpen {
      AddKeepsCount(c, s, t, Undo(true));
    } else if s'.core.mode == HalfOpen {
      assert Pending(s') == {};
    }
  }

  lemma StepKeepsCount(c: Config, s: State, l: Label)
    requires CountInv(c, s) && Step(c, s, l).Some?
    ensures CountInv(c, Step(c, s, l).value)
    ensures Step(c, s, l).value.pcs.Keys == s.pcs.Keys
  {
    var s' := Step(c, s, l).value;
    match l {
      case Tick(_) => PendingUnchanged(s, s');
      case ReadCheck(t) =>
        if s.core.mode == HalfOpen { AddKeepsCount(c, s, t, Undo(false)); }
      case WriteCheck(t) => WriteCheckKeepsCount(c, s, t);
      case BareAdd(t) => AddKeepsCount(c, s, t, BareUndo(s.period));
      case Decrement(t) => DecrementKeepsCount(c, s, t);
      case Success(t) => PendingUnchanged(s, s');
      case Failure(t) => PendingUnchanged(s, s');
    }
  }

  lemma BaresUnchanged(s: State, s': State)
    requires s'.pcs.Keys == s.pcs.Keys && forall t <- s.pcs :: s.pcs[t] == Bare <==> s'.pcs[t] == Bare
    ensures Bares(s') == Bares(s)
  {}

  /** A period is ended by a thread that is not itself waiting to count. */
  lemma EndLeavesOneOut(s: State, t: Tid)
    requires t in s.pcs && s.pcs[t] == Idle
    ensures |Bares(s)| < |s.pcs.Keys|
  {
    assert t !in Bares(s);
    SubsetSize(Bares(s), s.pcs.Keys);
  }

  lemma BareAddKeepsStrays(c: Config, s: State, t: Tid)
    requires StrayInv(s) && t in s.pcs && s.pcs[t] == Bare
    ensures StrayInv(Step(c, s, BareAdd(t)).value)
  {
    var s' := Step(c, s, BareAdd(t)).value;
    assert s'.pcs.Keys == s.pcs.Keys;
    assert Bares(s') == Bares(s) - {t};
  }

  lemma StepKeepsStrays(c: Config, s: State, l: Label)
    requires StrayInv(s) && Step(c, s, l).Some?
    ensures StrayInv(Step(c, s, l).value)
  {
    var s' := Step(c, s, l).value;
    if l.BareAdd? {
      BareAddKeepsStrays(c, s, l.t);
    } else if s'.core.mode != HalfOpen {
      assert s'.pcs.Keys == s.pcs.Keys;
      BaresUnchanged(s, s');
      if s.core.mode == HalfOpen {
        EndLeavesOneOut(s, l.t);
      }
    }
  }

  lemma {:induction false} CountedRunIsTrailing(log: seq<Outcome>)
    ensures CountedRun(log) == Trailing(log) % U32_SIZE
  {
    if log != [] && log[|log| - 1] != Succeeded {
      CountedRunIsTrailing(log[..|log| - 1]);
      IncModulo(Trailing(log[..|log| - 1]), CountedRun(log[..|log| - 1]));
    }
  }

  /** A run below a threshold is counted without wrapping. */
  lemma ShortRunIsCounted(c: Config, log: seq<Outcome>)
    requires Trailing(log) == 0 || Trailing(log) < c.failureThreshold
    ensures CountedRun(log) == Trailing(log)
  {
    CountedRunIsTrailing(log);
    SmallModulo(Trailing(log), CountedRun(log));
  }

  lemma TrailingGrows(log: seq<Outcome>, o: Outcome)
    ensures CountedRun(log + [o]) == if o == Failed then Inc(CountedRun(log)) else 0
    ensures Trailing(log + [o]) == if o == Failed then Trailing(log) + 1 else 0
    ensures Failed in log + [o] <==> o == Failed || Failed in log
  {
    assert (log + [o])[..|log|] == log;
    assert (log + [o])[|log|] == o;
  }

  lemma FailureKeepsLog(c: Config, s: State, s': State)
    requires LogInv(c, s)
    requires s'.core == OnFailure(c, s.core, s.now) && s'.log == s.log + [Failed] && s'.failedAt == s'.now == s.now
    ensures LogInv(c, s')
  {
    TrailingGrows(s.log, Failed);
    if s.core.mode == Closed {
      ShortRunIsCounted(c, s.log);
    }
  }

  lemma SuccessKeepsLog(c: Config, s: State, s': State)
    requires LogInv(c, s)
    requires s'.core == OnSuccess(s.core) && s'.log == s.log + [Succeeded] && s'.failedAt == s.failedAt && s'.now == s.now
    ensures LogInv(c, s')
  {
    TrailingGrows(s.log, Succeeded);
  }

  lemma StepKeepsLog(c: Config, s: State, l: Label)
    requires LogInv(c, s) && Step(c, s, l).Some?
    ensures LogInv(c, Step(c, s, l).value)
  {
    match l {
      case Success(t) => SuccessKeepsLog(c, s, Step(c, s, l).value);
      case Failure(t) => FailureKeepsLog(c, s, Step(c, s, l).value);
      case _ =>
        var s' := Step(c, s, l).value;
        assert s'.log == s.log && s'.failedAt == s.failedAt;
        assert s'.core.failures == s.core.failures && s'.core.lastMillis == s.core.lastMillis;
    }
  }

  ghost predicate Preserved(c: Config, inv: State -> bool) {
    forall s: State, l: Label | inv(s) && Step(c, s, l).Some? :: inv(Step(c, s, l).value)
  }

  /** What every step keeps, every run keeps. */
  lemma {:induction false} RunPreserves(c: Config, inv: State -> bool, s: State, labels: seq<Label>)
    requires Preserved(c, inv) && inv(s) && Run(c, s, labels).Some?
    ensures inv(Run(c, s, labels).value)
    decreases |labels|
  {
    if labels != [] {
      RunPreserves(c, inv, Step(c, s, labels[0]).value, labels[1..]);
    }
  }

  ghost predicate Kept(c: Config, s: State, pool: set<Tid>, since: nat) {
    CountInv(c, s) && LogInv(c, s) && StrayInv(s) && s.pcs.Keys == pool && s.now >= since
  }

  lemma StepKeeps(c: Config, s: State, l: Label, pool: set<Tid>, since: nat)
    requires Kept(c, s, pool, since) && Step(c, s, l).Some?
    ensures Kept(c, Step(c, s, l).value, pool, since)
  {
    StepKeepsCount(c, s, l);
    StepKeepsLog(c, s, l);
    StepKeepsStrays(c, s, l);
    ClockMovesOn(c, s, l);
  }

  lemma ClockMovesOn(c: Config, s: State, l: Label)
    requires Step(c, s, l).Some?
    ensures Step(c, s, l).value.now >= s.now
  {}

  lemma RunKeeps(c: Config, pool: set<Tid>, start: nat, labels: seq<Label>)
    requires Run(c, Init(pool, start), labels).Some?
    ensures Kept(c, Run(c, Init(pool, start), labels).value, pool, start)
  {
    var inv := (x: State) => Kept(c, x, pool, start);
    forall x: State, l: Label | inv(x) && Step(c, x, l).Some?
      ensures inv(Step(c, x, l).value)
    {
      StepKeeps(c, x, l, pool, start);
    }
    assert Init(pool, start).pcs.Keys == pool;
    assert Bares(Init(pool, start)) == {};
    RunPreserves(c, inv, Init(pool, start), labels);
  }
}
