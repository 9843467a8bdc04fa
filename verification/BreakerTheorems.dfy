/** The main results about the shared breaker, for any pool of threads and any interleaving. */
module BreakerTheorems {
  import opened Wrappers
  import opened Words
  import opened CircuitBreaker
  import opened BreakerProtocol
  import opened BreakerInvariants

  /** In a HalfOpen period no more probes go through than the limit plus the late decrements
      of threads of earlier periods. After it, until the next, only transitioners that have
      not counted themselves can still let themselves through, fewer than there are threads. */
  lemma ProbeBound(c: Config, pool: set<Tid>, start: nat, labels: seq<Label>)
    requires Fits(c, pool) && Run(c, Init(pool, start), labels).Some?
    ensures var s := Run(c, Init(pool, start), labels).value;
            && s.admitted <= c.halfOpenMax + s.late
            && (s.core.mode == HalfOpen ==> s.strays == 0)
            && (s.strays > 0 ==> s.strays < |pool|)
  {
    RunKeeps(c, pool, start, labels);
  }

  /** The failure count is the trailing run of failures, up to the width of the counter,
      and while the breaker is Closed it is exactly that run, which is below the threshold. */
  lemma FailureCountMeansTrailingRun(c: Config, pool: set<Tid>, start: nat, labels: seq<Label>)
    requires Run(c, Init(pool, start), labels).Some?
    ensures var s := Run(c, Init(pool, start), labels).value;
            && s.core.failures == Trailing(s.log) % U32_SIZE
            && (s.core.mode == Closed ==>
                  s.core.failures == Trailing(s.log) && (Trailing(s.log) == 0 || Trailing(s.log) < c.failureThreshold))
  {
    RunKeeps(c, pool, start, labels);
    var s := Run(c, Init(pool, start), labels).value;
    CountedRunIsTrailing(s.log);
    if s.core.mode == Closed {
      ShortRunIsCounted(c, s.log);
    }
  }

  predicate IsCheck(l: Label) { l.ReadCheck? || l.WriteCheck? || l.BareAdd? || l.Decrement? }

  /** Under any interleaving, a `check` has its answer when its thread is idle again. The answer
      lets the caller through in a Closed breaker, always, and otherwise exactly if the step
      counts it as let through; a breaker that stays Open refuses, with the time that is left. */
  lemma AnswersMean(c: Config, pool: set<Tid>, start: nat, labels: seq<Label>, l: Label)
    requires Run(c, Init(pool, start), labels).Some? && IsCheck(l)
    requires Step(c, Run(c, Init(pool, start), labels).value, l).Some?
    ensures var s := Run(c, Init(pool, start), labels).value;
            var s' := Step(c, s, l).value;
            && (Answer(c, s, l).Some? <==> s'.pcs[l.t] == Idle)
            && ((l.ReadCheck? || l.WriteCheck?) && s.core.mode == Closed ==> Answer(c, s, l) == Some(Allowed))
            && (!((l.ReadCheck? || l.WriteCheck?) && s.core.mode == Closed) ==>
                  (Answer(c, s, l) == Some(Allowed) <==> s'.admitted + s'.strays == s.admitted + s.strays + 1))
            && (l.WriteCheck? && s.core.mode == Open ==>
                  Answer(c, s, l) == if s'.core.mode == HalfOpen then None
                                     else Some(Refused(TimeLeft(c, s))))
  {
    RunKeeps(c, pool, start, labels);
    var s := Run(c, Init(pool, start), labels).value;
    if l.WriteCheck? && s.core.mode == Open {
      AgeIsRead(c, s);
    }
  }

  /** What the age read leaves of the open duration. */
  function TimeLeft(c: Config, s: State): nat {
    if ReadAge(s.failedAt, s.now) < c.openDuration then c.openDuration - ReadAge(s.failedAt, s.now) else 0
  }

  /** In a breaker with a failure on record, the age it reads is that of the failure. */
  lemma AgeIsRead(c: Config, s: State)
    requires LogInv(c, s) && s.core.mode != Closed
    ensures SinceFailure(s.core.lastMillis, s.now) == ReadAge(s.failedAt, s.now)
  {
    MillisecondsBelow(s.failedAt, s.core.lastMillis);
  }

  /** The age that `check` gives the last failure: the failure time is kept in whole
      milliseconds, and one in the first millisecond of the epoch reads as none. */
  function ReadAge(failedAt: nat, now: nat): int {
    if failedAt < NANOS_PER_MILLI then HOUR else now - failedAt / NANOS_PER_MILLI * NANOS_PER_MILLI
  }

  /** From any reachable state, the mode changes only along four edges. Closed opens exactly
      when the trailing run of failures reaches the threshold. Open is left only by `check`,
      exactly when the age it reads has reached the open duration. HalfOpen is left by the
      next outcome. */
  lemma ModeEdges(c: Config, pool: set<Tid>, start: nat, labels: seq<Label>, l: Label)
    requires Run(c, Init(pool, start), labels).Some?
    requires Step(c, Run(c, Init(pool, start), labels).value, l).Some?
    ensures var s := Run(c, Init(pool, start), labels).value;
            var s' := Step(c, s, l).value;
            && (s.core.mode == Closed ==>
                  (s'.core.mode == Open <==> l.Failure? && Trailing(s'.log) >= c.failureThreshold)
                  && s'.core.mode != HalfOpen)
            && (s.core.mode == Open ==>
                  && s.failedAt <= s.now && s'.core.mode != Closed
                  && (s'.core.mode == HalfOpen <==> l.WriteCheck? && ReadAge(s.failedAt, s.now) >= c.openDuration))
            && (s.core.mode == HalfOpen ==>
                  (s'.core.mode == Closed <==> l.Success?) && (s'.core.mode == Open <==> l.Failure?))
  {
    RunKeeps(c, pool, start, labels);
    var s := Run(c, Init(pool, start), labels).value;
    match s.core.mode {
      case Closed =>
        ShortRunIsCounted(c, s.log);
        EdgesFromClosed(c, s, l);
      case Open => EdgesFromOpen(c, s, l);
      case HalfOpen =>
    }
  }

  /** The age that is read is the true one for a failure at a whole millisecond; otherwise it
      is too long, by less than a millisecond. So Open can end early, for some duration, exactly
      when the last failure fell between two milliseconds or in the first of the epoch. */
  lemma EarlyExactlyWhen(failedAt: nat, now: nat)
    requires failedAt <= now && now - failedAt < HOUR
    ensures ReadAge(failedAt, now) > now - failedAt <==> failedAt % NANOS_PER_MILLI != 0 || failedAt < NANOS_PER_MILLI
    ensures failedAt >= NANOS_PER_MILLI ==>
              now - failedAt <= ReadAge(failedAt, now) < now - failedAt + NANOS_PER_MILLI
  {
    MillisecondsBelow(failedAt, failedAt / NANOS_PER_MILLI);
  }

  lemma EdgesFromClosed(c: Config, s: State, l: Label)
    requires s.core.mode == Closed && s.core.failures == Trailing(s.log) && Step(c, s, l).Some?
    requires Trailing(s.log) == 0 || Trailing(s.log) < c.failureThreshold
    ensures var s' := Step(c, s, l).value;
            (s'.core.mode == Open <==> l.Failure? && Trailing(s'.log) >= c.failureThreshold)
            && s'.core.mode != HalfOpen
  {
    if l.Failure? {
      TrailingGrows(s.log, Failed);
    }
  }

  lemma EdgesFromOpen(c: Config, s: State, l: Label)
    requires s.core.mode == Open && LogInv(c, s) && Step(c, s, l).Some?
    ensures var s' := Step(c, s, l).value;
            && s.failedAt <= s.now && s'.core.mode != Closed
            && (s'.core.mode == HalfOpen <==> l.WriteCheck? && ReadAge(s.failedAt, s.now) >= c.openDuration)
  {
    MillisecondsBelow(s.failedAt, s.core.lastMillis);
  }

  lemma MillisecondsBelow(nanos: nat, millis: nat)
    requires millis == nanos / NANOS_PER_MILLI
    ensures millis * NANOS_PER_MILLI <= nanos < millis * NANOS_PER_MILLI + NANOS_PER_MILLI
    ensures nanos == millis * NANOS_PER_MILLI + nanos % NANOS_PER_MILLI
    ensures nanos >= NANOS_PER_MILLI <==> millis > 0
  {}
}
