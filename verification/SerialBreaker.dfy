/** Whole calls on the shared breaker, one at a time: they are the plain operations, keep the
    plain limit, and let callers through as they should. */
module SerialBreaker {
  import opened Wrappers
  import opened CircuitBreaker
  import opened BreakerProtocol
  import opened BreakerInvariants
  import opened BreakerTheorems
  import opened BreakerRuns

  datatype Call = CallCheck(t: Tid) | CallSuccess(t: Tid) | CallFailure(t: Tid) | Pass(nanos: nat)

  /** The steps one call takes when nothing else runs between them. */
  function StepsOf(c: Config, s: State, call: Call): seq<Label> {
    match call
    case CallSuccess(t) => [Success(t)]
    case CallFailure(t) => [Failure(t)]
    case Pass(nanos) => [Tick(nanos)]
    case CallCheck(t) =>
      match s.core.mode
      case Closed => [ReadCheck(t)]
      case HalfOpen => [ReadCheck(t)] + (if s.core.probes < c.halfOpenMax then [] else [Decrement(t)])
      case Open =>
        [ReadCheck(t), WriteCheck(t)]
        + (if !Expired(c, s.core, s.now) then []
           else if c.halfOpenMax > 0 then [BareAdd(t)] else [BareAdd(t), Decrement(t)])
  }

  function RunCalls(c: Config, s: State, calls: seq<Call>): Option<State>
    decreases |calls|
  {
    if calls == [] then Some(s)
    else match Run(c, s, StepsOf(c, s, calls[0]))
      case None => None
      case Some(s') => RunCalls(c, s', calls[1..])
  }

  function CoreAfter(c: Config, s: State, call: Call): Core {
    match call
    case CallSuccess(_) => OnSuccess(s.core)
    case CallFailure(_) => OnFailure(c, s.core, s.now)
    case Pass(_) => s.core
    case CallCheck(_) => OnCheck(c, s.core, s.now).0
  }

  ghost predicate SerialInv(c: Config, s: State) {
    && AllIdle(s)
    && s.late == 0 && s.strays == 0 && s.admitted <= c.halfOpenMax
    && (s.core.mode == HalfOpen ==> s.core.probes == s.admitted)
  }

  predicate Known(s: State, call: Call) { call.Pass? || call.t in s.pcs }

  /** A call that is not interrupted is the plain operation on the fields, and counts in
      `admitted` exactly when it lets a probe through. */
  lemma UninterruptedCall(c: Config, s: State, call: Call)
    requires SerialInv(c, s) && Known(s, call)
    ensures Run(c, s, StepsOf(c, s, call)).Some?
    ensures var s' := Run(c, s, StepsOf(c, s, call)).value;
            && s'.core == CoreAfter(c, s, call) && s'.pcs == s.pcs && SerialInv(c, s')
            && (call.CallCheck? && s'.core.mode == HalfOpen ==>
                  s'.admitted == (if s.core.mode == HalfOpen then s.admitted else 0)
                                 + (if OnCheck(c, s.core, s.now).1 == Allowed then 1 else 0))
  {
    match call {
      case CallSuccess(t) => RunOne(c, s, Success(t));
      case CallFailure(t) => RunOne(c, s, Failure(t));
      case Pass(nanos) => RunOne(c, s, Tick(nanos));
      case CallCheck(t) => UninterruptedCheck(c, s, t);
    }
  }

  /** What an uninterrupted `check` leaves behind. */
  ghost predicate Checked(c: Config, s: State, s': State) {
    && s'.core == OnCheck(c, s.core, s.now).0 && s'.pcs == s.pcs && SerialInv(c, s')
    && (s'.core.mode == HalfOpen ==>
          s'.admitted == (if s.core.mode == HalfOpen then s.admitted else 0)
                         + (if OnCheck(c, s.core, s.now).1 == Allowed then 1 else 0))
  }

  lemma UninterruptedCheck(c: Config, s: State, t: Tid)
    requires SerialInv(c, s) && t in s.pcs
    ensures Run(c, s, StepsOf(c, s, CallCheck(t))).Some?
    ensures Checked(c, s, Run(c, s, StepsOf(c, s, CallCheck(t))).value)
  {
    match s.core.mode {
      case Closed => RunOne(c, s, ReadCheck(t));
      case HalfOpen => CheckHalfOpen(c, s, t);
      case Open =>
        if Expired(c, s.core, s.now) {
          CheckExpired(c, s, t);
        } else {
          RunTwo(c, s, ReadCheck(t), WriteCheck(t));
          assert s.pcs[t := WantWrite][t := Idle] == s.pcs;
          assert [ReadCheck(t), WriteCheck(t)] + [] == [ReadCheck(t), WriteCheck(t)];
        }
    }
  }

  lemma CheckHalfOpen(c: Config, s: State, t: Tid)
    requires SerialInv(c, s) && t in s.pcs && s.core.mode == HalfOpen
    ensures Run(c, s, StepsOf(c, s, CallCheck(t))).Some?
    ensures Checked(c, s, Run(c, s, StepsOf(c, s, CallCheck(t))).value)
  {
    assert s.pcs[t := Idle] == s.pcs;
    if s.core.probes < c.halfOpenMax {
      RunOne(c, s, ReadCheck(t));
    } else {
      RunTwo(c, s, ReadCheck(t), Decrement(t));
      assert s.pcs[t := Undo(false)][t := Idle] == s.pcs;
    }
  }

  lemma CheckExpired(c: Config, s: State, t: Tid)
    requires SerialInv(c, s) && t in s.pcs && s.core.mode == Open && Expired(c, s.core, s.now)
    ensures Run(c, s, StepsOf(c, s, CallCheck(t))).Some?
    ensures Checked(c, s, Run(c, s, StepsOf(c, s, CallCheck(t))).value)
  {
    var s1 := s.(pcs := s.pcs[t := WantWrite]);
    var s2 := s.(core := s.core.(mode := HalfOpen, probes := 0), pcs := s1.pcs[t := Bare],
                 period := s.period + 1, admitted := 0, late := 0, strays := 0);
    assert Step(c, s, ReadCheck(t)) == Some(s1) && Step(c, s1, WriteCheck(t)) == Some(s2);
    if c.halfOpenMax > 0 {
      var s3 := s2.(core := s2.core.(probes := 1), pcs := s.pcs, admitted := 1);
      assert s2.pcs[t := Idle] == s.pcs;
      RunThrough(c, [s, s1, s2, s3], [ReadCheck(t), WriteCheck(t), BareAdd(t)]);
    } else {
      var s3 := s2.(core := s2.core.(probes := 1), pcs := s2.pcs[t := BareUndo(s2.period)]);
      var s4 := s2.(pcs := s.pcs);
      assert s3.pcs[t := Idle] == s.pcs;
      RunThrough(c, [s, s1, s2, s3, s4], [ReadCheck(t), WriteCheck(t), BareAdd(t), Decrement(t)]);
    }
  }

  lemma {:induction false} SerialCallsKeep(c: Config, s: State, calls: seq<Call>)
    requires SerialInv(c, s) && forall i | 0 <= i < |calls| :: Known(s, calls[i])
    ensures RunCalls(c, s, calls).Some? && SerialInv(c, RunCalls(c, s, calls).value)
    decreases |calls|
  {
    if calls != [] {
      UninterruptedCall(c, s, calls[0]);
      SerialCallsKeep(c, Run(c, s, StepsOf(c, s, calls[0])).value, calls[1..]);
    }
  }

  /** Whole calls one at a time never get stuck, have no late decrement, and let at most
      the limit through in a period, whatever the pool. */
  lemma SerialBound(c: Config, pool: set<Tid>, start: nat, calls: seq<Call>)
    requires AllKnown(pool, calls)
    ensures RunCalls(c, Init(pool, start), calls).Some?
    ensures var s := RunCalls(c, Init(pool, start), calls).value;
            s.late == 0 && s.strays == 0 && LetThrough(s) <= c.halfOpenMax
  {
    SerialCallsKeep(c, Init(pool, start), calls);
  }

  /** The answer of the last of the steps that one call takes. */
  function AnswerOf(c: Config, s: State, call: Call): Option<Verdict> {
    var steps := StepsOf(c, s, call);
    var before := Run(c, s, steps[..|steps| - 1]);
    if before.None? then None else Answer(c, before.value, steps[|steps| - 1])
  }

  /** All the steps of a run of whole calls. */
  function LabelsOf(c: Config, s: State, calls: seq<Call>): seq<Label>
    decreases |calls|
  {
    if calls == [] then []
    else match Run(c, s, StepsOf(c, s, calls[0]))
      case None => []
      case Some(s') => StepsOf(c, s, calls[0]) + LabelsOf(c, s', calls[1..])
  }

  lemma {:induction false} CallsAreRuns(c: Config, s: State, calls: seq<Call>)
    requires RunCalls(c, s, calls).Some?
    ensures Run(c, s, LabelsOf(c, s, calls)) == RunCalls(c, s, calls)
    decreases |calls|
  {
    if calls != [] {
      var first := StepsOf(c, s, calls[0]);
      var s' := Run(c, s, first).value;
      CallsAreRuns(c, s', calls[1..]);
      RunAppend(c, s, first, LabelsOf(c, s', calls[1..]));
    }
  }

  /** The one step of an unexpired or uncounted `check`, or its last step, answers as the plain
      operation does. */
  lemma SerialAnswer(c: Config, s: State, t: Tid)
    requires SerialInv(c, s) && t in s.pcs
    ensures AnswerOf(c, s, CallCheck(t)) == Some(OnCheck(c, s.core, s.now).1)
  {
    var steps := StepsOf(c, s, CallCheck(t));
    if s.core.mode == Closed || (s.core.mode == HalfOpen && s.core.probes < c.halfOpenMax) {
      assert steps == [ReadCheck(t)] && steps[..0] == [];
    } else if s.core.mode == HalfOpen {
      assert steps == [ReadCheck(t), Decrement(t)] && steps[..1] == [ReadCheck(t)];
      RunOne(c, s, ReadCheck(t));
    } else if !Expired(c, s.core, s.now) {
      assert steps == [ReadCheck(t), WriteCheck(t)] && steps[..1] == [ReadCheck(t)];
      RunOne(c, s, ReadCheck(t));
    } else {
      ExpiredAnswer(c, s, t);
    }
  }

  lemma ExpiredAnswer(c: Config, s: State, t: Tid)
    requires SerialInv(c, s) && t in s.pcs && s.core.mode == Open && Expired(c, s.core, s.now)
    ensures AnswerOf(c, s, CallCheck(t)) == Some(OnCheck(c, s.core, s.now).1)
  {
    var steps := StepsOf(c, s, CallCheck(t));
    RunTwo(c, s, ReadCheck(t), WriteCheck(t));
    if c.halfOpenMax > 0 {
      assert steps == [ReadCheck(t), WriteCheck(t), BareAdd(t)] && steps[..2] == [ReadCheck(t), WriteCheck(t)];
    } else {
      assert steps[..3] == [ReadCheck(t), WriteCheck(t)] + [BareAdd(t)];
      RunThen(c, s, [ReadCheck(t), WriteCheck(t)], BareAdd(t));
    }
  }

  predicate AllKnown(pool: set<Tid>, calls: seq<Call>) { forall i | 0 <= i < |calls| :: calls[i].Pass? || calls[i].t in pool }

  lemma SerialReach(c: Config, pool: set<Tid>, start: nat, calls: seq<Call>)
    requires AllKnown(pool, calls)
    ensures RunCalls(c, Init(pool, start), calls).Some?
    ensures var s := RunCalls(c, Init(pool, start), calls).value; SerialInv(c, s) && LogInv(c, s) && s.pcs.Keys == pool
  {
    var s0 := Init(pool, start);
    SerialCallsKeep(c, s0, calls);
    CallsAreRuns(c, s0, calls);
    RunKeeps(c, pool, start, LabelsOf(c, s0, calls));
  }

  /** Who is refused, in plain terms. An Open breaker refuses while the age it reads is short of
      the open duration, and a period that has admitted its limit, at once if that is 0; the
      wait is what is left, or the whole duration. Everyone else is let through. */
  function PlainVerdict(c: Config, s: State): Verdict {
    if s.core.mode == Open && ReadAge(s.failedAt, s.now) < c.openDuration then Refused(TimeLeft(c, s))
    else if (s.core.mode == Open && c.halfOpenMax == 0) || (s.core.mode == HalfOpen && s.admitted >= c.halfOpenMax) then
      Refused(c.openDuration)
    else Allowed
  }

  /** So it is after any whole calls run one at a time. */
  lemma SerialVerdict(c: Config, pool: set<Tid>, start: nat, calls: seq<Call>, t: Tid)
    requires t in pool && AllKnown(pool, calls)
    ensures RunCalls(c, Init(pool, start), calls).Some?
    ensures var s := RunCalls(c, Init(pool, start), calls).value; AnswerOf(c, s, CallCheck(t)) == Some(PlainVerdict(c, s))
  {
    SerialReach(c, pool, start, calls);
    VerdictInPlain(c, RunCalls(c, Init(pool, start), calls).value, t);
  }

  lemma VerdictInPlain(c: Config, s: State, t: Tid)
    requires SerialInv(c, s) && LogInv(c, s) && t in s.pcs
    ensures AnswerOf(c, s, CallCheck(t)) == Some(OnCheck(c, s.core, s.now).1) == Some(PlainVerdict(c, s))
  {
    SerialAnswer(c, s, t);
    if s.core.mode == Open {
      AgeIsRead(c, s);
    }
  }

  /** A breaker with no failure on record lets everyone through. */
  lemma NoFailureNoRefusal(c: Config, pool: set<Tid>, start: nat, calls: seq<Call>, t: Tid)
    requires t in pool && AllKnown(pool, calls)
    ensures RunCalls(c, Init(pool, start), calls).Some?
    ensures var s := RunCalls(c, Init(pool, start), calls).value;
            Failed !in s.log ==> AnswerOf(c, s, CallCheck(t)) == Some(Allowed)
  {
    SerialVerdict(c, pool, start, calls, t);
    SerialReach(c, pool, start, calls);
  }
}
