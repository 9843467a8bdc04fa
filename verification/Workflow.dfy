/** The events of a workflow instance and the state they fold to. */
module Workflow {
  import opened Wrappers
  import opened Json

  type Time = int

  datatype SignalAction = Approve | Reject

  datatype SquadEvent =
    | SquadCompleted(outputs: Value, completedAt: Time)
    | SquadFailed(reason: string, failedAt: Time)
    | SquadProgress

  datatype Phase = PhaseStarted | PhaseCompleted | PhaseFailed

  /** The three LLM call events, and the three tool call events, differ only in payload
      that no operation here reads, so each is one constructor with a phase. */
  datatype Event =
    | InstanceCreated(workflowId: string, inputs: Value)
    | InstanceStarted
    | StepScheduled(stepId: string, attempt: nat)
    | StepStarted(stepId: string, startedAt: Time)
    | StepCompleted(stepId: string, output: Value, attempt: nat, outputKey: Option<string>, completedAt: Time)
    | StepFailed(stepId: string, error: string, attempt: nat, willRetry: bool)
    | StepRetryScheduled(stepId: string, attempt: nat, scheduledAt: Time)
    | SignalWaitStarted(stepId: string, signalName: string)
    | BreakpointHit(stepId: string, reason: string, pausedAt: Time)
    | SignalReceived(signalName: string, payload: Value, receivedAt: Time,
                     action: Option<SignalAction>, reviewer: Option<string>)
    | TimerFired(timerId: string)
    | CancelRequested(requestedAt: Time)
    | LLMCall(phase: Phase, stepId: string, at: Time)
    | ToolCall(phase: Phase, stepId: string, at: Time)
    | WorkflowCompleted(outputs: Value, completedAt: Time)
    | WorkflowFailed(reason: string, failedAt: Time)
    | External(eventType: string, payload: Value)
    | SquadEventOccurred(squad: SquadEvent, occurredAt: Time)

  datatype StepStatus = StepPending | StepRunning | StepDone | StepError

  datatype StepResult = StepResult(
    status: StepStatus, output: Option<Value>, error: Option<string>,
    startedAt: Option<Time>, completedAt: Option<Time>, attempt: nat)

  datatype Status =
    | Pending
    | Running
    | WaitingForSignal(signal: string)
    | Sleeping(wakeAt: Time)
    | Completed
    | Failed

  datatype State = State(
    id: string, workflowId: string, status: Status, context: Value,
    results: map<string, StepResult>, completed: set<string>, running: set<string>,
    blocked: set<string>, scheduled: set<string>, timers: map<string, Time>)

  function Blank(id: string): State {
    State(id, "", Pending, Null, map[], {}, {}, {}, {}, map[])
  }

  // ---- Timer names ----

  const RETRY_PREFIX := "retry_"

  /** The part before the last underscore. */
  function BeforeLastUnderscore(s: string): (r: Option<string>)
    ensures r.Some? ==> |r.value| < |s| && r.value == s[..|r.value|]
  {
    if s == "" then None
    else if s[|s| - 1] == '_' then Some(s[..|s| - 1])
    else BeforeLastUnderscore(s[..|s| - 1])
  }

  /** The step a retry timer stands for, if the name has the retry form. */
  function RetryStep(timerId: string): Option<string> {
    if RETRY_PREFIX <= timerId then BeforeLastUnderscore(timerId[|RETRY_PREFIX|..]) else None
  }

  lemma {:induction false} BeforeLastUnderscoreFinds(step: string, tail: string)
    requires '_' !in tail
    ensures BeforeLastUnderscore(step + "_" + tail) == Some(step)
  {
    var s := step + "_" + tail;
    if tail == "" {
      assert s[..|s| - 1] == step;
    } else {
      assert s[|s| - 1] == tail[|tail| - 1];
      assert s[..|s| - 1] == step + "_" + tail[..|tail| - 1];
      BeforeLastUnderscoreFinds(step, tail[..|tail| - 1]);
    }
  }

  /** A timer named after a step and an attempt number gives that step back, even when
      the step id has underscores itself. */
  lemma RetryTimerRoundTrip(step: string, attempt: string)
    requires '_' !in attempt
    ensures RetryStep(RETRY_PREFIX + step + "_" + attempt) == Some(step)
  {
    var name := RETRY_PREFIX + step + "_" + attempt;
    assert name[|RETRY_PREFIX|..] == step + "_" + attempt;
    BeforeLastUnderscoreFinds(step, attempt);
  }

  // ---- One event ----

  function ReasonText(payload: Value): string {
    if payload.Obj? && "reason" in payload.fields && payload.fields["reason"].Str? then payload.fields["reason"].s
    else "no reason"
  }

  function RejectReason(payload: Value, reviewer: Option<string>): string {
    match reviewer
    case Some(r) => "rejected by " + r + ": " + ReasonText(payload)
    case None => "rejected: " + ReasonText(payload)
  }

  function StartedAt(results: map<string, StepResult>, step: string): Option<Time> {
    if step in results then results[step].startedAt else None
  }

  function RecordStart(results: map<string, StepResult>, step: string, at: Time): map<string, StepResult> {
    results[step := if step in results then results[step].(startedAt := Some(at))
                    else StepResult(StepRunning, None, None, Some(at), None, 0)]
  }

  function Put(context: Value, key: Option<string>, value: Value): Value {
    if key.Some? && context.Obj? then Obj(context.fields[key.value := value]) else context
  }

  function RejectAll(results: map<string, StepResult>, steps: set<string>, reason: string): map<string, StepResult> {
    map k | k in results ::
      if k in steps then results[k].(status := StepError, error := Some(reason)) else results[k]
  }

  /** The context with a signal's payload filed under "signals", or None where the source
      panics because "signals" is there and is not an object. */
  function FileSignal(context: Value, name: string, payload: Value): Option<Value> {
    if !context.Obj? then Some(context)
    else if "signals" !in context.fields then
      Some(Obj(context.fields["signals" := Obj(map[name := payload])]))
    else match context.fields["signals"]
      case Obj(signals) => Some(Obj(context.fields["signals" := Obj(signals[name := payload])]))
      case _ => None
  }

  function ApplySignal(s: State, e: Event): Option<State>
    requires e.SignalReceived?
  {
    if e.action == Some(Reject) then
      Some(s.(blocked := {}, status := Failed,
           results := RejectAll(s.results, s.blocked, RejectReason(e.payload, e.reviewer))))
    else if s.status != WaitingForSignal(e.signalName) then Some(s)
    else match FileSignal(s.context, e.signalName, e.payload)
      case None => None
      case Some(context) => Some(s.(blocked := {}, status := Running, context := context))
  }

  /** The state after one event; `now` is the clock reading that a step failure takes.
      None stands for a panic. */
  function Apply(s: State, e: Event, now: Time): Option<State> {
    match e
    case InstanceCreated(workflowId, inputs) =>
      Some(s.(workflowId := workflowId, context := inputs, status := Pending))
    case InstanceStarted => Some(s.(status := Running))
    case StepScheduled(step, _) => Some(s.(scheduled := s.scheduled + {step}))
    case StepStarted(step, at) =>
      Some(s.(scheduled := s.scheduled - {step}, running := s.running + {step},
           results := RecordStart(s.results, step, at)))
    case StepCompleted(step, output, attempt, key, at) =>
      Some(s.(running := s.running - {step}, completed := s.completed + {step},
           context := Put(s.context, key, output),
           results := s.results[step := StepResult(StepDone, Some(output), None,
                                                   StartedAt(s.results, step), Some(at), attempt)]))
    case StepFailed(step, error, attempt, willRetry) =>
      Some(s.(running := s.running - {step}, status := if willRetry then s.status else Failed,
           results := s.results[step := StepResult(StepError, None, Some(error),
                                                   StartedAt(s.results, step), Some(now), attempt)]))
    case StepRetryScheduled(step, _, _) => Some(s.(scheduled := s.scheduled + {step}))
    case SignalWaitStarted(step, name) =>
      Some(s.(blocked := s.blocked + {step}, status := WaitingForSignal(name)))
    case BreakpointHit(step, _, _) =>
      Some(s.(scheduled := s.scheduled - {step}, blocked := s.blocked + {step},
           status := WaitingForSignal("__breakpoint__" + step)))
    case SignalReceived(_, _, _, _, _) => ApplySignal(s, e)
    case TimerFired(timer) =>
      Some(s.(timers := s.timers - {timer},
           scheduled := match RetryStep(timer) case Some(step) => s.scheduled - {step} case None => s.scheduled))
    case CancelRequested(_) => Some(s.(status := Failed))
    case WorkflowCompleted(_, _) => Some(s.(status := Completed))
    case WorkflowFailed(_, _) => Some(s.(status := Failed))
    case _ => Some(s)
  }

  /** An event together with the clock reading taken while it is applied. */
  datatype Reading = Reading(event: Event, now: Time)

  function Fold(s: State, log: seq<Reading>): Option<State>
    decreases |log|
  {
    if log == [] then Some(s)
    else match Apply(s, log[0].event, log[0].now)
      case None => None
      case Some(s') => Fold(s', log[1..])
  }

  lemma {:induction false} FoldAppend(s: State, a: seq<Reading>, b: seq<Reading>)
    ensures Fold(s, a + b) == match Fold(s, a) case None => None case Some(m) => Fold(m, b)
    decreases |a|
  {
    if a == [] {
      assert a + b == b;
    } else {
      assert (a + b)[1..] == a[1..] + b;
      match Apply(s, a[0].event, a[0].now) {
        case None =>
        case Some(m) => FoldAppend(m, a[1..], b);
      }
    }
  }

  lemma FoldSnoc(s: State, log: seq<Reading>, r: Reading)
    ensures Fold(s, log + [r]) == match Fold(s, log) case None => None case Some(m) => Apply(m, r.event, r.now)
  {
    FoldAppend(s, log, [r]);
    match Fold(s, log) {
      case None =>
      case Some(m) =>
        assert [r][1..] == [];
    }
  }

  // ---- What every run keeps ----

  ghost predicate StateInv(s: State) {
    && s.running <= s.results.Keys
    && s.completed <= s.results.Keys
    && (forall k <- s.results :: ResultInv(s, k))
    && (s.status.WaitingForSignal? ==> s.blocked != {})
    && !s.status.Sleeping?
    && s.timers == map[]
  }

  ghost predicate ResultInv(s: State, k: string)
    requires k in s.results
  {
    var r := s.results[k];
    && (r.error.Some? <==> r.status == StepError)
    && (r.status == StepDone ==> r.output.Some? && r.completedAt.Some?)
    && (r.status == StepRunning ==> k in s.running && k !in s.completed)
    && r.status != StepPending
  }

  lemma ApplyKeeps(s: State, e: Event, now: Time)
    requires StateInv(s) && Apply(s, e, now).Some?
    ensures var s' := Apply(s, e, now).value;
            StateInv(s') && s.completed <= s'.completed && s.results.Keys <= s'.results.Keys
  {
    var s' := Apply(s, e, now).value;
    forall k <- s'.results
      ensures ResultInv(s', k)
    {
      if k in s.results {
        assert ResultInv(s, k);
      }
    }
  }

  /** On every run from the blank state: running and completed steps have a result; a result
      carries an error exactly when it is a failure; a waiting instance has a blocked step;
      no timer is ever pending; and completed steps and results are never lost. */
  lemma {:induction false} EveryRunKeeps(s: State, log: seq<Reading>)
    requires StateInv(s) && Fold(s, log).Some?
    ensures var s' := Fold(s, log).value;
            StateInv(s') && s.completed <= s'.completed && s.results.Keys <= s'.results.Keys && s'.id == s.id
    decreases |log|
  {
    if log != [] {
      ApplyKeeps(s, log[0].event, log[0].now);
      EveryRunKeeps(Apply(s, log[0].event, log[0].now).value, log[1..]);
    }
  }

  lemma BlankIsSound(id: string)
    ensures StateInv(Blank(id))
  {}

  /** Applying an event panics in exactly one situation: the awaited signal arrives while
      the context is an object whose "signals" entry is not. */
  lemma PanicsExactlyWhen(s: State, e: Event, now: Time)
    ensures Apply(s, e, now).None? <==>
            && e.SignalReceived? && e.action != Some(Reject) && s.status == WaitingForSignal(e.signalName)
            && s.context.Obj? && "signals" in s.context.fields && !s.context.fields["signals"].Obj?
  {}

  // ---- Applying the same events again, at other times ----

  predicate SameEvents(a: seq<Reading>, b: seq<Reading>) {
    |a| == |b| && forall i | 0 <= i < |a| :: a[i].event == b[i].event
  }

  function FailuresAfter(open: set<string>, e: Event): set<string> {
    if e.StepFailed? then open + {e.stepId} else if e.StepCompleted? then open - {e.stepId} else open
  }

  /** The steps that have failed and not completed since. */
  function OpenFailures(log: seq<Reading>): set<string> {
    if log == [] then {} else FailuresAfter(OpenFailures(log[..|log| - 1]), log[|log| - 1].event)
  }

  /** The same state but for the completion times of the steps `open`. */
  predicate AlikeBut(s: State, t: State, open: set<string>) {
    && t == s.(results := t.results) && t.results.Keys == s.results.Keys
    && forall k <- s.results :: AlikeResults(s.results[k], t.results[k], k in open)
  }

  predicate AlikeResults(r: StepResult, q: StepResult, open: bool) {
    if open then q == r.(completedAt := q.completedAt) else q == r
  }

  lemma ApplyAlike(s: State, t: State, open: set<string>, e: Event, now: Time, later: Time)
    requires AlikeBut(s, t, open)
    ensures Apply(s, e, now).Some? <==> Apply(t, e, later).Some?
    ensures Apply(s, e, now).Some? ==> AlikeBut(Apply(s, e, now).value, Apply(t, e, later).value, FailuresAfter(open, e))
  {
    if e.StepStarted? || e.StepCompleted? || e.StepFailed? {
      StepAlike(s, t, open, e, now, later);
    } else if !(e.SignalReceived? && e.action == Some(Reject)) {
      OthersIgnoreResults(s, t, e, now, later);
    }
  }

  lemma OthersIgnoreResults(s: State, t: State, e: Event, now: Time, later: Time)
    requires t == s.(results := t.results)
    requires !e.StepStarted? && !e.StepCompleted? && !e.StepFailed? && !(e.SignalReceived? && e.action == Some(Reject))
    ensures Apply(s, e, now).Some? <==> Apply(t, e, later).Some?
    ensures Apply(s, e, now).Some? ==>
              && Apply(s, e, now).value.results == s.results
              && Apply(t, e, later).value == Apply(s, e, now).value.(results := t.results)
  {}

  lemma StepAlike(s: State, t: State, open: set<string>, e: Event, now: Time, later: Time)
    requires AlikeBut(s, t, open)
    requires e.StepStarted? || e.StepCompleted? || e.StepFailed?
    ensures AlikeBut(Apply(s, e, now).value, Apply(t, e, later).value, FailuresAfter(open, e))
  {
    if e.stepId in s.results {
      assert AlikeResults(s.results[e.stepId], t.results[e.stepId], e.stepId in open);
    }
    var s', t' := Apply(s, e, now).value, Apply(t, e, later).value;
    forall k <- s'.results
      ensures AlikeResults(s'.results[k], t'.results[k], k in FailuresAfter(open, e))
    {
      if k != e.stepId {
        assert AlikeResults(s.results[k], t.results[k], k in open);
      }
    }
  }

  /** The log can be replayed at any later time: it ends the same way, and in the same state
      but for the completion times of steps that have failed and not completed since. */
  lemma {:induction false} ReplayAtAnyTime(s: State, a: seq<Reading>, b: seq<Reading>)
    requires SameEvents(a, b)
    ensures Fold(s, a).Some? <==> Fold(s, b).Some?
    ensures Fold(s, a).Some? ==> AlikeBut(Fold(s, a).value, Fold(s, b).value, OpenFailures(a))
    decreases |a|
  {
    if a != [] {
      var n := |a| - 1;
      ReplayAtAnyTime(s, a[..n], b[..n]);
      FoldSnoc(s, a[..n], a[n]);
      FoldSnoc(s, b[..n], b[n]);
      assert a == a[..n] + [a[n]] && b == b[..n] + [b[n]];
      if Fold(s, a[..n]).Some? {
        ApplyAlike(Fold(s, a[..n]).value, Fold(s, b[..n]).value, OpenFailures(a[..n]), a[n].event, a[n].now, b[n].now);
      }
    }
  }

  /** The same log read a tick later. */
  function TickLater(log: seq<Reading>): (r: seq<Reading>)
    ensures SameEvents(log, r) && forall i | 0 <= i < |r| :: r[i].now == log[i].now + 1
  {
    seq(|log|, i requires 0 <= i < |log| => Reading(log[i].event, log[i].now + 1))
  }

  predicate OneLater(s: State, t: State, k: string) {
    && k in s.results && k in t.results && s.results[k].completedAt.Some?
    && t.results[k].completedAt == Some(s.results[k].completedAt.value + 1)
  }

  lemma OneLaterStays(s: State, t: State, k: string, e: Event, now: Time)
    requires OneLater(s, t, k) && k in FailuresAfter({k}, e)
    requires Apply(s, e, now).Some? && Apply(t, e, now + 1).Some?
    ensures OneLater(Apply(s, e, now).value, Apply(t, e, now + 1).value, k)
  {}

  lemma {:induction false} OpenFailureShowsTime(s: State, a: seq<Reading>, k: string)
    requires k in OpenFailures(a) && Fold(s, a).Some?
    ensures Fold(s, TickLater(a)).Some? && OneLater(Fold(s, a).value, Fold(s, TickLater(a)).value, k)
    decreases |a|
  {
    var n := |a| - 1;
    var b := TickLater(a);
    ReplayAtAnyTime(s, a, b);
    ReplayAtAnyTime(s, a[..n], b[..n]);
    assert b[..n] == TickLater(a[..n]);
    FoldSnoc(s, a[..n], a[n]);
    FoldSnoc(s, b[..n], b[n]);
    assert a == a[..n] + [a[n]] && b == b[..n] + [b[n]];
    if k in OpenFailures(a[..n]) {
      OpenFailureShowsTime(s, a[..n], k);
      OneLaterStays(Fold(s, a[..n]).value, Fold(s, b[..n]).value, k, a[n].event, a[n].now);
    }
  }

  predicate Fails(e: Event, step: string) { e.StepFailed? && e.stepId == step }

  predicate Completes(e: Event, step: string) { e.StepCompleted? && e.stepId == step }

  ghost predicate CompletedAfter(log: seq<Reading>, i: nat, step: string) {
    exists j | i < j < |log| :: Completes(log[j].event, step)
  }

  /** Every failure of a step is followed by a completion of that step. */
  ghost predicate FailuresSuperseded(log: seq<Reading>) {
    forall i | 0 <= i < |log| && log[i].event.StepFailed? :: CompletedAfter(log, i, log[i].event.stepId)
  }

  lemma {:induction false} OpenFailuresAre(log: seq<Reading>, k: string)
    ensures k in OpenFailures(log) <==> exists i | 0 <= i < |log| :: Fails(log[i].event, k) && !CompletedAfter(log, i, k)
    decreases |log|
  {
    if log != [] {
      var n := |log| - 1;
      var front := log[..n];
      OpenFailuresAre(front, k);
      forall i | 0 <= i < n
        ensures CompletedAfter(log, i, k) <==> CompletedAfter(front, i, k) || Completes(log[n].event, k)
      {
        if CompletedAfter(front, i, k) {
          var j :| i < j < n && Completes(front[j].event, k);
          assert Completes(log[j].event, k);
        }
        if CompletedAfter(log, i, k) && !Completes(log[n].event, k) {
          var j :| i < j < |log| && Completes(log[j].event, k);
          assert Completes(front[j].event, k);
        }
      }
      if i :| 0 <= i < n && Fails(front[i].event, k) && !CompletedAfter(front, i, k) {
        assert Fails(log[i].event, k);
      }
      if i :| 0 <= i < n && Fails(log[i].event, k) && !CompletedAfter(log, i, k) {
        assert Fails(front[i].event, k);
      }
      assert !CompletedAfter(log, n, k);
    }
  }

  /** Applying a log gives one state at all times exactly when it panics or every failure in it
      is followed by a completion of the same step. */
  lemma ReplaysAlikeExactlyWhen(s: State, a: seq<Reading>)
    ensures (forall b | SameEvents(a, b) :: Fold(s, b) == Fold(s, a)) <==> Fold(s, a).None? || FailuresSuperseded(a)
  {
    if FailuresSuperseded(a) {
      forall k
        ensures k !in OpenFailures(a)
      {
        OpenFailuresAre(a, k);
      }
    }
    forall b | SameEvents(a, b) && (Fold(s, a).None? || FailuresSuperseded(a))
      ensures Fold(s, b) == Fold(s, a)
    {
      ReplayAtAnyTime(s, a, b);
      if Fold(s, a).Some? {
        assert Fold(s, b).value.results == Fold(s, a).value.results;
      }
    }
    if Fold(s, a).Some? && !FailuresSuperseded(a) {
      var i :| 0 <= i < |a| && a[i].event.StepFailed? && !CompletedAfter(a, i, a[i].event.stepId);
      var k := a[i].event.stepId;
      assert Fails(a[i].event, k);
      OpenFailuresAre(a, k);
      OpenFailureShowsTime(s, a, k);
    }
  }
}
