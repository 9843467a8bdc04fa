/** What each part of an instance's state says about the events so far: for every log, which
    event it was that decided it. */
module StepLaws {
  import opened Wrappers
  import opened Json
  import opened Workflow
  import opened Glance

  /** Whether an event decides something, and what; told by the events before it and itself. */
  type Deciding = (seq<Reading>, Reading) -> bool

  /** The event at `i` decides, and none after it does. */
  ghost predicate LastAt(log: seq<Reading>, i: nat, decides: Deciding) {
    i < |log| && decides(log[..i], log[i]) && forall j | i < j < |log| :: !decides(log[..j], log[j])
  }

  ghost predicate NoneDecides(log: seq<Reading>, decides: Deciding) {
    forall j | 0 <= j < |log| :: !decides(log[..j], log[j])
  }

  ghost predicate StepOk<T(!new)>(id: string, read: State -> T, decides: Deciding, value: (seq<Reading>, Reading) -> T,
                                  before: seq<Reading>, r: Reading)
  {
    Fold(Blank(id), before).Some? && Fold(Blank(id), before + [r]).Some? ==>
      read(Fold(Blank(id), before + [r]).value)
      == if decides(before, r) then value(before, r) else read(Fold(Blank(id), before).value)
  }

  /** If one event sets what is read when it decides and leaves it alone when it does not, the
      last deciding event has set it. */
  lemma {:induction false} LastDecides<T(!new)>(id: string, log: seq<Reading>, read: State -> T, decides: Deciding,
                                                value: (seq<Reading>, Reading) -> T)
    requires Fold(Blank(id), log).Some?
    requires forall before: seq<Reading>, r: Reading :: StepOk(id, read, decides, value, before, r)
    ensures forall i: nat | LastAt(log, i, decides) :: read(Fold(Blank(id), log).value) == value(log[..i], log[i])
    ensures NoneDecides(log, decides) ==> read(Fold(Blank(id), log).value) == read(Blank(id))
    decreases |log|
  {
    if log != [] {
      var n := |log| - 1;
      var front, r := log[..n], log[n];
      assert log == front + [r];
      FoldSnoc(Blank(id), front, r);
      LastDecides(id, front, read, decides, value);
      assert StepOk(id, read, decides, value, front, r);
      assert forall j | 0 <= j < n :: log[..j] == front[..j] && log[j] == front[j];
      forall i: nat | LastAt(log, i, decides)
        ensures read(Fold(Blank(id), log).value) == value(log[..i], log[i])
      {
        if i < n {
          assert !decides(log[..n], log[n]);
          assert LastAt(front, i, decides);
        }
      }
      if NoneDecides(log, decides) {
        assert !decides(log[..n], log[n]);
        assert NoneDecides(front, decides);
      }
    }
  }

  lemma SnocStep(id: string, before: seq<Reading>, r: Reading)
    ensures Fold(Blank(id), before + [r])
            == match Fold(Blank(id), before) case None => None case Some(s) => Apply(s, r.event, r.now)
  {
    FoldSnoc(Blank(id), before, r);
  }

  // ---- Scheduled steps ----

  predicate Schedules(e: Event, step: string) {
    (e.StepScheduled? || e.StepRetryScheduled?) && e.stepId == step
  }

  /** The name of a retry timer of the step: its id and one more part without underscores. */
  ghost predicate NamesRetryOf(name: string, step: string) {
    exists tail: string :: '_' !in tail && name == RETRY_PREFIX + step + "_" + tail
  }

  ghost predicate Unschedules(e: Event, step: string) {
    || ((e.StepStarted? || e.BreakpointHit?) && e.stepId == step)
    || (e.TimerFired? && NamesRetryOf(e.timerId, step))
  }

  lemma {:induction false} LastUnderscoreSplits(s: string)
    requires BeforeLastUnderscore(s).Some?
    ensures var n := |BeforeLastUnderscore(s).value|;
            s[n] == '_' && '_' !in s[n + 1..] && s == BeforeLastUnderscore(s).value + "_" + s[n + 1..]
  {
    var m := |s| - 1;
    if s[m] != '_' {
      LastUnderscoreSplits(s[..m]);
      var n := |BeforeLastUnderscore(s).value|;
      assert s[n + 1..] == s[..m][n + 1..] + [s[m]];
    }
  }

  lemma RetryStepIs(name: string, step: string)
    ensures RetryStep(name) == Some(step) <==> NamesRetryOf(name, step)
  {
    if RetryStep(name) == Some(step) {
      var rest := name[|RETRY_PREFIX|..];
      LastUnderscoreSplits(rest);
      var tail := rest[|step| + 1..];
      assert name == RETRY_PREFIX + rest;
      assert name == RETRY_PREFIX + step + "_" + tail;
    }
    forall tail: string | '_' !in tail && name == RETRY_PREFIX + step + "_" + tail
      ensures RetryStep(name) == Some(step)
    {
      RetryTimerRoundTrip(step, tail);
    }
  }

  ghost function DecidesScheduled(step: string): Deciding {
    (before: seq<Reading>, r: Reading) => Schedules(r.event, step) || Unschedules(r.event, step)
  }

  lemma ScheduledStep(s: State, e: Event, now: Time, step: string)
    requires Apply(s, e, now).Some?
    ensures step in Apply(s, e, now).value.scheduled
            <==> if Schedules(e, step) then true else if Unschedules(e, step) then false else step in s.scheduled
  {
    if e.TimerFired? {
      RetryStepIs(e.timerId, step);
    }
  }

  /** A step is scheduled if and only if the last event to touch its scheduling schedules it:
      it was scheduled, or for a retry, and has since not been started, stopped at a
      breakpoint or freed by a retry timer of its name. */
  lemma ScheduledExactlyWhen(id: string, log: seq<Reading>, step: string)
    requires Fold(Blank(id), log).Some?
    ensures var scheduled := Fold(Blank(id), log).value.scheduled;
            && (forall i: nat | LastAt(log, i, DecidesScheduled(step)) :: step in scheduled <==> Schedules(log[i].event, step))
            && (NoneDecides(log, DecidesScheduled(step)) ==> step !in scheduled)
  {
    var read, value := (s: State) => step in s.scheduled, (before: seq<Reading>, r: Reading) => Schedules(r.event, step);
    forall before: seq<Reading>, r: Reading
      ensures StepOk(id, read, DecidesScheduled(step), value, before, r)
    {
      SnocStep(id, before, r);
      if Fold(Blank(id), before + [r]).Some? {
        ScheduledStep(Fold(Blank(id), before).value, r.event, r.now, step);
      }
    }
    LastDecides(id, log, read, DecidesScheduled(step), value);
  }

  // ---- Running and completed steps ----

  predicate Runs(e: Event, step: string) { e.StepStarted? && e.stepId == step }

  predicate Ends(e: Event, step: string) { (e.StepCompleted? || e.StepFailed?) && e.stepId == step }

  function DecidesRunning(step: string): Deciding { (before: seq<Reading>, r: Reading) => Runs(r.event, step) || Ends(r.event, step) }

  lemma RunningStep(s: State, e: Event, now: Time, step: string)
    requires Apply(s, e, now).Some?
    ensures step in Apply(s, e, now).value.running
            <==> if Runs(e, step) then true else if Ends(e, step) then false else step in s.running
    ensures step in Apply(s, e, now).value.completed <==> Completes(e, step) || step in s.completed
  {}

  /** A step runs if and only if it was started after it last ended. */
  lemma RunningExactlyWhen(id: string, log: seq<Reading>, step: string)
    requires Fold(Blank(id), log).Some?
    ensures var running := Fold(Blank(id), log).value.running;
            && (forall i: nat | LastAt(log, i, DecidesRunning(step)) :: step in running <==> Runs(log[i].event, step))
            && (NoneDecides(log, DecidesRunning(step)) ==> step !in running)
  {
    var read, value := (s: State) => step in s.running, (before: seq<Reading>, r: Reading) => Runs(r.event, step);
    forall before: seq<Reading>, r: Reading
      ensures StepOk(id, read, DecidesRunning(step), value, before, r)
    {
      SnocStep(id, before, r);
      if Fold(Blank(id), before + [r]).Some? {
        RunningStep(Fold(Blank(id), before).value, r.event, r.now, step);
      }
    }
    LastDecides(id, log, read, DecidesRunning(step), value);
  }

  /** A step is completed if and only if it has completed at some time. */
  lemma {:induction false} CompletedExactlyWhen(id: string, log: seq<Reading>, step: string)
    requires Fold(Blank(id), log).Some?
    ensures step in Fold(Blank(id), log).value.completed <==> exists i | 0 <= i < |log| :: Completes(log[i].event, step)
    decreases |log|
  {
    if log != [] {
      var n := |log| - 1;
      var front, r := log[..n], log[n];
      assert log == front + [r];
      SnocStep(id, front, r);
      CompletedExactlyWhen(id, front, step);
      RunningStep(Fold(Blank(id), front).value, r.event, r.now, step);
      if i :| 0 <= i < n && Completes(log[i].event, step) {
        assert Completes(front[i].event, step);
      }
      if i :| 0 <= i < n && Completes(front[i].event, step) {
        assert Completes(log[i].event, step);
      }
    }
  }

  // ---- Blocked steps ----

  predicate Blocks(e: Event, step: string) { (e.SignalWaitStarted? || e.BreakpointHit?) && e.stepId == step }

  /** A rejection, or the signal that the instance waits for after the events `before`. */
  predicate Unblocks(before: seq<Reading>, e: Event) {
    e.SignalReceived? && (e.action == Some(Reject) || Awaited(StatusScan(Events(before)), e))
  }

  function DecidesBlocked(step: string): Deciding { (before: seq<Reading>, r: Reading) => Blocks(r.event, step) || Unblocks(before, r.event) }

  lemma BlockedStep(s: State, e: Event, now: Time, step: string)
    requires Apply(s, e, now).Some?
    ensures step in Apply(s, e, now).value.blocked
            <==> if Blocks(e, step) then true
                 else if e.SignalReceived? && (e.action == Some(Reject) || Awaited(s.status, e)) then false
                 else step in s.blocked
  {}

  lemma StatusFolds(id: string, before: seq<Reading>)
    requires Fold(Blank(id), before).Some?
    ensures Fold(Blank(id), before).value.status == StatusScan(Events(before))
  {
    FoldAtAGlance(Blank(id), before);
    StatusSeen(GlanceOf(Blank(id)), Events(before));
  }

  /** A step is blocked if and only if it has begun to wait, or stopped at a breakpoint, since
      the last rejection or awaited signal. */
  lemma BlockedExactlyWhen(id: string, log: seq<Reading>, step: string)
    requires Fold(Blank(id), log).Some?
    ensures var blocked := Fold(Blank(id), log).value.blocked;
            && (forall i: nat | LastAt(log, i, DecidesBlocked(step)) :: step in blocked <==> Blocks(log[i].event, step))
            && (NoneDecides(log, DecidesBlocked(step)) ==> step !in blocked)
  {
    var read, value := (s: State) => step in s.blocked, (before: seq<Reading>, r: Reading) => Blocks(r.event, step);
    forall before: seq<Reading>, r: Reading
      ensures StepOk(id, read, DecidesBlocked(step), value, before, r)
    {
      SnocStep(id, before, r);
      if Fold(Blank(id), before + [r]).Some? {
        StatusFolds(id, before);
        BlockedStep(Fold(Blank(id), before).value, r.event, r.now, step);
      }
    }
    LastDecides(id, log, read, DecidesBlocked(step), value);
  }

  // ---- The status ----

  /** The events that move the status wherever it is, and the signal that is waited for. */
  function DecidesStatus(): Deciding {
    (before: seq<Reading>, r: Reading) =>
      var e := r.event;
      || e.InstanceCreated? || e.InstanceStarted? || e.SignalWaitStarted? || e.BreakpointHit?
      || e.CancelRequested? || e.WorkflowCompleted? || e.WorkflowFailed?
      || (e.StepFailed? && !e.willRetry)
      || Unblocks(before, e)
  }

  function StatusBy(e: Event): Status {
    if e.InstanceCreated? then Pending
    else if e.InstanceStarted? || (e.SignalReceived? && e.action != Some(Reject)) then Running
    else if e.SignalWaitStarted? then WaitingForSignal(e.signalName)
    else if e.BreakpointHit? then WaitingForSignal("__breakpoint__" + e.stepId)
    else if e.WorkflowCompleted? then Completed
    else Failed
  }

  lemma StatusStep(s: State, e: Event, now: Time)
    requires Apply(s, e, now).Some?
    ensures Apply(s, e, now).value.status
            == if || e.InstanceCreated? || e.InstanceStarted? || e.SignalWaitStarted? || e.BreakpointHit?
                  || e.CancelRequested? || e.WorkflowCompleted? || e.WorkflowFailed?
                  || (e.StepFailed? && !e.willRetry)
                  || (e.SignalReceived? && (e.action == Some(Reject) || Awaited(s.status, e)))
               then StatusBy(e) else s.status
  {}

  /** The status is the one that the last event to move it has set; before any it is pending. */
  lemma StatusExactlyWhen(id: string, log: seq<Reading>)
    requires Fold(Blank(id), log).Some?
    ensures var status := Fold(Blank(id), log).value.status;
            && (forall i: nat | LastAt(log, i, DecidesStatus()) :: status == StatusBy(log[i].event))
            && (NoneDecides(log, DecidesStatus()) ==> status == Pending)
  {
    var read, value := (s: State) => s.status, (before: seq<Reading>, r: Reading) => StatusBy(r.event);
    forall before: seq<Reading>, r: Reading
      ensures StepOk(id, read, DecidesStatus(), value, before, r)
    {
      SnocStep(id, before, r);
      if Fold(Blank(id), before + [r]).Some? {
        StatusFolds(id, before);
        StatusStep(Fold(Blank(id), before).value, r.event, r.now);
      }
    }
    LastDecides(id, log, read, DecidesStatus(), value);
  }

  // ---- Results ----

  predicate TouchesResult(e: Event, step: string) { Runs(e, step) || Ends(e, step) }

  function DecidesStart(step: string): Deciding { (before: seq<Reading>, r: Reading) => Runs(r.event, step) }

  function DecidesEnd(step: string): Deciding { (before: seq<Reading>, r: Reading) => Ends(r.event, step) }

  function ResultOf(s: State, step: string): Option<StepResult> {
    if step in s.results then Some(s.results[step]) else None
  }

  /** Attempt, output and completion time of a result. */
  function EndingOf(s: State, step: string): (nat, Option<Value>, Option<Time>) {
    match ResultOf(s, step)
    case None => (0, None, None)
    case Some(r) => (r.attempt, r.output, r.completedAt)
  }

  function EndingBy(r: Reading): (nat, Option<Value>, Option<Time>) {
    match r.event
    case StepCompleted(_, output, attempt, _, at) => (attempt, Some(output), Some(at))
    case StepFailed(_, _, attempt, _) => (attempt, None, Some(r.now))
    case _ => (0, None, None)
  }

  /** A step has a result if and only if it has started or ended at some time. */
  lemma {:induction false} HasResultExactlyWhen(id: string, log: seq<Reading>, step: string)
    requires Fold(Blank(id), log).Some?
    ensures step in Fold(Blank(id), log).value.results <==> exists i | 0 <= i < |log| :: TouchesResult(log[i].event, step)
    decreases |log|
  {
    if log != [] {
      var n := |log| - 1;
      var front, r := log[..n], log[n];
      assert log == front + [r];
      SnocStep(id, front, r);
      HasResultExactlyWhen(id, front, step);
      assert step in Fold(Blank(id), log).value.results
        <==> TouchesResult(r.event, step) || step in Fold(Blank(id), front).value.results;
      if i :| 0 <= i < n && TouchesResult(log[i].event, step) {
        assert TouchesResult(front[i].event, step);
      }
      if i :| 0 <= i < n && TouchesResult(front[i].event, step) {
        assert TouchesResult(log[i].event, step);
      }
    }
  }

  lemma TimesStep(s: State, r: Reading, step: string)
    requires Apply(s, r.event, r.now).Some?
    ensures var s' := Apply(s, r.event, r.now).value;
            && StartedAt(s'.results, step) == (if Runs(r.event, step) then Some(r.event.startedAt) else StartedAt(s.results, step))
            && EndingOf(s', step) == (if Ends(r.event, step) then EndingBy(r) else EndingOf(s, step))
  {}

  function StartBy(r: Reading): Option<Time> { if r.event.StepStarted? then Some(r.event.startedAt) else None }

  /** A result's start time is that of the last start of its step; before any there is none. */
  lemma StartExactlyWhen(id: string, log: seq<Reading>, step: string)
    requires Fold(Blank(id), log).Some?
    ensures var results := Fold(Blank(id), log).value.results;
            && (forall i: nat | LastAt(log, i, DecidesStart(step)) :: StartedAt(results, step) == StartBy(log[i]))
            && (NoneDecides(log, DecidesStart(step)) ==> StartedAt(results, step) == None)
  {
    var read, value := (s: State) => StartedAt(s.results, step), (before: seq<Reading>, r: Reading) => StartBy(r);
    forall before: seq<Reading>, r: Reading
      ensures StepOk(id, read, DecidesStart(step), value, before, r)
    {
      SnocStep(id, before, r);
      if Fold(Blank(id), before + [r]).Some? {
        TimesStep(Fold(Blank(id), before).value, r, step);
      }
    }
    LastDecides(id, log, read, DecidesStart(step), value);
  }

  /** Its attempt, output and completion time are those of the last ending of its step; before
      any there are none. */
  lemma EndingExactlyWhen(id: string, log: seq<Reading>, step: string)
    requires Fold(Blank(id), log).Some?
    ensures var s := Fold(Blank(id), log).value;
            && (forall i: nat | LastAt(log, i, DecidesEnd(step)) :: EndingOf(s, step) == EndingBy(log[i]))
            && (NoneDecides(log, DecidesEnd(step)) ==> EndingOf(s, step) == (0, None, None))
  {
    var read, value := (s: State) => EndingOf(s, step), (before: seq<Reading>, r: Reading) => EndingBy(r);
    forall before: seq<Reading>, r: Reading
      ensures StepOk(id, read, DecidesEnd(step), value, before, r)
    {
      SnocStep(id, before, r);
      if Fold(Blank(id), before + [r]).Some? {
        TimesStep(Fold(Blank(id), before).value, r, step);
      }
    }
    LastDecides(id, log, read, DecidesEnd(step), value);
  }

  /** The step has a result, and is blocked, after these events. */
  ghost predicate HasResult(log: seq<Reading>, step: string) {
    exists i | 0 <= i < |log| :: TouchesResult(log[i].event, step)
  }

  ghost predicate IsBlocked(log: seq<Reading>, step: string) {
    exists i: nat :: LastAt(log, i, DecidesBlocked(step)) && Blocks(log[i].event, step)
  }

  /** An ending, a first start, or a rejection while the step is blocked and has a result. */
  ghost function DecidesVerdict(step: string): Deciding {
    (before: seq<Reading>, r: Reading) =>
      || Ends(r.event, step)
      || (Runs(r.event, step) && !HasResult(before, step))
      || (r.event.SignalReceived? && r.event.action == Some(Reject) && HasResult(before, step) && IsBlocked(before, step))
  }

  /** What such an event makes of the result. */
  function VerdictBy(e: Event): (StepStatus, Option<string>) {
    match e
    case StepCompleted(_, _, _, _, _) => (StepDone, None)
    case StepFailed(_, error, _, _) => (StepError, Some(error))
    case SignalReceived(_, payload, _, _, reviewer) => (StepError, Some(RejectReason(payload, reviewer)))
    case _ => (StepRunning, None)
  }

  function VerdictOf(s: State, step: string): Option<(StepStatus, Option<string>)> {
    match ResultOf(s, step)
    case None => None
    case Some(r) => Some((r.status, r.error))
  }

  lemma {:induction false} SomeLastAt(log: seq<Reading>, decides: Deciding) returns (i: nat)
    ensures !NoneDecides(log, decides) ==> LastAt(log, i, decides)
  {
    i := 0;
    if log != [] {
      var n := |log| - 1;
      if decides(log[..n], log[n]) {
        i := n;
      } else {
        assert forall j | 0 <= j < n :: log[..n][..j] == log[..j] && log[..n][j] == log[j];
        i := SomeLastAt(log[..n], decides);
      }
    }
  }

  lemma BlockedIs(id: string, log: seq<Reading>, step: string)
    requires Fold(Blank(id), log).Some?
    ensures step in Fold(Blank(id), log).value.blocked <==> IsBlocked(log, step)
  {
    BlockedExactlyWhen(id, log, step);
    var i := SomeLastAt(log, DecidesBlocked(step));
    if step in Fold(Blank(id), log).value.blocked {
      assert LastAt(log, i, DecidesBlocked(step)) && Blocks(log[i].event, step);
    }
  }

  lemma VerdictStep(s: State, e: Event, now: Time, step: string)
    requires Apply(s, e, now).Some?
    ensures VerdictOf(Apply(s, e, now).value, step)
            == if || Ends(e, step)
                  || (Runs(e, step) && step !in s.results)
                  || (e.SignalReceived? && e.action == Some(Reject) && step in s.results && step in s.blocked)
               then Some(VerdictBy(e)) else VerdictOf(s, step)
  {}

  /** A result's status and error are those of the last ending of its step, or of a rejection
      that met the step blocked since; before that it is running. Rejections leave the results
      of other steps alone. */
  lemma VerdictExactlyWhen(id: string, log: seq<Reading>, step: string)
    requires Fold(Blank(id), log).Some?
    ensures var s := Fold(Blank(id), log).value;
            && (forall i: nat | LastAt(log, i, DecidesVerdict(step)) :: VerdictOf(s, step) == Some(VerdictBy(log[i].event)))
            && (NoneDecides(log, DecidesVerdict(step)) ==> VerdictOf(s, step) == None)
  {
    var read, value := (s: State) => VerdictOf(s, step), (before: seq<Reading>, r: Reading) => Some(VerdictBy(r.event));
    forall before: seq<Reading>, r: Reading
      ensures StepOk(id, read, DecidesVerdict(step), value, before, r)
    {
      SnocStep(id, before, r);
      if Fold(Blank(id), before + [r]).Some? {
        HasResultExactlyWhen(id, before, step);
        BlockedIs(id, before, step);
        VerdictStep(Fold(Blank(id), before).value, r.event, r.now, step);
      }
    }
    LastDecides(id, log, read, DecidesVerdict(step), value);
  }

  // ---- The context ----

  function DecidesWorkflow(): Deciding { (before: seq<Reading>, r: Reading) => r.event.InstanceCreated? }

  ghost predicate HasContext(log: seq<Reading>) {
    exists i: nat :: LastAt(log, i, DecidesWorkflow()) && log[i].event.InstanceCreated? && log[i].event.inputs.Obj?
  }

  /** The creation, or a completion that writes the key while the context is an object. */
  ghost function DecidesKey(key: string): Deciding {
    (before: seq<Reading>, r: Reading) =>
      r.event.InstanceCreated? || (r.event.StepCompleted? && r.event.outputKey == Some(key) && HasContext(before))
  }

  function Lookup(context: Value, key: string): Option<Value> {
    if context.Obj? && key in context.fields then Some(context.fields[key]) else None
  }

  function WrittenBy(e: Event, key: string): Option<Value> {
    if e.InstanceCreated? then Lookup(e.inputs, key) else if e.StepCompleted? then Some(e.output) else None
  }

  lemma ContextStep(s: State, e: Event, now: Time, key: string)
    requires Apply(s, e, now).Some?
    ensures var s' := Apply(s, e, now).value;
            && (e.InstanceCreated? ==> s'.workflowId == e.workflowId && s'.context == e.inputs)
            && (!e.InstanceCreated? ==> s'.workflowId == s.workflowId && (s'.context.Obj? <==> s.context.Obj?))
            && (key != "signals" ==>
                  Lookup(s'.context, key)
                  == if e.InstanceCreated? || (e.StepCompleted? && e.outputKey == Some(key) && s.context.Obj?)
                     then WrittenBy(e, key) else Lookup(s.context, key))
  {}

  /** The workflow is that of the last creation event, and the context is an object if and only
      if its inputs are. */
  lemma WorkflowExactlyWhen(id: string, log: seq<Reading>)
    requires Fold(Blank(id), log).Some?
    ensures var s := Fold(Blank(id), log).value;
            && (forall i: nat | LastAt(log, i, DecidesWorkflow()) && log[i].event.InstanceCreated? ::
                  s.workflowId == log[i].event.workflowId && (s.context.Obj? <==> log[i].event.inputs.Obj?))
            && (NoneDecides(log, DecidesWorkflow()) ==> s.workflowId == "" && !s.context.Obj?)
            && (s.context.Obj? <==> HasContext(log))
  {
    var read := (s: State) => (s.workflowId, s.context.Obj?);
    var value := (before: seq<Reading>, r: Reading) =>
        if r.event.InstanceCreated? then (r.event.workflowId, r.event.inputs.Obj?) else ("", false);
    forall before: seq<Reading>, r: Reading
      ensures StepOk(id, read, DecidesWorkflow(), value, before, r)
    {
      SnocStep(id, before, r);
      if Fold(Blank(id), before + [r]).Some? {
        ContextStep(Fold(Blank(id), before).value, r.event, r.now, "");
      }
    }
    LastDecides(id, log, read, DecidesWorkflow(), value);
    var i := SomeLastAt(log, DecidesWorkflow());
    if Fold(Blank(id), log).value.context.Obj? {
      assert LastAt(log, i, DecidesWorkflow()) && log[i].event.InstanceCreated?;
    }
  }

  /** Apart from "signals", a key of the context has the value last written to it: by the
      inputs, or by a step completed since. */
  lemma KeyExactlyWhen(id: string, log: seq<Reading>, key: string)
    requires Fold(Blank(id), log).Some? && key != "signals"
    ensures var context := Fold(Blank(id), log).value.context;
            && (forall i: nat | LastAt(log, i, DecidesKey(key)) :: Lookup(context, key) == WrittenBy(log[i].event, key))
            && (NoneDecides(log, DecidesKey(key)) ==> Lookup(context, key) == None)
  {
    var read, value := (s: State) => Lookup(s.context, key), (before: seq<Reading>, r: Reading) => WrittenBy(r.event, key);
    forall before: seq<Reading>, r: Reading
      ensures StepOk(id, read, DecidesKey(key), value, before, r)
    {
      SnocStep(id, before, r);
      if Fold(Blank(id), before + [r]).Some? {
        WorkflowExactlyWhen(id, before);
        ContextStep(Fold(Blank(id), before).value, r.event, r.now, key);
      }
    }
    LastDecides(id, log, read, DecidesKey(key), value);
  }

  /** The payload that an accepted signal of this name has left in the context. */
  function KeptPayload(context: Value, name: string): Option<Value> {
    match Lookup(context, "signals")
    case Some(Obj(signals)) => if name in signals then Some(signals[name]) else None
    case _ => None
  }

  /** An awaited signal frees every blocked step, and its payload is kept beside those of other
      signals and everything else in the context. */
  lemma AcceptedSignalIsKept(s: State, e: Event, now: Time, name: string, key: string)
    requires Awaited(s.status, e) && Apply(s, e, now).Some? && s.context.Obj? && key != "signals"
    ensures var s' := Apply(s, e, now).value;
            && s'.blocked == {} && s'.status == Running && s'.results == s.results
            && KeptPayload(s'.context, name) == (if name == e.signalName then Some(e.payload) else KeptPayload(s.context, name))
            && Lookup(s'.context, key) == Lookup(s.context, key)
  {}

  /** A rejection fails the instance and frees every blocked step, and touches no result of any
      other step and nothing in the context. */
  lemma RejectionSparesOthers(s: State, e: Event, now: Time, step: string)
    requires e.SignalReceived? && e.action == Some(Reject)
    ensures Apply(s, e, now).Some?
    ensures var s' := Apply(s, e, now).value;
            && s'.blocked == {} && s'.status == Failed && s'.context == s.context && s'.results.Keys == s.results.Keys
            && (step in s.results && step !in s.blocked ==> s'.results[step] == s.results[step])
            && (step in s.results && step in s.blocked ==>
                  s'.results[step].status == StepError && s'.results[step].error == Some(RejectReason(e.payload, e.reviewer)))
  {}

  /** What the error of a rejected result says: who rejected, if known, and the reason in the
      payload, if there is one. */
  lemma RejectionSays(payload: Value, reviewer: Option<string>, why: string)
    requires if payload.Obj? && "reason" in payload.fields && payload.fields["reason"].Str?
             then payload.fields["reason"] == Str(why) else why == "no reason"
    ensures RejectReason(payload, reviewer)
            == if reviewer.Some? then "rejected by " + reviewer.value + ": " + why else "rejected: " + why
  {}
}
