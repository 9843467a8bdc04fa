/** Steps that run in parallel: the order in which their events interleave does not matter. */
module Confluence {
  import opened Wrappers
  import opened Sequences
  import opened Json
  import opened Workflow
  import WorkflowValidation

  predicate StepEvent(e: Event) {
    e.StepScheduled? || e.StepStarted? || e.StepCompleted? || e.StepFailed? || e.StepRetryScheduled?
  }

  predicate OnlySteps(log: seq<Reading>) { forall r <- log :: StepEvent(r.event) }

  predicate Of(r: Reading, step: string) { StepEvent(r.event) && r.event.stepId == step }

  /** The events of one step, in order. */
  function OfStep(log: seq<Reading>, step: string): seq<Reading> { Filter(log, IsOf(step)) }

  function IsOf(step: string): Reading -> bool { r => Of(r, step) }

  /** Two completions that write the same context key belong to the same step. */
  predicate KeysApart(x: Event, y: Event) {
    x.StepCompleted? && y.StepCompleted? && x.stepId != y.stepId && x.outputKey.Some? ==> x.outputKey != y.outputKey
  }

  ghost predicate KeysAllApart(log: seq<Reading>) { forall x <- log, y <- log :: KeysApart(x.event, y.event) }

  /** The log of a run of the workflow: each completed step reports its own output key. */
  ghost predicate ReportsKeysOf(steps: seq<WorkflowValidation.Step>, log: seq<Reading>) {
    forall r <- log | r.event.StepCompleted? ::
      exists s <- steps :: s.id == r.event.stepId && s.outputKey == r.event.outputKey
  }

  /** Validation supplies the hypothesis. */
  lemma ValidKeysAreApart(steps: seq<WorkflowValidation.Step>, log: seq<Reading>)
    requires WorkflowValidation.DistinctKeys(steps) && ReportsKeysOf(steps, log)
    ensures KeysAllApart(log)
  {
    forall p <- log, q <- log
      ensures KeysApart(p.event, q.event)
    {
      var x, y := p.event, q.event;
      if x.StepCompleted? && y.StepCompleted? && x.stepId != y.stepId {
        var s :| s in steps && s.id == x.stepId && s.outputKey == x.outputKey;
        var t :| t in steps && t.id == y.stepId && t.outputKey == y.outputKey;
        var m :| 0 <= m < |steps| && steps[m] == s;
        var n :| 0 <= n < |steps| && steps[n] == t;
        assert m < n || n < m;
      }
    }
  }

  // ---- What one step event does to each field ----

  function RowsAfter(rows: map<string, StepResult>, r: Reading): map<string, StepResult> {
    match r.event
    case StepStarted(step, at) => RecordStart(rows, step, at)
    case StepCompleted(step, output, attempt, _, at) =>
      rows[step := StepResult(StepDone, Some(output), None, StartedAt(rows, step), Some(at), attempt)]
    case StepFailed(step, error, attempt, _) =>
      rows[step := StepResult(StepError, None, Some(error), StartedAt(rows, step), Some(r.now), attempt)]
    case _ => rows
  }

  function ContextAfter(context: Value, e: Event): Value {
    if e.StepCompleted? then Put(context, e.outputKey, e.output) else context
  }

  function RunningAfter(running: set<string>, e: Event): set<string> {
    if e.StepStarted? then running + {e.stepId}
    else if e.StepCompleted? || e.StepFailed? then running - {e.stepId} else running
  }

  function ScheduledAfter(scheduled: set<string>, e: Event): set<string> {
    if e.StepScheduled? || e.StepRetryScheduled? then scheduled + {e.stepId}
    else if e.StepStarted? then scheduled - {e.stepId} else scheduled
  }

  function CompletedAfter(completed: set<string>, e: Event): set<string> {
    if e.StepCompleted? then completed + {e.stepId} else completed
  }

  function StatusAfter(status: Status, e: Event): Status {
    if e.StepFailed? && !e.willRetry then Failed else status
  }

  function StepAfter(s: State, r: Reading): State {
    State(s.id, s.workflowId, StatusAfter(s.status, r.event), ContextAfter(s.context, r.event), RowsAfter(s.results, r),
          CompletedAfter(s.completed, r.event), RunningAfter(s.running, r.event), s.blocked,
          ScheduledAfter(s.scheduled, r.event), s.timers)
  }

  lemma ApplyIsStepAfter(s: State, r: Reading)
    requires StepEvent(r.event)
    ensures Apply(s, r.event, r.now) == Some(StepAfter(s, r))
  {}

  lemma RowsCommute(rows: map<string, StepResult>, x: Reading, y: Reading)
    requires StepEvent(x.event) && StepEvent(y.event) && x.event.stepId != y.event.stepId
    ensures RowsAfter(RowsAfter(rows, x), y) == RowsAfter(RowsAfter(rows, y), x)
  {}

  lemma ContextsCommute(context: Value, x: Event, y: Event)
    requires StepEvent(x) && StepEvent(y) && x.stepId != y.stepId && KeysApart(x, y)
    ensures ContextAfter(ContextAfter(context, x), y) == ContextAfter(ContextAfter(context, y), x)
  {
    if context.Obj? && x.StepCompleted? && y.StepCompleted? && x.outputKey.Some? && y.outputKey.Some? {
      assert context.fields[x.outputKey.value := x.output][y.outputKey.value := y.output]
          == context.fields[y.outputKey.value := y.output][x.outputKey.value := x.output];
    }
  }

  lemma SetsCommute(names: set<string>, x: Event, y: Event)
    requires StepEvent(x) && StepEvent(y) && x.stepId != y.stepId
    ensures RunningAfter(RunningAfter(names, x), y) == RunningAfter(RunningAfter(names, y), x)
    ensures ScheduledAfter(ScheduledAfter(names, x), y) == ScheduledAfter(ScheduledAfter(names, y), x)
    ensures CompletedAfter(CompletedAfter(names, x), y) == CompletedAfter(CompletedAfter(names, y), x)
  {}

  /** Events of different steps commute in every state. */
  lemma Commute(s: State, x: Reading, y: Reading)
    requires StepEvent(x.event) && StepEvent(y.event) && x.event.stepId != y.event.stepId
    requires KeysApart(x.event, y.event)
    ensures StepAfter(StepAfter(s, x), y) == StepAfter(StepAfter(s, y), x)
    ensures Fold(s, [x, y]) == Fold(s, [y, x])
  {
    assert [x, y][1..] == [y] && [y, x][1..] == [x] && [x][1..] == [] && [y][1..] == [];
    ApplyIsStepAfter(s, x);
    ApplyIsStepAfter(StepAfter(s, x), y);
    ApplyIsStepAfter(s, y);
    ApplyIsStepAfter(StepAfter(s, y), x);
    RowsCommute(s.results, x, y);
    ContextsCommute(s.context, x.event, y.event);
    SetsCommute(s.running, x.event, y.event);
    SetsCommute(s.scheduled, x.event, y.event);
    SetsCommute(s.completed, x.event, y.event);
  }

  lemma FoldStep(s: State, x: Reading, log: seq<Reading>)
    requires StepEvent(x.event)
    ensures Fold(s, [x] + log) == Fold(StepAfter(s, x), log)
  {
    ApplyIsStepAfter(s, x);
    assert ([x] + log)[1..] == log;
  }

  /** An event can be moved in front of events of other steps. */
  lemma {:induction false} MovePast(s: State, before: seq<Reading>, x: Reading)
    requires OnlySteps(before) && StepEvent(x.event)
    requires forall y <- before :: y.event.stepId != x.event.stepId && KeysApart(y.event, x.event)
    ensures Fold(s, before + [x]) == Fold(s, [x] + before)
    decreases |before|
  {
    if before == [] {
      assert before + [x] == [x] + before;
    } else {
      var y, rest := before[0], before[1..];
      assert before == [y] + rest && y in before;
      FoldStep(s, y, rest + [x]);
      assert [y] + (rest + [x]) == before + [x];
      MovePast(StepAfter(s, y), rest, x);
      FoldStep(StepAfter(s, y), x, rest);
      Commute(s, y, x);
      FoldStep(s, x, before);
      FoldStep(StepAfter(s, x), y, rest);
    }
  }

  /** An event with no event of its own step before it can be taken out and applied first. */
  lemma TakeOut(s: State, before: seq<Reading>, x: Reading, after: seq<Reading>)
    requires OnlySteps(before) && StepEvent(x.event)
    requires forall y <- before :: y.event.stepId != x.event.stepId && KeysApart(y.event, x.event)
    ensures Fold(s, before + ([x] + after)) == Fold(StepAfter(s, x), before + after)
  {
    assert Fold(s, before + ([x] + after)) == Fold(s, before + [x] + after) by { Reassociate(before, [x], after); }
    assert Fold(s, before + [x] + after) == Fold(s, [x] + before + after) by {
      FoldAppend(s, before + [x], after);
      FoldAppend(s, [x] + before, after);
      MovePast(s, before, x);
    }
    Reassociate([x], before, after);
    FoldStep(s, x, before + after);
  }

  /** The same events in two orders that agree step by step. */
  ghost predicate SameStepOrders(a: seq<Reading>, b: seq<Reading>) {
    forall step: string :: OfStep(a, step) == OfStep(b, step)
  }

  /** Taking the first event of a step out of both logs leaves the orders of the steps the same. */
  lemma RemoveFirst(x: Reading, a: seq<Reading>, before: seq<Reading>, after: seq<Reading>)
    requires StepEvent(x.event) && SameStepOrders([x] + a, before + ([x] + after))
    requires forall r <- before :: !Of(r, x.event.stepId)
    ensures SameStepOrders(a, before + after)
  {
    forall step: string
      ensures OfStep(a, step) == OfStep(before + after, step)
    {
      assert OfStep([x] + a, step) == OfStep(before + ([x] + after), step);
      FilterRemove(x, a, before, after, IsOf(step));
    }
  }

  lemma HeadDiffers(b: seq<Reading>)
    requires OnlySteps(b) && b != []
    ensures !SameStepOrders([], b)
  {
    var step := b[0].event.stepId;
    assert b == [b[0]] + b[1..] && b[0] in b;
    FilterCons(b[0], b[1..], IsOf(step));
    assert OfStep(b, step) != OfStep([], step);
  }

  lemma OthersApart(before: seq<Reading>, x: Reading, after: seq<Reading>)
    requires OnlySteps(before + ([x] + after)) && KeysAllApart(before + ([x] + after))
    ensures OnlySteps(before + after) && KeysAllApart(before + after)
    ensures OnlySteps(before) && forall y <- before :: KeysApart(y.event, x.event)
  {
    var all := before + ([x] + after);
    assert x in all;
    assert forall r <- before + after :: r in all;
    assert forall r <- before :: r in all;
  }

  /** The first event of one order is, in the other, the first of its step. */
  lemma FirstOfItsStep(x: Reading, later: seq<Reading>, b: seq<Reading>) returns (before: seq<Reading>, after: seq<Reading>)
    requires StepEvent(x.event) && SameStepOrders([x] + later, b)
    ensures b == before + ([x] + after) && forall r <- before :: !Of(r, x.event.stepId)
  {
    var step := x.event.stepId;
    FilterCons(x, later, IsOf(step));
    assert OfStep([x] + later, step) == OfStep(b, step);
    var i := FirstKept(b, IsOf(step));
    before, after := b[..i], b[i + 1..];
  }

  /** The second order can start with the first event of the first order, too. */
  lemma StartAlike(s: State, x: Reading, later: seq<Reading>, b: seq<Reading>) returns (rest: seq<Reading>)
    requires StepEvent(x.event) && OnlySteps(b) && SameStepOrders([x] + later, b) && KeysAllApart(b)
    ensures Fold(s, b) == Fold(StepAfter(s, x), rest)
    ensures SameStepOrders(later, rest) && OnlySteps(rest) && KeysAllApart(rest)
  {
    var before, after := FirstOfItsStep(x, later, b);
    rest := before + after;
    OthersApart(before, x, after);
    TakeOut(s, before, x, after);
    RemoveFirst(x, later, before, after);
  }

  /** Any two interleavings that keep each step's own order fold to the same state, from
      any state, when different steps have different output keys. */
  lemma {:induction false} InterleavingsAgree(s: State, a: seq<Reading>, b: seq<Reading>)
    requires OnlySteps(a) && OnlySteps(b) && SameStepOrders(a, b) && KeysAllApart(b)
    ensures Fold(s, a) == Fold(s, b)
    decreases |a|
  {
    if a == [] {
      if b != [] {
        HeadDiffers(b);
      }
    } else {
      assert a == [a[0]] + a[1..] && a[0] in a;
      var rest := StartAlike(s, a[0], a[1..], b);
      FoldStep(s, a[0], a[1..]);
      InterleavingsAgree(StepAfter(s, a[0]), a[1..], rest);
    }
  }

  /** For a validated workflow the hypothesis on keys is met by every log of its runs. */
  lemma ValidatedWorkflowsAreConfluent(steps: seq<WorkflowValidation.Step>, s: State, a: seq<Reading>, b: seq<Reading>)
    requires WorkflowValidation.DistinctKeys(steps) && ReportsKeysOf(steps, b)
    requires OnlySteps(a) && OnlySteps(b) && SameStepOrders(a, b)
    ensures Fold(s, a) == Fold(s, b)
  {
    ValidKeysAreApart(steps, b);
    InterleavingsAgree(s, a, b);
  }
}
