/** Replaying a stream of events, or the part of it that the options select. */
module Replay {
  import opened Wrappers
  import opened Sequences
  import opened Json
  import opened Workflow
  import opened Instance

  datatype Detail = Low | Medium | High

  datatype Options = Options(detail: Detail, from: Option<Time>, to: Option<Time>, stepId: Option<string>)

  /** How a JSON value is written as text, which is a library's business. */
  type Show = Value -> string

  /** A stored event with the clock readings the replayer may take for it: in the two time
      filters, while applying it, and while making its timeline entry. */
  datatype Clocked = Clocked(event: Event, atFrom: Time, atTo: Time, atApply: Time, atEntry: Time)

  datatype StateDiff = StateDiff(
    changed: bool, added: set<string>, modified: set<string>,
    before: Option<string>, after: Option<string>, preview: Option<string>)

  /** `raw` is the event whose JSON form the entry carries, at full detail. */
  datatype Entry = Entry(sequence: nat, timestamp: Time, eventType: string, stepId: Option<string>,
                         diff: Option<StateDiff>, duration: Option<nat>, raw: Option<Event>)

  datatype Summary = Summary(steps: nat, completed: nat, failed: nat, retries: nat, signals: nat, duration: nat)

  datatype Replayed = Replayed(final: State, startedAt: Time, completedAt: Option<Time>,
                               timeline: seq<Entry>, summary: Summary)

  datatype Outcome = Done(replay: Replayed) | InvalidRange | NotFound | Panicked

  // ---- Pure helpers of the source ----

  predicate Includes(d: Detail, e: Event) {
    match d
    case High => true
    case Low =>
      e.InstanceStarted? || e.StepStarted? || e.StepCompleted? || e.StepFailed?
      || e.WorkflowCompleted? || e.WorkflowFailed? || e.SquadEventOccurred?
    case Medium =>
      e.InstanceStarted? || e.StepScheduled? || e.StepStarted? || e.StepCompleted? || e.StepFailed?
      || e.SignalReceived? || e.SignalWaitStarted? || e.BreakpointHit? || e.CancelRequested?
      || e.StepRetryScheduled? || e.WorkflowCompleted? || e.WorkflowFailed? || e.SquadEventOccurred?
  }

  function EventTime(e: Event, now: Time): Time {
    match e
    case StepStarted(_, at) => at
    case StepCompleted(_, _, _, _, at) => at
    case StepRetryScheduled(_, _, at) => at
    case BreakpointHit(_, _, at) => at
    case SignalReceived(_, _, at, _, _) => at
    case CancelRequested(at) => at
    case LLMCall(_, _, at) => at
    case ToolCall(_, _, at) => at
    case WorkflowCompleted(_, at) => at
    case WorkflowFailed(_, at) => at
    case SquadEventOccurred(_, at) => at
    case _ => now
  }

  function StepOf(e: Event): Option<string> {
    match e
    case StepScheduled(step, _) => Some(step)
    case StepStarted(step, _) => Some(step)
    case StepCompleted(step, _, _, _, _) => Some(step)
    case StepFailed(step, _, _, _) => Some(step)
    case StepRetryScheduled(step, _, _) => Some(step)
    case SignalWaitStarted(step, _) => Some(step)
    case LLMCall(_, step, _) => Some(step)
    case ToolCall(_, step, _) => Some(step)
    case _ => None
  }

  function PhaseName(p: Phase): string {
    match p
    case PhaseStarted => "Started"
    case PhaseCompleted => "Completed"
    case PhaseFailed => "Failed"
  }

  function EventTypeName(e: Event): string {
    match e
    case InstanceCreated(_, _) => "InstanceCreated"
    case InstanceStarted => "InstanceStarted"
    case StepScheduled(_, _) => "StepScheduled"
    case StepStarted(_, _) => "StepStarted"
    case StepCompleted(_, _, _, _, _) => "StepCompleted"
    case StepFailed(_, _, _, _) => "StepFailed"
    case StepRetryScheduled(_, _, _) => "StepRetryScheduled"
    case SignalWaitStarted(_, _) => "SignalWaitStarted"
    case BreakpointHit(_, _, _) => "BreakpointHit"
    case SignalReceived(_, _, _, _, _) => "SignalReceived"
    case TimerFired(_) => "TimerFired"
    case CancelRequested(_) => "CancelRequested"
    case LLMCall(phase, _, _) => "LLMCall" + PhaseName(phase)
    case ToolCall(phase, _, _) => "ToolCall" + PhaseName(phase)
    case WorkflowCompleted(_, _) => "WorkflowCompleted"
    case WorkflowFailed(_, _) => "WorkflowFailed"
    case External(_, _) => "External"
    case SquadEventOccurred(_, _) => "SquadEventOccurred"
  }

  const PREVIEW_LENGTH := 500

  /** Text too long for a preview ends in an ellipsis. */
  function Preview(text: string): (r: string)
    ensures |r| <= PREVIEW_LENGTH && (|text| <= PREVIEW_LENGTH ==> r == text)
  {
    if |text| > PREVIEW_LENGTH then text[..PREVIEW_LENGTH - 3] + "..." else text
  }

  // ---- Selection ----

  method Retain<T>(xs: seq<T>, keep: T -> bool) returns (r: seq<T>)
    ensures r == Filter(xs, keep)
  {
    r := [];
    for i := 0 to |xs|
      invariant r == Filter(xs[..i], keep)
    {
      assert xs[..i + 1][..i] == xs[..i];
      if keep(xs[i]) {
        r := r + [xs[i]];
      }
    }
    assert xs[..|xs|] == xs;
  }

  /** A filter does not move anything but the head to a later place than the head. */
  lemma {:induction false} FilterKeepsTail<T>(xs: seq<T>, keep: T -> bool, other: T -> bool)
    requires forall i | 0 < i < |xs| :: other(xs[i])
    ensures var r := Filter(xs, keep);
            (forall i | 0 < i < |r| :: other(r[i])) && (r != [] && !other(r[0]) ==> r[0] == xs[0])
  {
    if xs != [] {
      FilterKeepsTail(xs[..|xs| - 1], keep, other);
    }
  }

  function Selection(opts: Options, stream: seq<Clocked>): seq<Clocked> {
    var shown := Filter(stream, (c: Clocked) => Includes(opts.detail, c.event));
    var after := if opts.from.None? then shown
                 else Filter(shown, (c: Clocked) => EventTime(c.event, c.atFrom) >= opts.from.value);
    var within := if opts.to.None? then after
                  else Filter(after, (c: Clocked) => EventTime(c.event, c.atTo) <= opts.to.value);
    if opts.stepId.None? then within
    else Filter(within, (c: Clocked) => StepOf(c.event) == opts.stepId)
  }

  function Readings(cs: seq<Clocked>): (r: seq<Reading>)
    ensures |r| == |cs|
  {
    seq(|cs|, i requires 0 <= i < |cs| => Reading(cs[i].event, cs[i].atApply))
  }

  predicate CreatedOnlyAtHead(stream: seq<Clocked>) {
    forall i | 0 < i < |stream| :: !stream[i].event.InstanceCreated?
  }

  /** Nothing but the head is a creation, and if it is one it is the head of the stream. */
  predicate HeadedBy(r: seq<Clocked>, stream: seq<Clocked>) {
    CreatedOnlyAtHead(r) && (r != [] && r[0].event.InstanceCreated? ==> stream != [] && r[0] == stream[0])
  }

  lemma FilterKeepsHead(stream: seq<Clocked>, xs: seq<Clocked>, keep: Clocked -> bool)
    requires HeadedBy(xs, stream)
    ensures HeadedBy(Filter(xs, keep), stream)
  {
    FilterKeepsTail(xs, keep, (c: Clocked) => !c.event.InstanceCreated?);
  }

  lemma SelectionKeepsHead(opts: Options, stream: seq<Clocked>)
    requires CreatedOnlyAtHead(stream)
    ensures HeadedBy(Selection(opts, stream), stream)
  {
    var k1 := (c: Clocked) => Includes(opts.detail, c.event);
    FilterKeepsHead(stream, stream, k1);
    var shown := Filter(stream, k1);
    var after := shown;
    if opts.from.Some? {
      var k2 := (c: Clocked) => EventTime(c.event, c.atFrom) >= opts.from.value;
      FilterKeepsHead(stream, shown, k2);
      after := Filter(shown, k2);
    }
    var within := after;
    if opts.to.Some? {
      var k3 := (c: Clocked) => EventTime(c.event, c.atTo) <= opts.to.value;
      FilterKeepsHead(stream, after, k3);
      within := Filter(after, k3);
    }
    if opts.stepId.Some? {
      var k4 := (c: Clocked) => StepOf(c.event) == opts.stepId;
      FilterKeepsHead(stream, within, k4);
    }
  }

  /** The state the replayer starts from: blank, or with the first creation event applied. */
  function Prepared(id: string, stream: seq<Clocked>): State
    decreases |stream|
  {
    if stream == [] then Blank(id)
    else if stream[0].event.InstanceCreated? then
      Blank(id).(workflowId := stream[0].event.workflowId, context := stream[0].event.inputs)
    else Prepared(id, stream[1..])
  }

  // ---- The timeline ----

  function ContextKeys(context: Value): set<string> { if context.Obj? then context.fields.Keys else {} }

  predicate HasDiff(e: Event) {
    e.StepStarted? || e.StepCompleted? || e.StepFailed? || e.InstanceStarted? || e.SignalReceived?
  }

  function StepStatusName(s: StepStatus): string {
    match s
    case StepPending => "Pending"
    case StepRunning => "Running"
    case StepDone => "Completed"
    case StepError => "Failed"
  }

  function StepStatusIn(s: State, step: string): Option<string> {
    if step in s.results then Some(StepStatusName(s.results[step].status)) else None
  }

  function AddedKeys(before: Value, after: Value): set<string> {
    if before.Obj? && after.Obj? then after.fields.Keys - before.fields.Keys else {}
  }

  function ModifiedKeys(before: Value, after: Value): set<string> {
    if before.Obj? && after.Obj? then
      set k | k in after.fields && k in before.fields && after.fields[k] != before.fields[k]
    else {}
  }

  function Diff(show: Show, before: State, after: State, e: Event): StateDiff {
    var added, modified := AddedKeys(before.context, after.context), ModifiedKeys(before.context, after.context);
    var changed := added != {} || modified != {};
    if e.InstanceStarted? then StateDiff(changed, added, modified, Some("Pending"), Some("Running"), None)
    else if e.SignalReceived? then StateDiff(changed, added, modified, Some("WaitingForSignal"), Some("Running"), None)
    else if e.StepStarted? || e.StepCompleted? || e.StepFailed? then
      StateDiff(changed, added, modified, StepStatusIn(before, e.stepId), StepStatusIn(after, e.stepId),
                if e.StepCompleted? then Some(Preview(show(e.output))) else None)
    else StateDiff(changed, added, modified, None, None, None)
  }

  method DiffKeys<V(==)>(before: map<string, V>, after: map<string, V>)
    returns (changed: bool, added: set<string>, modified: set<string>)
    ensures added == after.Keys - before.Keys
    ensures modified == set k | k in after && k in before && after[k] != before[k]
    ensures changed <==> added != {} || modified != {}
  {
    changed, added, modified := false, {}, {};
    var todo := after.Keys;
    while todo != {}
      invariant todo <= after.Keys
      invariant forall k :: k in added <==> k in after && k !in todo && k !in before
      invariant forall k :: k in modified <==> k in after && k !in todo && k in before && after[k] != before[k]
      invariant changed <==> added != {} || modified != {}
      decreases |todo|
    {
      var key :| key in todo;
      todo := todo - {key};
      if key !in before {
        added := added + {key};
        changed := true;
      } else if before[key] != after[key] {
        modified := modified + {key};
        changed := true;
      }
    }
  }

  method ComputeStateDiff(show: Show, before: State, after: State, e: Event) returns (diff: StateDiff)
    ensures diff == Diff(show, before, after, e)
  {
    var changed, added, modified := false, {}, {};
    if before.context.Obj? && after.context.Obj? {
      changed, added, modified := DiffKeys(before.context.fields, after.context.fields);
    }
    diff := StateDiff(changed, added, modified, None, None, None);
    match e {
      case InstanceStarted =>
        diff := diff.(before := Some("Pending"), after := Some("Running"));
      case StepStarted(step, _) =>
        diff := diff.(before := StepStatusIn(before, step), after := StepStatusIn(after, step));
      case StepCompleted(step, output, _, _, _) =>
        diff := diff.(before := StepStatusIn(before, step), after := StepStatusIn(after, step),
                      preview := Some(Preview(show(output))));
      case StepFailed(step, _, _, _) =>
        diff := diff.(before := StepStatusIn(before, step), after := StepStatusIn(after, step));
      case SignalReceived(_, _, _, _, _) =>
        diff := diff.(before := Some("WaitingForSignal"), after := Some("Running"));
      case _ =>
    }
  }

  function Clamp(x: int): nat { if x < 0 then 0 else x }

  /** How long a step took, by the state's own record of when it started. */
  function Took(after: State, c: Clocked): Option<nat> {
    match c.event
    case StepCompleted(step, _, _, _, at) =>
      (match StartedAt(after.results, step) case Some(start) => Some(Clamp(at - start)) case None => None)
    case StepFailed(step, _, _, _) =>
      (match StartedAt(after.results, step) case Some(start) => Some(Clamp(c.atEntry - start)) case None => None)
    case _ => None
  }

  function EntryFor(d: Detail, show: Show, before: State, after: State, c: Clocked, index: nat): Entry {
    Entry(index + 1, EventTime(c.event, c.atEntry), EventTypeName(c.event), StepOf(c.event),
          if HasDiff(c.event) then Some(Diff(show, before, after, c.event)) else None, Took(after, c),
          if d == High then Some(c.event) else None)
  }

  /** The entries of the events of `cs` applied one after the other from `s`, the first of
      them at position `index`. */
  function Timeline(d: Detail, show: Show, s: State, cs: seq<Clocked>, index: nat): (r: seq<Entry>)
    requires Fold(s, Readings(cs)).Some?
    ensures |r| == |cs|
    decreases |cs|
  {
    if cs == [] then []
    else
      assert Readings(cs)[1..] == Readings(cs[1..]);
      var after := Apply(s, cs[0].event, cs[0].atApply).value;
      [EntryFor(d, show, s, after, cs[0], index)] + Timeline(d, show, after, cs[1..], index + 1)
  }

  lemma {:induction false} TimelineSnoc(d: Detail, show: Show, s: State, cs: seq<Clocked>, c: Clocked, index: nat)
    requires Fold(s, Readings(cs)).Some? && Fold(s, Readings(cs + [c])).Some?
    ensures var m := Fold(s, Readings(cs)).value;
            Apply(m, c.event, c.atApply).Some?
            && Timeline(d, show, s, cs + [c], index)
               == Timeline(d, show, s, cs, index) + [EntryFor(d, show, m, Apply(m, c.event, c.atApply).value, c, index + |cs|)]
    decreases |cs|
  {
    var all := cs + [c];
    assert Readings(all)[1..] == Readings(all[1..]);
    if cs == [] {
      assert all[1..] == [] && all[0] == c;
    } else {
      assert all[1..] == cs[1..] + [c] && all[0] == cs[0];
      assert Readings(cs)[1..] == Readings(cs[1..]);
      TimelineSnoc(d, show, Apply(s, cs[0].event, cs[0].atApply).value, cs[1..], c, index + 1);
    }
  }

  // ---- The summary ----

  function Count(cs: seq<Clocked>, p: Event -> bool): nat {
    if cs == [] then 0 else Count(cs[..|cs| - 1], p) + (if p(cs[|cs| - 1].event) then 1 else 0)
  }

  function StartedSteps(cs: seq<Clocked>): set<string> {
    set i | 0 <= i < |cs| && cs[i].event.StepStarted? :: cs[i].event.stepId
  }

  function LastStart(cs: seq<Clocked>): Option<Time> {
    if cs == [] then None
    else var c := cs[|cs| - 1];
      if c.event.InstanceStarted? then Some(c.atEntry) else LastStart(cs[..|cs| - 1])
  }

  function EndTime(e: Event): Option<Time> {
    match e
    case WorkflowCompleted(_, at) => Some(at)
    case WorkflowFailed(_, at) => Some(at)
    case SquadEventOccurred(SquadCompleted(_, at), _) => Some(at)
    case SquadEventOccurred(SquadFailed(_, at), _) => Some(at)
    case _ => None
  }

  function LastEnd(cs: seq<Clocked>): Option<Time> {
    if cs == [] then None
    else var end := EndTime(cs[|cs| - 1].event);
      if end.Some? then end else LastEnd(cs[..|cs| - 1])
  }

  function TotalTime(start: Option<Time>, end: Option<Time>): nat {
    if start.Some? && end.Some? then Clamp(end.value - start.value) else 0
  }

  function Summarize(cs: seq<Clocked>): Summary {
    Summary(|StartedSteps(cs)|,
            Count(cs, (e: Event) => e.StepCompleted?),
            Count(cs, (e: Event) => e.StepFailed? && !e.willRetry),
            Count(cs, (e: Event) => e.StepRetryScheduled?),
            Count(cs, (e: Event) => e.SignalReceived?),
            TotalTime(LastStart(cs), LastEnd(cs)))
  }

  // ---- The replayer ----

  /** Without a start event, the clock at the end of the replay stands in. */
  function StartOr(start: Option<Time>, end: Time): Time { if start.Some? then start.value else end }

  /** What the replay of a stream under the options amounts to. */
  function Expected(id: string, stream: seq<Clocked>, opts: Options, show: Show, end: Time): Outcome {
    if opts.from.Some? && opts.to.Some? && opts.from.value > opts.to.value then InvalidRange
    else if stream == [] then NotFound
    else
      var cs := Selection(opts, stream);
      match Fold(Prepared(id, stream), Readings(cs))
      case None => Panicked
      case Some(final) =>
        Done(Replayed(final, StartOr(LastStart(cs), end), LastEnd(cs),
                      Timeline(opts.detail, show, Prepared(id, stream), cs, 0), Summarize(cs)))
  }

  /** The replayer's own table of start times always agrees with the state it replays. */
  ghost predicate TableAgrees(table: map<string, Time>, s: State) {
    && (forall step <- table :: step in s.results && s.results[step].startedAt == Some(table[step]))
    && (forall step <- s.results :: s.results[step].startedAt.Some? ==> step in table)
  }

  method Prepare(id: string, stream: seq<Clocked>) returns (state: InstanceState)
    ensures fresh(state) && state.View() == Prepared(id, stream)
  {
    state := new InstanceState(id);
    var i := 0;
    while i < |stream|
      invariant i <= |stream|
      invariant state.View() == Blank(id)
      invariant Prepared(id, stream) == Prepared(id, stream[i..])
      invariant fresh(state)
    {
      if stream[i].event.InstanceCreated? {
        var panicked := state.Apply(stream[i].event, stream[i].atApply);
        return;
      }
      assert stream[i..][1..] == stream[i + 1..];
      i := i + 1;
    }
  }

  method Select(opts: Options, stream: seq<Clocked>) returns (events: seq<Clocked>)
    ensures events == Selection(opts, stream)
  {
    events := Retain(stream, (c: Clocked) => Includes(opts.detail, c.event));
    if opts.from.Some? {
      events := Retain(events, (c: Clocked) => EventTime(c.event, c.atFrom) >= opts.from.value);
    }
    if opts.to.Some? {
      events := Retain(events, (c: Clocked) => EventTime(c.event, c.atTo) <= opts.to.value);
    }
    if opts.stepId.Some? {
      events := Retain(events, (c: Clocked) => StepOf(c.event) == opts.stepId);
    }
  }

  lemma CountSnoc(cs: seq<Clocked>, c: Clocked, p: Event -> bool)
    ensures Count(cs + [c], p) == Count(cs, p) + (if p(c.event) then 1 else 0)
  {
    assert (cs + [c])[..|cs|] == cs;
  }

  lemma StartedStepsSnoc(cs: seq<Clocked>, c: Clocked)
    ensures StartedSteps(cs + [c])
            == StartedSteps(cs) + (if c.event.StepStarted? then {c.event.stepId} else {})
  {
    var all := cs + [c];
    assert all[|cs|] == c;
    forall step <- StartedSteps(cs)
      ensures step in StartedSteps(all)
    {
      var i :| 0 <= i < |cs| && cs[i].event.StepStarted? && cs[i].event.stepId == step;
      assert all[i] == cs[i];
    }
  }

  lemma SummarizeSnoc(cs: seq<Clocked>, c: Clocked)
    ensures var s, t := Summarize(cs), Summarize(cs + [c]);
            && t.steps == s.steps + (if c.event.StepStarted? && c.event.stepId !in StartedSteps(cs) then 1 else 0)
            && t.completed == s.completed + (if c.event.StepCompleted? then 1 else 0)
            && t.failed == s.failed + (if c.event.StepFailed? && !c.event.willRetry then 1 else 0)
            && t.retries == s.retries + (if c.event.StepRetryScheduled? then 1 else 0)
            && t.signals == s.signals + (if c.event.SignalReceived? then 1 else 0)
  {
    StartedStepsSnoc(cs, c);
    if c.event.StepStarted? && c.event.stepId in StartedSteps(cs) {
      assert StartedSteps(cs) + {c.event.stepId} == StartedSteps(cs);
    }
    CountSnoc(cs, c, (e: Event) => e.StepCompleted?);
    CountSnoc(cs, c, (e: Event) => e.StepFailed? && !e.willRetry);
    CountSnoc(cs, c, (e: Event) => e.StepRetryScheduled?);
    CountSnoc(cs, c, (e: Event) => e.SignalReceived?);
  }

  lemma LastTimesSnoc(cs: seq<Clocked>, c: Clocked)
    ensures LastStart(cs + [c]) == if c.event.InstanceStarted? then Some(c.atEntry) else LastStart(cs)
    ensures LastEnd(cs + [c]) == if EndTime(c.event).Some? then EndTime(c.event) else LastEnd(cs)
  {
    assert (cs + [c])[..|cs|] == cs;
  }

  lemma TableStep(table: map<string, Time>, before: State, after: State, c: Clocked)
    requires TableAgrees(table, before) && Apply(before, c.event, c.atApply) == Some(after)
    ensures TableAgrees(if c.event.StepStarted? then table[c.event.stepId := c.event.startedAt] else table, after)
  {
    forall step <- after.results
      ensures (c.event.StepStarted? && step == c.event.stepId)
              || StartedAt(after.results, step) == StartedAt(before.results, step)
    {}
    assert forall step <- before.results :: step in after.results;
  }

  /** The row the replayer makes for one event. */
  method MakeEntry(d: Detail, show: Show, before: State, after: State, c: Clocked, index: nat, table: map<string, Time>)
    returns (entry: Entry)
    requires Apply(before, c.event, c.atApply) == Some(after) && TableAgrees(table, before)
    ensures entry == EntryFor(d, show, before, after, c, index)
  {
    var diff := None;
    if HasDiff(c.event) {
      var computed := ComputeStateDiff(show, before, after, c.event);
      diff := Some(computed);
    }
    var duration := None;
    match c.event {
      case StepCompleted(step, _, _, _, at) =>
        if step in table {
          duration := Some(Clamp(at - table[step]));
        }
      case StepFailed(step, _, _, _) =>
        if step in table {
          duration := Some(Clamp(c.atEntry - table[step]));
        }
      case _ =>
    }
    assert c.event.StepCompleted? || c.event.StepFailed? ==>
        StartedAt(after.results, c.event.stepId) == StartedAt(before.results, c.event.stepId);
    entry := Entry(index + 1, EventTime(c.event, c.atEntry), EventTypeName(c.event), StepOf(c.event), diff, duration,
                   if d == High then Some(c.event) else None);
  }

  method Tally(sum: Summary, seen: set<string>, c: Clocked, ghost cs: seq<Clocked>)
    returns (sum': Summary, seen': set<string>)
    requires sum == Summarize(cs).(duration := 0) && seen == StartedSteps(cs)
    ensures sum' == Summarize(cs + [c]).(duration := 0) && seen' == StartedSteps(cs + [c])
  {
    SummarizeSnoc(cs, c);
    StartedStepsSnoc(cs, c);
    sum', seen' := sum, seen;
    match c.event {
      case StepStarted(step, _) =>
        if step !in seen {
          seen' := seen + {step};
          sum' := sum.(steps := sum.steps + 1);
        } else {
          assert StartedSteps(cs) + {step} == StartedSteps(cs);
        }
      case StepCompleted(_, _, _, _, _) => sum' := sum.(completed := sum.completed + 1);
      case StepFailed(_, _, _, willRetry) =>
        if !willRetry {
          sum' := sum.(failed := sum.failed + 1);
        }
      case StepRetryScheduled(_, _, _) => sum' := sum.(retries := sum.retries + 1);
      case SignalReceived(_, _, _, _, _) => sum' := sum.(signals := sum.signals + 1);
      case _ =>
    }
  }

  /** Where the replay loop stands once the events `done` have been applied to `s0`. */
  ghost predicate Progress(d: Detail, show: Show, s0: State, done: seq<Clocked>, now: State, timeline: seq<Entry>, table: map<string, Time>,
                           sum: Summary, seen: set<string>, startedAt: Option<Time>, completedAt: Option<Time>)
  {
    && Fold(s0, Readings(done)) == Some(now)
    && timeline == Timeline(d, show, s0, done, 0)
    && TableAgrees(table, now)
    && sum == Summarize(done).(duration := 0) && seen == StartedSteps(done)
    && startedAt == LastStart(done) && completedAt == LastEnd(done)
  }

  lemma ProgressStep(d: Detail, show: Show, s0: State, done: seq<Clocked>, c: Clocked, now: State, now': State,
                     timeline: seq<Entry>, table: map<string, Time>, sum: Summary, seen: set<string>,
                     sum': Summary, seen': set<string>, startedAt: Option<Time>, completedAt: Option<Time>)
    requires Progress(d, show, s0, done, now, timeline, table, sum, seen, startedAt, completedAt)
    requires Apply(now, c.event, c.atApply) == Some(now')
    requires sum' == Summarize(done + [c]).(duration := 0) && seen' == StartedSteps(done + [c])
    ensures Progress(d, show, s0, done + [c], now', timeline + [EntryFor(d, show, now, now', c, |done|)],
                     if c.event.StepStarted? then table[c.event.stepId := c.event.startedAt] else table,
                     sum', seen', if c.event.InstanceStarted? then Some(c.atEntry) else startedAt,
                     if EndTime(c.event).Some? then EndTime(c.event) else completedAt)
  {
    assert Readings(done + [c]) == Readings(done) + [Reading(c.event, c.atApply)];
    FoldSnoc(s0, Readings(done), Reading(c.event, c.atApply));
    TimelineSnoc(d, show, s0, done, c, 0);
    TableStep(table, now, now', c);
    LastTimesSnoc(done, c);
  }

  method Replay(id: string, stream: seq<Clocked>, opts: Options, show: Show, end: Time) returns (outcome: Outcome)
    ensures outcome == Expected(id, stream, opts, show, end)
  {
    if opts.from.Some? && opts.to.Some? && opts.from.value > opts.to.value {
      return InvalidRange;
    }
    if stream == [] {
      return NotFound;
    }
    var state := Prepare(id, stream);
    var events := Select(opts, stream);
    ghost var s0 := state.View();
    PreparedHasNoResults(id, stream);
    var timeline, table: map<string, Time> := [], map[];
    var sum, seen := Summary(0, 0, 0, 0, 0, 0), {};
    var startedAt, completedAt: Option<Time> := None, None;
    var i := 0;
    while i < |events|
      invariant i <= |events| && fresh(state)
      invariant Progress(opts.detail, show, s0, events[..i], state.View(), timeline, table, sum, seen, startedAt, completedAt)
    {
      var c := events[i];
      assert events[..i + 1] == events[..i] + [c];
      var before := state.View();
      var panicked := state.Apply(c.event, c.atApply);
      if panicked {
        FoldPanics(s0, events, i);
        return Panicked;
      }
      var after := state.View();
      var entry := MakeEntry(opts.detail, show, before, after, c, i, table);
      var sum', seen' := Tally(sum, seen, c, events[..i]);
      ProgressStep(opts.detail, show, s0, events[..i], c, before, after, timeline, table, sum, seen, sum', seen', startedAt, completedAt);
      sum, seen := sum', seen';
      timeline := timeline + [entry];
      if c.event.StepStarted? {
        table := table[c.event.stepId := c.event.startedAt];
      }
      if c.event.InstanceStarted? {
        startedAt := Some(entry.timestamp);
      }
      var end := EndTime(c.event);
      if end.Some? {
        completedAt := end;
      }
      i := i + 1;
    }
    assert events[..|events|] == events;
    var final := state.View();
    ReplayEnds(id, stream, opts, show, end, final, timeline, table, sum, seen, startedAt, completedAt);
    if startedAt.Some? && completedAt.Some? {
      sum := sum.(duration := Clamp(completedAt.value - startedAt.value));
    }
    return Done(Replayed(final, if startedAt.Some? then startedAt.value else end, completedAt, timeline, sum));
  }

  lemma ReplayEnds(id: string, stream: seq<Clocked>, opts: Options, show: Show, end: Time, final: State, timeline: seq<Entry>,
                   table: map<string, Time>, sum: Summary, seen: set<string>,
                   startedAt: Option<Time>, completedAt: Option<Time>)
    requires stream != [] && !(opts.from.Some? && opts.to.Some? && opts.from.value > opts.to.value)
    requires Progress(opts.detail, show, Prepared(id, stream), Selection(opts, stream), final, timeline, table, sum, seen, startedAt, completedAt)
    ensures Expected(id, stream, opts, show, end)
            == Done(Replayed(final, StartOr(startedAt, end), completedAt, timeline,
                             if startedAt.Some? && completedAt.Some?
                             then sum.(duration := Clamp(completedAt.value - startedAt.value)) else sum))
  {}

  lemma {:induction false} PreparedHasNoResults(id: string, stream: seq<Clocked>)
    ensures Prepared(id, stream).results == map[]
    decreases |stream|
  {
    if stream != [] && !stream[0].event.InstanceCreated? {
      PreparedHasNoResults(id, stream[1..]);
    }
  }

  lemma FoldPanics(s: State, cs: seq<Clocked>, n: nat)
    requires n < |cs| && Fold(s, Readings(cs[..n])).Some?
    requires Apply(Fold(s, Readings(cs[..n])).value, cs[n].event, cs[n].atApply).None?
    ensures Fold(s, Readings(cs)).None?
  {
    assert Readings(cs) == Readings(cs[..n]) + Readings(cs[n..]);
    FoldAppend(s, Readings(cs[..n]), Readings(cs[n..]));
  }
}
