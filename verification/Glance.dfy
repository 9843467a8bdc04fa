/** What can be told from a list of events by looking only at the status and at the "signals"
    entry of the context: which status it ends in, and whether applying it panics. */
module Glance {
  import opened Wrappers
  import opened Json
  import opened Workflow

  /** What the context has under "signals". */
  datatype SignalsEntry = NoContext | Missing | Object | Other

  datatype Glance = Glance(status: Status, entry: SignalsEntry)

  function EntryOf(context: Value): SignalsEntry {
    if !context.Obj? then NoContext
    else if "signals" !in context.fields then Missing
    else KindOf(context.fields["signals"])
  }

  function KindOf(v: Value): SignalsEntry { if v.Obj? then Object else Other }

  function GlanceOf(s: State): Glance { Glance(s.status, EntryOf(s.context)) }

  /** The instance waits for this signal, and it is not a rejection. */
  predicate Awaited(status: Status, e: Event) {
    e.SignalReceived? && e.action != Some(Reject) && status == WaitingForSignal(e.signalName)
  }

  function Moved(status: Status, e: Event): Status {
    match e
    case InstanceCreated(_, _) => Pending
    case InstanceStarted => Running
    case StepFailed(_, _, _, willRetry) => if willRetry then status else Failed
    case SignalWaitStarted(_, name) => WaitingForSignal(name)
    case BreakpointHit(step, _, _) => WaitingForSignal("__breakpoint__" + step)
    case SignalReceived(_, _, _, action, _) =>
      if action == Some(Reject) then Failed else if Awaited(status, e) then Running else status
    case CancelRequested(_) => Failed
    case WorkflowCompleted(_, _) => Completed
    case WorkflowFailed(_, _) => Failed
    case _ => status
  }

  function Filed(entry: SignalsEntry, status: Status, e: Event): SignalsEntry {
    match e
    case InstanceCreated(_, inputs) => EntryOf(inputs)
    case StepCompleted(_, output, _, key, _) =>
      if entry != NoContext && key == Some("signals") then KindOf(output) else entry
    case _ => if Awaited(status, e) && entry == Missing then Object else entry
  }

  function Seen(g: Glance, e: Event): Glance { Glance(Moved(g.status, e), Filed(g.entry, g.status, e)) }

  function SeenAll(g: Glance, events: seq<Event>): Glance {
    if events == [] then g else Seen(SeenAll(g, events[..|events| - 1]), events[|events| - 1])
  }

  /** The status scan of an instance's events. */
  function StatusScan(events: seq<Event>): Status {
    if events == [] then Pending else Moved(StatusScan(events[..|events| - 1]), events[|events| - 1])
  }

  /** An awaited signal meets a "signals" entry that is not an object. */
  predicate Clashes(g: Glance, e: Event) { Awaited(g.status, e) && g.entry == Other }

  ghost predicate ClashFree(g: Glance, events: seq<Event>) {
    forall i | 0 <= i < |events| :: !Clashes(SeenAll(g, events[..i]), events[i])
  }

  function Events(log: seq<Reading>): (r: seq<Event>)
    ensures |r| == |log|
  {
    seq(|log|, i requires 0 <= i < |log| => log[i].event)
  }

  lemma ApplyAtAGlance(s: State, e: Event, now: Time)
    ensures Apply(s, e, now).Some? <==> !Clashes(GlanceOf(s), e)
    ensures Apply(s, e, now).Some? ==> GlanceOf(Apply(s, e, now).value) == Seen(GlanceOf(s), e)
  {
    if e.SignalReceived? {
      SignalAtAGlance(s, e);
    } else if e.StepCompleted? {
      PutAtAGlance(s.context, e.outputKey, e.output);
    }
  }

  lemma PutAtAGlance(context: Value, key: Option<string>, v: Value)
    ensures EntryOf(Put(context, key, v))
            == if EntryOf(context) != NoContext && key == Some("signals") then KindOf(v) else EntryOf(context)
  {}

  lemma SignalAtAGlance(s: State, e: Event)
    requires e.SignalReceived?
    ensures ApplySignal(s, e).Some? <==> !Clashes(GlanceOf(s), e)
    ensures ApplySignal(s, e).Some? ==> GlanceOf(ApplySignal(s, e).value) == Seen(GlanceOf(s), e)
  {}

  lemma ClashFreeSnoc(g: Glance, events: seq<Event>, e: Event)
    ensures ClashFree(g, events + [e]) <==> ClashFree(g, events) && !Clashes(SeenAll(g, events), e)
    ensures SeenAll(g, events + [e]) == Seen(SeenAll(g, events), e)
  {
    var all := events + [e];
    assert all[..|events|] == events;
    assert forall i | 0 <= i < |events| :: all[..i] == events[..i] && all[i] == events[i];
    if ClashFree(g, all) {
      assert !Clashes(SeenAll(g, all[..|events|]), all[|events|]);
      forall i | 0 <= i < |events|
        ensures !Clashes(SeenAll(g, events[..i]), events[i])
      {
        assert !Clashes(SeenAll(g, all[..i]), all[i]);
      }
    }
  }

  /** Whether applying a log panics, and the status it ends in, can be told from status and
      "signals" entry alone. */
  lemma {:induction false} FoldAtAGlance(s: State, log: seq<Reading>)
    ensures Fold(s, log).Some? <==> ClashFree(GlanceOf(s), Events(log))
    ensures Fold(s, log).Some? ==> GlanceOf(Fold(s, log).value) == SeenAll(GlanceOf(s), Events(log))
    decreases |log|
  {
    if log != [] {
      var front, last := log[..|log| - 1], log[|log| - 1];
      FoldAtAGlance(s, front);
      FoldSnoc(s, front, last);
      assert log == front + [last] && Events(log) == Events(front) + [last.event];
      ClashFreeSnoc(GlanceOf(s), Events(front), last.event);
      if Fold(s, front).Some? {
        ApplyAtAGlance(Fold(s, front).value, last.event, last.now);
      }
    }
  }

  lemma {:induction false} StatusSeen(g: Glance, events: seq<Event>)
    requires g.status == Pending
    ensures SeenAll(g, events).status == StatusScan(events)
  {
    if events != [] {
      StatusSeen(g, events[..|events| - 1]);
    }
  }
}
