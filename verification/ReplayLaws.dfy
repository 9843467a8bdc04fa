/** What a replay shows, told from the stream and the options: which events, and what each
    entry and the summary say about them. */
module ReplayLaws {
  import opened Wrappers
  import opened Sequences
  import opened Workflow
  import opened Replay

  // ---- Which events ----

  /** The events that each level of detail leaves out. */
  predicate Hidden(d: Detail, e: Event)
    decreases d.Low?
  {
    match d
    case High => false
    case Medium => e.InstanceCreated? || e.TimerFired? || e.LLMCall? || e.ToolCall? || e.External?
    case Low =>
      || Hidden(Medium, e) || e.StepScheduled? || e.StepRetryScheduled? || e.SignalWaitStarted? || e.BreakpointHit?
      || e.SignalReceived? || e.CancelRequested?
  }

  /** The time an event carries itself. */
  function OwnTime(e: Event): Option<Time> {
    if e.StepStarted? then Some(e.startedAt)
    else if e.StepCompleted? || e.WorkflowCompleted? then Some(e.completedAt)
    else if e.StepRetryScheduled? then Some(e.scheduledAt)
    else if e.BreakpointHit? then Some(e.pausedAt)
    else if e.SignalReceived? then Some(e.receivedAt)
    else if e.CancelRequested? then Some(e.requestedAt)
    else if e.LLMCall? || e.ToolCall? then Some(e.at)
    else if e.WorkflowFailed? then Some(e.failedAt)
    else if e.SquadEventOccurred? then Some(e.occurredAt)
    else None
  }

  /** Its own time, or else the clock. */
  function Timed(e: Event, clock: Time): Time { if OwnTime(e).Some? then OwnTime(e).value else clock }

  /** The step an event is about; a breakpoint is about none here. */
  function OwnStep(e: Event): Option<string> {
    if || e.StepScheduled? || e.StepStarted? || e.StepCompleted? || e.StepFailed? || e.StepRetryScheduled?
       || e.SignalWaitStarted? || e.LLMCall? || e.ToolCall?
    then Some(e.stepId) else None
  }

  predicate Asked(opts: Options, c: Clocked) {
    && !Hidden(opts.detail, c.event)
    && (opts.from.Some? ==> opts.from.value <= Timed(c.event, c.atFrom))
    && (opts.to.Some? ==> Timed(c.event, c.atTo) <= opts.to.value)
    && (opts.stepId.Some? ==> OwnStep(c.event) == opts.stepId)
  }

  function KindOk(opts: Options): Clocked -> bool { (c: Clocked) => Includes(opts.detail, c.event) }

  function FromOk(opts: Options): Clocked -> bool {
    (c: Clocked) => opts.from.Some? ==> EventTime(c.event, c.atFrom) >= opts.from.value
  }

  function ToOk(opts: Options): Clocked -> bool {
    (c: Clocked) => opts.to.Some? ==> EventTime(c.event, c.atTo) <= opts.to.value
  }

  function StepOk(opts: Options): Clocked -> bool { (c: Clocked) => opts.stepId.Some? ==> StepOf(c.event) == opts.stepId }

  function IsAsked(opts: Options): Clocked -> bool { (c: Clocked) => Asked(opts, c) }

  lemma FromFilter(opts: Options, xs: seq<Clocked>)
    ensures (if opts.from.None? then xs else Filter(xs, (c: Clocked) => EventTime(c.event, c.atFrom) >= opts.from.value))
            == Filter(xs, FromOk(opts))
  {
    if opts.from.None? {
      FilterAll(xs, FromOk(opts));
    } else {
      FilterSame(xs, (c: Clocked) => EventTime(c.event, c.atFrom) >= opts.from.value, FromOk(opts));
    }
  }

  lemma ToFilter(opts: Options, xs: seq<Clocked>)
    ensures (if opts.to.None? then xs else Filter(xs, (c: Clocked) => EventTime(c.event, c.atTo) <= opts.to.value))
            == Filter(xs, ToOk(opts))
  {
    if opts.to.None? {
      FilterAll(xs, ToOk(opts));
    } else {
      FilterSame(xs, (c: Clocked) => EventTime(c.event, c.atTo) <= opts.to.value, ToOk(opts));
    }
  }

  lemma StepFilter(opts: Options, xs: seq<Clocked>)
    ensures (if opts.stepId.None? then xs else Filter(xs, (c: Clocked) => StepOf(c.event) == opts.stepId))
            == Filter(xs, StepOk(opts))
  {
    if opts.stepId.None? {
      FilterAll(xs, StepOk(opts));
    } else {
      FilterSame(xs, (c: Clocked) => StepOf(c.event) == opts.stepId, StepOk(opts));
    }
  }

  lemma AskedIsSelected(opts: Options, stream: seq<Clocked>)
    ensures Selection(opts, stream) == Filter(stream, IsAsked(opts))
  {
    var shown := Filter(stream, KindOk(opts));
    FilterSame(stream, (c: Clocked) => Includes(opts.detail, c.event), KindOk(opts));
    FromFilter(opts, shown);
    ToFilter(opts, Filter(shown, FromOk(opts)));
    StepFilter(opts, Filter(Filter(shown, FromOk(opts)), ToOk(opts)));
    forall c <- stream
      ensures IsAsked(opts)(c) == (KindOk(opts)(c) && FromOk(opts)(c) && ToOk(opts)(c) && StepOk(opts)(c))
    {
      KindAndTimes(opts.detail, c);
    }
    FilterFour(stream, KindOk(opts), FromOk(opts), ToOk(opts), StepOk(opts), IsAsked(opts));
  }

  lemma KindAndTimes(d: Detail, c: Clocked)
    ensures Includes(d, c.event) == !Hidden(d, c.event)
    ensures forall clock: Time :: EventTime(c.event, clock) == Timed(c.event, clock)
    ensures StepOf(c.event) == OwnStep(c.event)
  {}

  // ---- What an entry says ----

  /** Of the first `n` events, the last with the property is at `i`. */
  ghost predicate LastIn(cs: seq<Clocked>, n: nat, i: nat, p: Event -> bool) {
    n <= |cs| && i < n && p(cs[i].event) && forall j | i < j < n :: !p(cs[j].event)
  }

  ghost predicate NoneIn(cs: seq<Clocked>, n: nat, p: Event -> bool) {
    n <= |cs| && forall j | 0 <= j < n :: !p(cs[j].event)
  }

  function StartsStep(step: string): Event -> bool { (e: Event) => e.StepStarted? && e.stepId == step }

  /** How long a step that ends took: since its last start among the events shown before, and
      never less than nothing; unknown if there is none. */
  ghost predicate DurationShows(cs: seq<Clocked>, j: nat, duration: Option<nat>)
    requires j < |cs|
  {
    var e := cs[j].event;
    if e.StepCompleted? || e.StepFailed? then
      var end := if e.StepCompleted? then e.completedAt else cs[j].atEntry;
      && (forall i: nat | LastIn(cs, j, i, StartsStep(e.stepId)) && cs[i].event.StepStarted? ::
            duration == Some(if end < cs[i].event.startedAt then 0 else end - cs[i].event.startedAt))
      && (NoneIn(cs, j, StartsStep(e.stepId)) ==> duration == None)
    else duration == None
  }

  ghost predicate EntryShows(d: Detail, cs: seq<Clocked>, j: nat, entry: Entry)
    requires j < |cs|
  {
    var e := cs[j].event;
    && entry.sequence == j + 1
    && entry.timestamp == Timed(e, cs[j].atEntry)
    && entry.eventType == EventTypeName(e)
    && entry.stepId == OwnStep(e)
    && entry.raw == (if d == High then Some(e) else None)
    && (entry.diff.Some? <==> e.InstanceStarted? || e.StepStarted? || e.StepCompleted? || e.StepFailed? || e.SignalReceived?)
    && DurationShows(cs, j, entry.duration)
  }

  lemma {:induction false} TimelineAt(d: Detail, show: Show, s: State, cs: seq<Clocked>, index: nat, j: nat)
    requires Fold(s, Readings(cs)).Some? && j < |cs|
    ensures Fold(s, Readings(cs[..j])).Some? && Fold(s, Readings(cs[..j + 1])).Some?
    ensures Timeline(d, show, s, cs, index)[j]
            == EntryFor(d, show, Fold(s, Readings(cs[..j])).value, Fold(s, Readings(cs[..j + 1])).value, cs[j], index + j)
    decreases j
  {
    assert Readings(cs)[1..] == Readings(cs[1..]);
    var after := Apply(s, cs[0].event, cs[0].atApply).value;
    if j == 0 {
      assert Readings(cs[..1]) == [Reading(cs[0].event, cs[0].atApply)] && Readings(cs[..0]) == [];
      assert Readings(cs[..1])[1..] == [];
    } else {
      TimelineAt(d, show, after, cs[1..], index + 1, j - 1);
      assert Readings(cs[..j])[1..] == Readings(cs[1..][..j - 1]);
      assert Readings(cs[..j + 1])[1..] == Readings(cs[1..][..j]);
    }
  }

  lemma {:induction false} StartIsLast(s: State, cs: seq<Clocked>, n: nat, step: string)
    requires s.results == map[] && n <= |cs| && Fold(s, Readings(cs[..n])).Some?
    ensures var results := Fold(s, Readings(cs[..n])).value.results;
            && (forall i: nat | LastIn(cs, n, i, StartsStep(step)) && cs[i].event.StepStarted? ::
                  StartedAt(results, step) == Some(cs[i].event.startedAt))
            && (NoneIn(cs, n, StartsStep(step)) ==> StartedAt(results, step) == None)
  {
    if n > 0 {
      var c := cs[n - 1];
      assert Readings(cs[..n]) == Readings(cs[..n - 1]) + [Reading(c.event, c.atApply)];
      FoldSnoc(s, Readings(cs[..n - 1]), Reading(c.event, c.atApply));
      StartIsLast(s, cs, n - 1, step);
      StartStep(Fold(s, Readings(cs[..n - 1])).value, c.event, c.atApply, step);
      forall i: nat | LastIn(cs, n, i, StartsStep(step)) && i < n - 1
        ensures LastIn(cs, n - 1, i, StartsStep(step)) && !StartsStep(step)(c.event)
      {
      }
      if NoneIn(cs, n, StartsStep(step)) {
        assert NoneIn(cs, n - 1, StartsStep(step)) && !StartsStep(step)(c.event);
      }
    }
  }

  lemma StartStep(s: State, e: Event, now: Time, step: string)
    requires Apply(s, e, now).Some?
    ensures StartedAt(Apply(s, e, now).value.results, step)
            == if StartsStep(step)(e) then Some(e.startedAt) else StartedAt(s.results, step)
  {}

  lemma LastInNext(cs: seq<Clocked>, j: nat, p: Event -> bool)
    requires j < |cs| && !p(cs[j].event)
    ensures forall i: nat | LastIn(cs, j, i, p) :: LastIn(cs, j + 1, i, p)
    ensures NoneIn(cs, j, p) ==> NoneIn(cs, j + 1, p)
  {}

  lemma DurationIs(s: State, cs: seq<Clocked>, j: nat, after: State)
    requires j < |cs| && s.results == map[] && Fold(s, Readings(cs[..j + 1])) == Some(after)
    ensures DurationShows(cs, j, Took(after, cs[j]))
  {
    var e := cs[j].event;
    if e.StepCompleted? || e.StepFailed? {
      LastInNext(cs, j, StartsStep(e.stepId));
      StartIsLast(s, cs, j + 1, e.stepId);
    }
  }

  lemma EntryAt(d: Detail, show: Show, s: State, cs: seq<Clocked>, j: nat)
    requires Fold(s, Readings(cs)).Some? && j < |cs| && s.results == map[]
    ensures EntryShows(d, cs, j, Timeline(d, show, s, cs, 0)[j])
  {
    TimelineAt(d, show, s, cs, 0, j);
    var before, after := Fold(s, Readings(cs[..j])).value, Fold(s, Readings(cs[..j + 1])).value;
    assert DurationShows(cs, j, Took(after, cs[j])) by { DurationIs(s, cs, j, after); }
    KindAndTimes(d, cs[j]);
  }

  /** The statuses in a diff: of the step before and after its event, where it has a result. */
  lemma DiffSays(show: Show, before: State, after: State, e: Event)
    ensures var d := Diff(show, before, after, e);
            && (e.StepStarted? || e.StepCompleted? || e.StepFailed? ==>
                  && (d.before.Some? <==> e.stepId in before.results) && (d.after.Some? <==> e.stepId in after.results)
                  && (d.before.Some? ==> Says(d.before.value, before.results[e.stepId].status))
                  && (d.after.Some? ==> Says(d.after.value, after.results[e.stepId].status)))
            && (e.InstanceStarted? ==> d.before == Some("Pending") && d.after == Some("Running"))
            && (e.SignalReceived? ==> d.before == Some("WaitingForSignal") && d.after == Some("Running"))
            && (e.StepCompleted? ==> d.preview == Some(Preview(show(e.output))))
            && (!e.StepCompleted? ==> d.preview == None)
            && (d.changed <==> d.added != {} || d.modified != {})
  {}

  predicate Says(name: string, status: StepStatus) {
    && (name == "Pending" <==> status == StepPending) && (name == "Running" <==> status == StepRunning)
    && (name == "Completed" <==> status == StepDone) && (name == "Failed" <==> status == StepError)
  }

  // ---- What the summary says ----

  function IsStart(): Event -> bool { (e: Event) => e.InstanceStarted? }

  /** The time at which an event ends the instance, or the squad that runs it. */
  function Ending(e: Event): Option<Time> {
    if e.WorkflowCompleted? then Some(e.completedAt)
    else if e.WorkflowFailed? then Some(e.failedAt)
    else if e.SquadEventOccurred? && e.squad.SquadCompleted? then Some(e.squad.completedAt)
    else if e.SquadEventOccurred? && e.squad.SquadFailed? then Some(e.squad.failedAt)
    else None
  }

  function IsEnding(): Event -> bool { (e: Event) => Ending(e).Some? }

  function Where(cs: seq<Clocked>, p: Event -> bool): set<nat> { set i: nat | i < |cs| && p(cs[i].event) }

  lemma {:induction false} CountIsSize(cs: seq<Clocked>, p: Event -> bool)
    ensures Count(cs, p) == |Where(cs, p)|
  {
    if cs == [] {
      assert Where(cs, p) == {};
    } else {
      var n := |cs| - 1;
      CountIsSize(cs[..n], p);
      assert Where(cs, p) == Where(cs[..n], p) + (if p(cs[n].event) then {n} else {});
      assert n !in Where(cs[..n], p);
    }
  }

  lemma {:induction false} LastStartIs(cs: seq<Clocked>)
    ensures forall i: nat | LastIn(cs, |cs|, i, IsStart()) :: LastStart(cs) == Some(cs[i].atEntry)
    ensures NoneIn(cs, |cs|, IsStart()) ==> LastStart(cs) == None
  {
    if cs != [] {
      LastStartIs(cs[..|cs| - 1]);
      Shorter(cs, IsStart());
    }
  }

  lemma {:induction false} LastEndIs(cs: seq<Clocked>)
    ensures forall i: nat | LastIn(cs, |cs|, i, IsEnding()) :: LastEnd(cs) == Ending(cs[i].event)
    ensures NoneIn(cs, |cs|, IsEnding()) ==> LastEnd(cs) == None
  {
    if cs != [] {
      LastEndIs(cs[..|cs| - 1]);
      Shorter(cs, IsEnding());
      EndingIs(cs[|cs| - 1].event);
    }
  }

  lemma EndingIs(e: Event)
    ensures EndTime(e) == Ending(e)
  {}

  lemma Shorter(cs: seq<Clocked>, p: Event -> bool)
    requires cs != []
    ensures var n := |cs| - 1;
            && (forall i: nat | LastIn(cs, |cs|, i, p) :: if p(cs[n].event) then i == n else LastIn(cs[..n], n, i, p))
            && (NoneIn(cs, |cs|, p) ==> NoneIn(cs[..n], n, p) && !p(cs[n].event))
  {
    var n := |cs| - 1;
    forall i: nat | LastIn(cs, |cs|, i, p)
      ensures if p(cs[n].event) then i == n else LastIn(cs[..n], n, i, p)
    {
      if i < n {
        assert !p(cs[n].event);
        assert forall j | 0 <= j < n :: cs[..n][j] == cs[j];
      }
    }
  }

  /** The counts are those of the events shown, the steps the different ones started, and the
      duration lies between the last start and the last ending, if there are both. */
  ghost predicate SummaryShows(cs: seq<Clocked>, r: Replayed, end: Time) {
    && r.summary.completed == |Where(cs, (e: Event) => e.StepCompleted?)|
    && r.summary.failed == |Where(cs, (e: Event) => e.StepFailed? && !e.willRetry)|
    && r.summary.retries == |Where(cs, (e: Event) => e.StepRetryScheduled?)|
    && r.summary.signals == |Where(cs, (e: Event) => e.SignalReceived?)|
    && r.summary.steps == |set i: nat | i < |cs| && cs[i].event.StepStarted? :: cs[i].event.stepId|
    && (forall i: nat | LastIn(cs, |cs|, i, IsStart()) :: r.startedAt == cs[i].atEntry)
    && (NoneIn(cs, |cs|, IsStart()) ==> r.startedAt == end && r.summary.duration == 0)
    && (forall i: nat | LastIn(cs, |cs|, i, IsEnding()) :: r.completedAt == Ending(cs[i].event))
    && (NoneIn(cs, |cs|, IsEnding()) ==> r.completedAt == None)
    && r.summary.duration ==
       if r.completedAt.None? || NoneIn(cs, |cs|, IsStart()) || r.completedAt.value < r.startedAt then 0
       else r.completedAt.value - r.startedAt
  }

  lemma SummaryIs(cs: seq<Clocked>, r: Replayed, end: Time)
    requires r.summary == Summarize(cs) && r.startedAt == StartOr(LastStart(cs), end) && r.completedAt == LastEnd(cs)
    ensures SummaryShows(cs, r, end)
  {
    CountIsSize(cs, (e: Event) => e.StepCompleted?);
    CountIsSize(cs, (e: Event) => e.StepFailed? && !e.willRetry);
    CountIsSize(cs, (e: Event) => e.StepRetryScheduled?);
    CountIsSize(cs, (e: Event) => e.SignalReceived?);
    assert StartedSteps(cs) == set i: nat | i < |cs| && cs[i].event.StepStarted? :: cs[i].event.stepId;
    LastStartIs(cs);
    LastEndIs(cs);
    SomeStart(cs);
  }

  lemma {:induction false} SomeStart(cs: seq<Clocked>)
    ensures LastStart(cs).None? <==> NoneIn(cs, |cs|, IsStart())
  {
    if cs != [] {
      var n := |cs| - 1;
      SomeStart(cs[..n]);
      Shorter(cs, IsStart());
      if LastStart(cs).None? {
        assert !IsStart()(cs[n].event) && NoneIn(cs[..n], n, IsStart());
        assert forall j | 0 <= j < n :: cs[..n][j] == cs[j];
      }
    }
  }

  // ---- The replay as a whole ----

  /** A replay shows exactly the events of the stream that the options ask for, in order, each
      by one entry that says what it is about, and sums them up. */
  lemma ReplayShowsExactly(id: string, stream: seq<Clocked>, opts: Options, show: Show, end: Time)
    returns (places: seq<nat>, cs: seq<Clocked>)
    requires Expected(id, stream, opts, show, end).Done?
    ensures Enumerates(places, |stream|, i => 0 <= i < |stream| && Asked(opts, stream[i]))
    ensures |cs| == |places| && forall j | 0 <= j < |cs| :: places[j] < |stream| && cs[j] == stream[places[j]]
    ensures var r := Expected(id, stream, opts, show, end).replay;
            && |r.timeline| == |cs|
            && (forall j | 0 <= j < |cs| :: EntryShows(opts.detail, cs, j, r.timeline[j]))
            && SummaryShows(cs, r, end)
  {
    AskedIsSelected(opts, stream);
    places := FilterPlaces(stream, IsAsked(opts));
    cs := Selection(opts, stream);
    var r := Expected(id, stream, opts, show, end).replay;
    PreparedHasNoResults(id, stream);
    forall j | 0 <= j < |cs|
      ensures EntryShows(opts.detail, cs, j, r.timeline[j])
    {
      EntryAt(opts.detail, show, Prepared(id, stream), cs, j);
    }
    SummaryIs(cs, r, end);
  }

  /** With a step asked for, every entry is about that step, and no other is counted. */
  lemma StepReplayShowsOneStep(id: string, stream: seq<Clocked>, opts: Options, show: Show, end: Time)
    requires Expected(id, stream, opts, show, end).Done? && opts.stepId.Some?
    ensures var r := Expected(id, stream, opts, show, end).replay;
            r.summary.steps <= 1 && forall j | 0 <= j < |r.timeline| :: r.timeline[j].stepId == opts.stepId
  {
    var places, cs := ReplayShowsExactly(id, stream, opts, show, end);
    forall j | 0 <= j < |cs|
      ensures OwnStep(cs[j].event) == opts.stepId
    {
      assert places[j] in places;
    }
    var steps := set i: nat | i < |cs| && cs[i].event.StepStarted? :: cs[i].event.stepId;
    assert steps <= {opts.stepId.value};
    if steps != {} {
      assert steps == {opts.stepId.value};
    }
  }
}
