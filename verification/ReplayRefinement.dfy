/** What a replay says about the instance: how its final state relates to applying the whole
    stream, and what its state diffs account for. */
module ReplayRefinement {
  import opened Wrappers
  import opened Sequences
  import opened Json
  import opened Workflow
  import opened Glance
  import opened Replay

  function Unfiltered(d: Detail): Options { Options(d, None, None, None) }

  /** Applying the whole stream to a blank instance. */
  function Whole(id: string, stream: seq<Clocked>): Option<State> { Fold(Blank(id), Readings(stream)) }

  /** The state a replay ends in, if it does not panic. */
  function Played(id: string, stream: seq<Clocked>, d: Detail): Option<State> {
    Fold(Prepared(id, stream), Readings(Filter(stream, (c: Clocked) => Includes(d, c.event))))
  }

  lemma PlayedIsReplayed(id: string, stream: seq<Clocked>, d: Detail, show: Show, end: Time)
    requires stream != []
    ensures match Expected(id, stream, Unfiltered(d), show, end)
            case Done(r) => Played(id, stream, d) == Some(r.final)
            case other => other == Panicked && Played(id, stream, d) == None
  {}

  // ---- Full detail ----

  lemma HighKeepsAll(id: string, stream: seq<Clocked>)
    ensures Played(id, stream, High) == Fold(Prepared(id, stream), Readings(stream))
  {
    FilterAll(stream, (c: Clocked) => Includes(High, c.event));
  }

  lemma {:induction false} PreparedWithoutCreated(id: string, stream: seq<Clocked>)
    requires forall i | 0 <= i < |stream| :: !stream[i].event.InstanceCreated?
    ensures Prepared(id, stream) == Blank(id)
    decreases |stream|
  {
    if stream != [] {
      PreparedWithoutCreated(id, stream[1..]);
    }
  }

  /** Replaying at full detail ends exactly where applying the whole stream ends, panics
      included, when the stream begins with its creation event or has none. */
  lemma HighReplayIsFold(id: string, stream: seq<Clocked>)
    requires (stream != [] && stream[0].event.InstanceCreated?)
             || (forall i | 0 <= i < |stream| :: !stream[i].event.InstanceCreated?)
    ensures Played(id, stream, High) == Whole(id, stream)
  {
    HighKeepsAll(id, stream);
    if stream != [] && stream[0].event.InstanceCreated? {
      var e, now := stream[0].event, stream[0].atApply;
      assert Apply(Prepared(id, stream), e, now) == Apply(Blank(id), e, now);
    } else {
      PreparedWithoutCreated(id, stream);
    }
  }

  /** Two states that differ only in what a creation event overwrites. */
  predicate Adrift(s: State, t: State) {
    !s.context.Obj? && t == s.(workflowId := t.workflowId, context := t.context)
  }

  lemma AdriftStep(s: State, t: State, e: Event, now: Time)
    requires Adrift(s, t) && Apply(t, e, now).Some?
    ensures if e.InstanceCreated? then Apply(s, e, now) == Apply(t, e, now)
            else Apply(s, e, now).Some? && Adrift(Apply(s, e, now).value, Apply(t, e, now).value)
  {}

  lemma {:induction false} AdriftFold(s: State, t: State, log: seq<Reading>)
    requires Adrift(s, t) && forall i | 0 <= i < |log| :: !log[i].event.InstanceCreated?
    ensures Fold(t, log).Some? ==> Fold(s, log).Some? && Adrift(Fold(s, log).value, Fold(t, log).value)
    decreases |log|
  {
    if log != [] && Fold(t, log).Some? {
      var e, now := log[0].event, log[0].now;
      AdriftStep(s, t, e, now);
      AdriftFold(Apply(s, e, now).value, Apply(t, e, now).value, log[1..]);
    }
  }

  /** Where the first creation event is. */
  function FirstCreation(stream: seq<Clocked>): (r: Option<nat>)
    ensures r.Some? ==> r.value < |stream| && stream[r.value].event.InstanceCreated?
    ensures forall i | 0 <= i < (if r.Some? then r.value else |stream|) :: !stream[i].event.InstanceCreated?
    decreases |stream|
  {
    if stream == [] then None
    else if stream[0].event.InstanceCreated? then Some(0)
    else match FirstCreation(stream[1..])
      case None => None
      case Some(i) => Some(i + 1)
  }

  /** The state a replay is prepared in, by the first creation event. */
  lemma {:induction false} PreparedBy(id: string, stream: seq<Clocked>)
    ensures match FirstCreation(stream)
            case None => Prepared(id, stream) == Blank(id)
            case Some(i) =>
              var e := stream[i].event;
              Prepared(id, stream) == Blank(id).(workflowId := e.workflowId, context := e.inputs)
    decreases |stream|
  {
    if stream != [] && !stream[0].event.InstanceCreated? {
      PreparedBy(id, stream[1..]);
    }
  }

  /** Before the first creation event, the instance as prepared meets no clash: no awaited,
      unrejected signal while "signals", in its inputs and the outputs since, is not an object. */
  ghost predicate StartsWell(stream: seq<Clocked>) {
    match FirstCreation(stream)
    case None => true
    case Some(i) => ClashFree(Glance(Pending, EntryOf(stream[i].event.inputs)), Events(Readings(stream[..i])))
  }

  lemma SplitAtCreation(s: State, stream: seq<Clocked>, i: nat)
    requires i < |stream|
    ensures Fold(s, Readings(stream)) ==
            match Fold(s, Readings(stream[..i]))
            case None => None
            case Some(m) =>
              match Apply(m, stream[i].event, stream[i].atApply)
              case None => None
              case Some(m') => Fold(m', Readings(stream[i + 1..]))
  {
    var before, c, after := Readings(stream[..i]), Reading(stream[i].event, stream[i].atApply), Readings(stream[i + 1..]);
    assert Readings(stream) == before + [c] + after;
    FoldAppend(s, before + [c], after);
    FoldSnoc(s, before, c);
  }

  /** Wherever the creation events are, a full replay ends, and panics, as applying the whole
      stream does, exactly when applying the stream panics too or the stream starts well. Both
      can be told by a scan of the events. */
  lemma HighReplayAgreesExactlyWhen(id: string, stream: seq<Clocked>)
    ensures Played(id, stream, High) == Whole(id, stream) <==> Whole(id, stream).None? || StartsWell(stream)
    ensures Whole(id, stream).Some? <==> ClashFree(Glance(Pending, NoContext), Events(Readings(stream)))
  {
    HighKeepsAll(id, stream);
    PreparedBy(id, stream);
    FoldAtAGlance(Blank(id), Readings(stream));
    if FirstCreation(stream).Some? {
      var i, p := FirstCreation(stream).value, Prepared(id, stream);
      var before := Readings(stream[..i]);
      FoldAtAGlance(p, before);
      SplitAtCreation(p, stream, i);
      SplitAtCreation(Blank(id), stream, i);
      if Fold(p, before).Some? {
        AdriftFold(Blank(id), p, before);
        AdriftStep(Fold(Blank(id), before).value, Fold(p, before).value, stream[i].event, stream[i].atApply);
      }
    }
  }

  function At(e: Event): Clocked { Clocked(e, 0, 0, 0, 0) }

  /** A stream that does not start well: with the creation event last, its inputs are in place too early,
      and the replay alone panics on them. */
  lemma HighReplayCanPanicAlone(id: string)
    ensures var stream := [At(SignalWaitStarted("a", "go")), At(SignalReceived("go", Null, 0, None, None)),
                           At(InstanceCreated("w", Obj(map["signals" := Null])))];
            Played(id, stream, High).None? && Whole(id, stream).Some?
  {
    var a, b := At(SignalWaitStarted("a", "go")), At(SignalReceived("go", Null, 0, None, None));
    var c := At(InstanceCreated("w", Obj(map["signals" := Null])));
    var stream := [a, b, c];
    HighKeepsAll(id, stream);
    assert stream[1..] == [b, c] && stream[1..][1..] == [c];
    var p := Prepared(id, stream);
    assert p == Prepared(id, [c]);
    assert Readings(stream) == Readings([a, b]) + Readings([c]);
    assert Readings([a, b]) == Readings([a]) + [Reading(b.event, 0)] && Readings([a]) == [] + [Reading(a.event, 0)];
    FoldSnoc(p, [], Reading(a.event, 0));
    FoldSnoc(p, Readings([a]), Reading(b.event, 0));
    FoldAppend(p, Readings([a, b]), Readings([c]));
    FoldSnoc(Blank(id), [], Reading(a.event, 0));
    FoldSnoc(Blank(id), Readings([a]), Reading(b.event, 0));
    assert Readings([c]) == [Reading(c.event, 0)];
    FoldSnoc(Blank(id), Readings([a, b]), Reading(c.event, 0));
  }

  // ---- Lower detail ----

  /** The steps whose retry timers fire in the stream. */
  function RetriedByTimer(stream: seq<Clocked>): set<string> {
    if stream == [] then {}
    else
      var e := stream[|stream| - 1].event;
      RetriedByTimer(stream[..|stream| - 1])
      + (if e.TimerFired? && RetryStep(e.timerId).Some? then {RetryStep(e.timerId).value} else {})
  }

  /** `r` is `f` except that steps of `extra` may still be scheduled in it. */
  predicate SameButScheduled(f: State, r: State, extra: set<string>) {
    && r == f.(scheduled := r.scheduled)
    && f.scheduled <= r.scheduled <= f.scheduled + extra
    && f.timers == map[]
  }

  predicate SameSteps(f: State, r: State) {
    r.completed == f.completed && r.running == f.running && r.workflowId == f.workflowId && r.id == f.id
  }

  lemma MediumStep(f: State, r: State, extra: set<string>, e: Event, now: Time)
    requires SameButScheduled(f, r, extra) && !e.InstanceCreated?
    ensures var extra' := extra + (if e.TimerFired? && RetryStep(e.timerId).Some? then {RetryStep(e.timerId).value} else {});
            if Includes(Medium, e) then
              && (Apply(f, e, now).Some? <==> Apply(r, e, now).Some?)
              && (Apply(f, e, now).Some? ==> SameButScheduled(Apply(f, e, now).value, Apply(r, e, now).value, extra'))
            else Apply(f, e, now).Some? && SameButScheduled(Apply(f, e, now).value, r, extra')
  {}

  /** The readings of a longer prefix, and of the part of it that passes a filter. */
  lemma PrefixStep(s: State, t: State, stream: seq<Clocked>, keep: Clocked -> bool, n: nat)
    requires n < |stream|
    ensures var c := stream[n];
            && Fold(s, Readings(stream[..n + 1]))
               == (match Fold(s, Readings(stream[..n])) case None => None case Some(m) => Apply(m, c.event, c.atApply))
            && Fold(t, Readings(Filter(stream[..n + 1], keep)))
               == (if !keep(c) then Fold(t, Readings(Filter(stream[..n], keep)))
                   else match Fold(t, Readings(Filter(stream[..n], keep)))
                     case None => None
                     case Some(m) => Apply(m, c.event, c.atApply))
  {
    var c := stream[n];
    var r := Reading(c.event, c.atApply);
    assert stream[..n + 1][..n] == stream[..n];
    assert Readings(stream[..n + 1]) == Readings(stream[..n]) + [r];
    FoldSnoc(s, Readings(stream[..n]), r);
    if keep(c) {
      assert Readings(Filter(stream[..n + 1], keep)) == Readings(Filter(stream[..n], keep)) + [r];
      FoldSnoc(t, Readings(Filter(stream[..n], keep)), r);
    } else {
      assert Filter(stream[..n + 1], keep) == Filter(stream[..n], keep);
    }
  }

  /** After its head, a stream with its creation event there leaves the blank instance as prepared. */
  lemma HeadPrepares(id: string, stream: seq<Clocked>)
    requires stream != [] && stream[0].event.InstanceCreated?
    ensures Fold(Blank(id), Readings(stream[..1])) == Some(Prepared(id, stream))
  {
    assert Readings(stream[..1]) == [] + [Reading(stream[0].event, stream[0].atApply)];
    FoldSnoc(Blank(id), [], Reading(stream[0].event, stream[0].atApply));
  }

  lemma {:induction false} MediumPrefix(id: string, stream: seq<Clocked>, n: nat)
    requires CreatedOnlyAtHead(stream) && n <= |stream|
    requires n == 0 ==> stream == [] || !stream[0].event.InstanceCreated?
    ensures var full := Fold(Blank(id), Readings(stream[..n]));
            var kept := Fold(Prepared(id, stream),
                             Readings(Filter(stream[..n], (c: Clocked) => Includes(Medium, c.event))));
            && (full.Some? <==> kept.Some?)
            && (full.Some? ==> SameButScheduled(full.value, kept.value, RetriedByTimer(stream[..n])))
    decreases n
  {
    var keep := (c: Clocked) => Includes(Medium, c.event);
    if n == 0 {
      PreparedWithoutCreated(id, stream);
    } else if n == 1 && stream[0].event.InstanceCreated? {
      HeadPrepares(id, stream);
      assert stream[..1][..0] == [];
      assert Filter(stream[..1], keep) == [];
    } else {
      MediumPrefix(id, stream, n - 1);
      PrefixStep(Blank(id), Prepared(id, stream), stream, keep, n - 1);
      assert stream[..n][..n - 1] == stream[..n - 1];
      var full := Fold(Blank(id), Readings(stream[..n - 1]));
      if full.Some? {
        var kept := Fold(Prepared(id, stream), Readings(Filter(stream[..n - 1], keep)));
        MediumStep(full.value, kept.value, RetriedByTimer(stream[..n - 1]), stream[n - 1].event, stream[n - 1].atApply);
      }
    }
  }

  /** Replaying at medium detail, which leaves out the creation event and the timers, ends
      in the same state but for scheduled steps, and those can only be steps whose retry
      timer has fired. Without such timers the states are equal. */
  lemma MediumReplayAgrees(id: string, stream: seq<Clocked>)
    requires CreatedOnlyAtHead(stream)
    ensures Played(id, stream, Medium).Some? <==> Whole(id, stream).Some?
    ensures Whole(id, stream).Some? ==>
              var f, r := Whole(id, stream).value, Played(id, stream, Medium).value;
              && r == f.(scheduled := r.scheduled)
              && f.scheduled <= r.scheduled <= f.scheduled + RetriedByTimer(stream)
              && (RetriedByTimer(stream) == {} ==> r == f)
  {
    if stream != [] {
      assert stream[..|stream|] == stream;
      MediumPrefix(id, stream, |stream|);
    }
  }

  lemma LowStep(f: State, r: State, e: Event, now: Time)
    requires SameSteps(f, r) && !e.InstanceCreated? && Apply(f, e, now).Some?
    ensures if Includes(Low, e) then Apply(r, e, now).Some? && SameSteps(Apply(f, e, now).value, Apply(r, e, now).value)
            else SameSteps(Apply(f, e, now).value, r)
  {}

  lemma {:induction false} LowPrefix(id: string, stream: seq<Clocked>, n: nat)
    requires CreatedOnlyAtHead(stream) && n <= |stream| && Fold(Blank(id), Readings(stream[..n])).Some?
    requires n == 0 ==> stream == [] || !stream[0].event.InstanceCreated?
    ensures var kept := Fold(Prepared(id, stream), Readings(Filter(stream[..n], (c: Clocked) => Includes(Low, c.event))));
            kept.Some? && SameSteps(Fold(Blank(id), Readings(stream[..n])).value, kept.value)
    decreases n
  {
    var keep := (c: Clocked) => Includes(Low, c.event);
    if n == 0 {
      PreparedWithoutCreated(id, stream);
    } else if n == 1 && stream[0].event.InstanceCreated? {
      HeadPrepares(id, stream);
      assert stream[..1][..0] == [];
      assert Filter(stream[..1], keep) == [];
    } else {
      PrefixStep(Blank(id), Prepared(id, stream), stream, keep, n - 1);
      LowPrefix(id, stream, n - 1);
      var kept := Fold(Prepared(id, stream), Readings(Filter(stream[..n - 1], keep)));
      LowStep(Fold(Blank(id), Readings(stream[..n - 1])).value, kept.value, stream[n - 1].event, stream[n - 1].atApply);
    }
  }

  /** Even the lowest detail gets the workflow and the completed and running steps right. */
  lemma LowReplayAgreesOnSteps(id: string, stream: seq<Clocked>)
    requires CreatedOnlyAtHead(stream) && Whole(id, stream).Some?
    ensures Played(id, stream, Low).Some? && SameSteps(Whole(id, stream).value, Played(id, stream, Low).value)
  {
    if stream != [] {
      assert stream[..|stream|] == stream;
      LowPrefix(id, stream, |stream|);
    }
  }

  // ---- State diffs ----

  function AddedIn(t: Entry): set<string> { if t.diff.Some? then t.diff.value.added else {} }

  function ModifiedIn(t: Entry): set<string> { if t.diff.Some? then t.diff.value.modified else {} }

  function AddedInAll(ts: seq<Entry>): set<string> {
    if ts == [] then {} else AddedIn(ts[0]) + AddedInAll(ts[1..])
  }

  lemma {:induction false} AddedInAllHas(ts: seq<Entry>, i: nat)
    requires i < |ts|
    ensures AddedIn(ts[i]) <= AddedInAll(ts)
  {
    if i > 0 {
      AddedInAllHas(ts[1..], i - 1);
    }
  }

  /** One entry accounts for every change to the context: a key it does not list keeps its
      value, and the keys it adds were not there. */
  lemma EntryAccounts(d: Detail, show: Show, s: State, after: State, c: Clocked, index: nat)
    requires !c.event.InstanceCreated? && Apply(s, c.event, c.atApply) == Some(after)
    ensures var t := EntryFor(d, show, s, after, c, index);
            && ContextKeys(after.context) == ContextKeys(s.context) + AddedIn(t)
            && AddedIn(t) !! ContextKeys(s.context)
            && (s.context.Obj? <==> after.context.Obj?)
            && (forall k <- ContextKeys(s.context) ::
                  after.context.fields[k] == s.context.fields[k] <==> k !in ModifiedIn(t))
  {}

  /** The entries `ts` account for everything that leads from one context to the other: the
      final keys are the first ones and the added ones, no key is added twice, and a key
      that no entry lists as modified keeps its value. */
  ghost predicate Accounts(start: Value, final: Value, ts: seq<Entry>) {
    && (start.Obj? <==> final.Obj?)
    && ContextKeys(final) == ContextKeys(start) + AddedInAll(ts)
    && AddedInAll(ts) !! ContextKeys(start)
    && (forall i, j | 0 <= i < j < |ts| :: AddedIn(ts[i]) !! AddedIn(ts[j]))
    && (forall k <- ContextKeys(start) :: Unmodified(k, ts) ==> final.fields[k] == start.fields[k])
  }

  predicate Unmodified(k: string, ts: seq<Entry>) { forall i | 0 <= i < |ts| :: k !in ModifiedIn(ts[i]) }

  lemma AccountsCons(start: Value, mid: Value, final: Value, t: Entry, rest: seq<Entry>)
    requires (start.Obj? <==> mid.Obj?) && Accounts(mid, final, rest)
    requires ContextKeys(mid) == ContextKeys(start) + AddedIn(t) && AddedIn(t) !! ContextKeys(start)
    requires forall k <- ContextKeys(start) :: k !in ModifiedIn(t) ==> mid.fields[k] == start.fields[k]
    ensures Accounts(start, final, [t] + rest)
  {
    var ts := [t] + rest;
    assert ts[1..] == rest;
    forall i, j | 0 <= i < j < |ts|
      ensures AddedIn(ts[i]) !! AddedIn(ts[j])
    {
      AddedInAllHas(rest, j - 1);
    }
    forall k <- ContextKeys(start) | Unmodified(k, ts)
      ensures final.fields[k] == start.fields[k]
    {
      assert k !in ModifiedIn(ts[0]);
      forall i | 0 <= i < |rest|
        ensures k !in ModifiedIn(rest[i])
      {
        assert rest[i] == ts[i + 1];
      }
    }
  }

  lemma {:induction false} TimelineAccounts(d: Detail, show: Show, s: State, cs: seq<Clocked>, index: nat)
    requires Fold(s, Readings(cs)).Some?
    requires forall i | 0 <= i < |cs| :: !cs[i].event.InstanceCreated?
    ensures Accounts(s.context, Fold(s, Readings(cs)).value.context, Timeline(d, show, s, cs, index))
    decreases |cs|
  {
    if cs != [] {
      assert Readings(cs)[1..] == Readings(cs[1..]);
      var after := Apply(s, cs[0].event, cs[0].atApply).value;
      EntryAccounts(d, show, s, after, cs[0], index);
      TimelineAccounts(d, show, after, cs[1..], index + 1);
      AccountsCons(s.context, after.context, Fold(s, Readings(cs)).value.context,
                   EntryFor(d, show, s, after, cs[0], index), Timeline(d, show, after, cs[1..], index + 1));
    }
  }

  /** Under any options, the diffs of a replay lose nothing of what happened to the context
      since the creation event. */
  lemma DiffsLoseNothing(id: string, stream: seq<Clocked>, opts: Options, show: Show, end: Time)
    requires CreatedOnlyAtHead(stream) && Expected(id, stream, opts, show, end).Done?
    ensures var r := Expected(id, stream, opts, show, end).replay;
            Accounts(Prepared(id, stream).context, r.final.context, r.timeline)
  {
    SelectionKeepsHead(opts, stream);
    var cs, s, d := Selection(opts, stream), Prepared(id, stream), opts.detail;
    if cs != [] && cs[0].event.InstanceCreated? {
      assert Readings(cs)[1..] == Readings(cs[1..]);
      assert Apply(s, cs[0].event, cs[0].atApply) == Some(s);
      TimelineAccounts(d, show, s, cs[1..], 1);
      AccountsCons(s.context, s.context, Fold(s, Readings(cs)).value.context,
                   EntryFor(d, show, s, s, cs[0], 0), Timeline(d, show, s, cs[1..], 1));
    } else {
      TimelineAccounts(d, show, s, cs, 0);
    }
  }
}
