/** Steps that share output keys: exactly when the order in which they interleave shows. */
module KeyRaces {
  import opened Wrappers
  import opened Sequences
  import opened Json
  import opened Workflow
  import opened Confluence

  // ---- The part of the state that output keys do not touch ----

  function MuteOne(r: Reading): Reading {
    if r.event.StepCompleted? then r.(event := r.event.(outputKey := None)) else r
  }

  /** The log with no output keys. */
  function Mute(log: seq<Reading>): (r: seq<Reading>)
    ensures |r| == |log| && forall i | 0 <= i < |log| :: r[i] == MuteOne(log[i])
  {
    seq(|log|, i requires 0 <= i < |log| => MuteOne(log[i]))
  }

  lemma {:induction false} MuteFilters(log: seq<Reading>, step: string)
    ensures OfStep(Mute(log), step) == Mute(OfStep(log, step))
  {
    if log != [] {
      var front, last := log[..|log| - 1], log[|log| - 1];
      MuteFilters(front, step);
      assert Mute(log) == Mute(front) + [MuteOne(last)];
      FilterSnoc(Mute(front), MuteOne(last), IsOf(step));
      assert Of(MuteOne(last), step) <==> Of(last, step);
      assert Mute(OfStep(front, step) + [last]) == Mute(OfStep(front, step)) + [MuteOne(last)];
    }
  }

  lemma MutedAgree(s: State, a: seq<Reading>, b: seq<Reading>)
    requires OnlySteps(a) && OnlySteps(b) && SameStepOrders(a, b)
    ensures Fold(s, Mute(a)) == Fold(s, Mute(b))
  {
    forall step: string
      ensures OfStep(Mute(a), step) == OfStep(Mute(b), step)
    {
      MuteFilters(a, step);
      MuteFilters(b, step);
      assert OfStep(a, step) == OfStep(b, step);
    }
    MuteIsMute(a);
    MuteIsMute(b);
    InterleavingsAgree(s, Mute(a), Mute(b));
  }

  lemma MuteIsMute(log: seq<Reading>)
    requires OnlySteps(log)
    ensures OnlySteps(Mute(log)) && KeysAllApart(Mute(log))
  {
    forall r <- Mute(log)
      ensures StepEvent(r.event) && (r.event.StepCompleted? ==> r.event.outputKey == None)
    {
      var i :| 0 <= i < |log| && Mute(log)[i] == r;
      assert log[i] in log;
    }
  }

  /** The context after a log of step events. */
  function Wrote(context: Value, log: seq<Reading>): Value {
    if log == [] then context else ContextAfter(Wrote(context, log[..|log| - 1]), log[|log| - 1].event)
  }

  lemma StepsBesideContext(s: State, t: State, r: Reading)
    requires StepEvent(r.event) && t == s.(context := t.context)
    ensures StepAfter(s, r) == StepAfter(t, MuteOne(r)).(context := ContextAfter(s.context, r.event))
  {}

  /** Output keys decide the context and nothing else. */
  lemma {:induction false} FoldByParts(s: State, log: seq<Reading>)
    requires OnlySteps(log)
    ensures Fold(s, log).Some? && Fold(s, Mute(log)).Some?
    ensures Fold(s, log).value == Fold(s, Mute(log)).value.(context := Wrote(s.context, log))
    decreases |log|
  {
    if log != [] {
      var front, last := log[..|log| - 1], log[|log| - 1];
      assert last in log && forall r <- front :: r in log;
      FoldByParts(s, front);
      assert log == front + [last] && Mute(log) == Mute(front) + [MuteOne(last)];
      FoldSnoc(s, front, last);
      FoldSnoc(s, Mute(front), MuteOne(last));
      var m, n := Fold(s, front).value, Fold(s, Mute(front)).value;
      ApplyIsStepAfter(m, last);
      ApplyIsStepAfter(n, MuteOne(last));
      StepsBesideContext(m, n, last);
    }
  }

  lemma OrderShowsInContext(s: State, a: seq<Reading>, b: seq<Reading>)
    requires OnlySteps(a) && OnlySteps(b) && SameStepOrders(a, b)
    ensures Fold(s, a) == Fold(s, b) <==> Wrote(s.context, a) == Wrote(s.context, b)
  {
    FoldByParts(s, a);
    FoldByParts(s, b);
    MutedAgree(s, a, b);
  }

  // ---- The last write of each key ----

  predicate Writes(e: Event, key: string) { e.StepCompleted? && e.outputKey == Some(key) }

  function LastWrite(log: seq<Reading>, key: string): Option<Value> {
    if log == [] then None
    else if Writes(log[|log| - 1].event, key) then Some(log[|log| - 1].event.output)
    else LastWrite(log[..|log| - 1], key)
  }

  lemma {:induction false} LastWriteAppend(a: seq<Reading>, b: seq<Reading>, key: string)
    ensures LastWrite(a + b, key) == if LastWrite(b, key).Some? then LastWrite(b, key) else LastWrite(a, key)
    decreases |b|
  {
    if b == [] {
      assert a + b == a;
    } else {
      LastWriteAppend(a, b[..|b| - 1], key);
      assert (a + b)[..|a + b| - 1] == a + b[..|b| - 1];
    }
  }

  lemma {:induction false} WroteLast(context: Value, log: seq<Reading>, key: string)
    requires context.Obj?
    ensures Wrote(context, log).Obj?
    ensures var g := Wrote(context, log).fields;
            match LastWrite(log, key)
            case Some(v) => key in g && g[key] == v
            case None => (key in g <==> key in context.fields) && (key in g ==> g[key] == context.fields[key])
  {
    if log != [] {
      WroteLast(context, log[..|log| - 1], key);
    }
  }

  lemma {:induction false} WroteNothing(context: Value, log: seq<Reading>)
    requires !context.Obj?
    ensures Wrote(context, log) == context
  {
    if log != [] {
      WroteNothing(context, log[..|log| - 1]);
    }
  }

  /** The last write of a key is the last one of the step that made it. */
  lemma {:induction false} SomeStepWroteLast(log: seq<Reading>, key: string) returns (step: string)
    ensures LastWrite(log, key).Some? ==> LastWrite(OfStep(log, step), key) == LastWrite(log, key)
  {
    step := "";
    if log != [] {
      var front, last := log[..|log| - 1], log[|log| - 1];
      assert log == front + [last];
      if Writes(last.event, key) {
        step := last.event.stepId;
        FilterSnoc(front, last, IsOf(step));
        LastWriteAppend(OfStep(front, step), [last], key);
      } else {
        step := SomeStepWroteLast(front, key);
        FilterSnoc(front, last, IsOf(step));
        LastWriteAppend(OfStep(front, step), [last], key);
      }
    }
  }

  lemma {:induction false} StepWritesAreWrites(log: seq<Reading>, key: string, step: string)
    requires LastWrite(OfStep(log, step), key).Some?
    ensures LastWrite(log, key).Some?
  {
    var front, last := log[..|log| - 1], log[|log| - 1];
    assert log == front + [last];
    FilterSnoc(front, last, IsOf(step));
    if !Writes(last.event, key) {
      LastWriteAppend(OfStep(front, step), [last], key);
      StepWritesAreWrites(front, key, step);
    }
  }

  /** All steps that write a key end up writing the same value to it. */
  ghost predicate LastWritesAgree(log: seq<Reading>) {
    forall key: string, p: string, q: string |
      LastWrite(OfStep(log, p), key).Some? && LastWrite(OfStep(log, q), key).Some? ::
      LastWrite(OfStep(log, p), key) == LastWrite(OfStep(log, q), key)
  }

  lemma LastWritesSettle(a: seq<Reading>, b: seq<Reading>, key: string)
    requires SameStepOrders(a, b) && LastWritesAgree(a)
    ensures LastWrite(a, key) == LastWrite(b, key)
  {
    var p := SomeStepWroteLast(a, key);
    var q := SomeStepWroteLast(b, key);
    assert OfStep(a, p) == OfStep(b, p) && OfStep(a, q) == OfStep(b, q);
    if LastWrite(a, key).Some? {
      StepWritesAreWrites(b, key, p);
    }
    if LastWrite(b, key).Some? {
      StepWritesAreWrites(a, key, q);
    }
  }

  // ---- The order with one step's events last ----

  function IsNotOf(step: string): Reading -> bool { r => !Of(r, step) }

  function PutLast(log: seq<Reading>, step: string): seq<Reading> { Filter(log, IsNotOf(step)) + OfStep(log, step) }

  lemma PutLastKeepsOrders(log: seq<Reading>, step: string)
    requires OnlySteps(log)
    ensures OnlySteps(PutLast(log, step)) && SameStepOrders(log, PutLast(log, step))
  {
    FilterIsPart(log, IsNotOf(step));
    FilterIsPart(log, IsOf(step));
    forall other: string
      ensures OfStep(log, other) == OfStep(PutLast(log, step), other)
    {
      FilterAppend(Filter(log, IsNotOf(step)), OfStep(log, step), IsOf(other));
      if other == step {
        FilterTwiceNone(log, IsNotOf(step), IsOf(other));
        FilterTwiceWithin(log, IsOf(step), IsOf(other));
      } else {
        FilterTwiceWithin(log, IsNotOf(step), IsOf(other));
        FilterTwiceNone(log, IsOf(step), IsOf(other));
      }
    }
  }

  /** Every interleaving of a log that keeps each step's own order folds to the same state
      exactly when the context takes no output at all or, for every key, the steps that write
      it end up writing the same value. */
  lemma OrderIsFreeExactlyWhen(s: State, a: seq<Reading>)
    requires OnlySteps(a)
    ensures (forall b | OnlySteps(b) && SameStepOrders(a, b) :: Fold(s, b) == Fold(s, a))
            <==> !s.context.Obj? || LastWritesAgree(a)
  {
    forall b | OnlySteps(b) && SameStepOrders(a, b) && (!s.context.Obj? || LastWritesAgree(a))
      ensures Fold(s, b) == Fold(s, a)
    {
      ContextsSettle(s.context, a, b);
      OrderShowsInContext(s, a, b);
    }
    if s.context.Obj? && !LastWritesAgree(a) {
      var key: string, p: string, q: string :|
        && LastWrite(OfStep(a, p), key).Some? && LastWrite(OfStep(a, q), key).Some?
        && LastWrite(OfStep(a, p), key) != LastWrite(OfStep(a, q), key);
      EitherLastShows(s, a, key, p, q);
    }
  }

  lemma ContextsSettle(context: Value, a: seq<Reading>, b: seq<Reading>)
    requires SameStepOrders(a, b) && (!context.Obj? || LastWritesAgree(a))
    ensures Wrote(context, a) == Wrote(context, b)
  {
    if context.Obj? {
      WroteLast(context, a, "");
      WroteLast(context, b, "");
      var f, g := Wrote(context, a).fields, Wrote(context, b).fields;
      forall key: string
        ensures (key in f <==> key in g) && (key in f ==> f[key] == g[key])
      {
        LastWritesSettle(a, b, key);
        WroteLast(context, a, key);
        WroteLast(context, b, key);
      }
      assert f == g;
    } else {
      WroteNothing(context, a);
      WroteNothing(context, b);
    }
  }

  lemma EitherLastShows(s: State, a: seq<Reading>, key: string, p: string, q: string)
    requires OnlySteps(a) && s.context.Obj?
    requires LastWrite(OfStep(a, p), key).Some? && LastWrite(OfStep(a, q), key).Some?
    requires LastWrite(OfStep(a, p), key) != LastWrite(OfStep(a, q), key)
    ensures exists b :: OnlySteps(b) && SameStepOrders(a, b) && Fold(s, b) != Fold(s, a)
  {
    var b, c := PutLast(a, p), PutLast(a, q);
    PutLastKeepsOrders(a, p);
    PutLastKeepsOrders(a, q);
    LastWriteAppend(Filter(a, IsNotOf(p)), OfStep(a, p), key);
    LastWriteAppend(Filter(a, IsNotOf(q)), OfStep(a, q), key);
    WroteLast(s.context, b, key);
    WroteLast(s.context, c, key);
    OrderShowsInContext(s, a, b);
    OrderShowsInContext(s, a, c);
    assert Fold(s, b) != Fold(s, a) || Fold(s, c) != Fold(s, a);
  }
}
