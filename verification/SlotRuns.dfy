/** Runs that show where the slot bound is exact: with more threads than the counter word has
    room for above the limit, refusals wrap the counter and one session too many gets in. */
module SlotRuns {
  import opened Words
  import opened Sets
  import opened SessionSlots

  lemma {:induction false} RunSnoc(max: nat, s: State, labels: seq<Label>, l: Label)
    requires Run(max, s, labels).Some?
    ensures Run(max, s, labels + [l]) == Step(max, Run(max, s, labels).value, l)
    decreases |labels|
  {
    if labels == [] {
      assert labels + [l] == [l] && [l][1..] == [];
    } else {
      assert (labels + [l])[1..] == labels[1..] + [l];
      RunSnoc(max, Step(max, s, labels[0]).value, labels[1..], l);
    }
  }

  /** `live` guards are held, named by the numbers below; `busy` threads have yet to undo. */
  ghost predicate Crowded(s: State, pool: set<Tid>, live: nat, busy: set<Tid>) {
    && s.pcs.Keys == pool && busy <= pool && s.active == live + |busy| && |Live(s)| == live
    && (forall t <- pool :: s.pcs[t] == if t in busy then Undoing else Idle)
    && (forall g <- s.guards :: g < live)
  }

  lemma {:induction false} Admit(max: nat, pool: set<Tid>, t: Tid, n: nat) returns (labels: seq<Label>)
    requires t in pool && n <= max < U32_SIZE
    ensures Run(max, Init(pool), labels).Some? && Crowded(Run(max, Init(pool), labels).value, pool, n, {})
  {
    if n == 0 {
      labels := [];
      InitIsSafe(max, pool);
      assert Live(Init(pool)) == {};
    } else {
      labels := Admit(max, pool, t, n - 1);
      var s := Run(max, Init(pool), labels).value;
      RunSnoc(max, Init(pool), labels, Reserve(t, n - 1));
      labels := labels + [Reserve(t, n - 1)];
      assert n - 1 !in Live(s);
      LiveAfter(s, Run(max, Init(pool), labels).value, n - 1, Held);
    }
  }

  lemma {:induction false} Refuse(max: nat, pool: set<Tid>, t: Tid, busy: set<Tid>) returns (labels: seq<Label>)
    requires max < U32_SIZE && t in pool && busy <= pool - {t} && max + |busy| < U64_SIZE
    ensures Run(max, Init(pool), labels).Some? && Crowded(Run(max, Init(pool), labels).value, pool, max, busy)
    decreases |busy|
  {
    if busy == {} {
      labels := Admit(max, pool, t, max);
    } else {
      var b :| b in busy;
      labels := Refuse(max, pool, t, busy - {b});
      RunSnoc(max, Init(pool), labels, Reserve(b, max));
      labels := labels + [Reserve(b, max)];
    }
  }

  lemma WrapBreaksLimit(max: nat, pool: set<Tid>) returns (labels: seq<Label>)
    requires max < U32_SIZE && !Fits(max, pool)
    ensures Run(max, Init(pool), labels).Some? && |Live(Run(max, Init(pool), labels).value)| > max
  {
    var t :| t in pool;
    assert |pool - {t}| == |pool| - 1;
    var busy := PickSubset(pool - {t}, U64_SIZE - 1 - max);
    labels := Refuse(max, pool, t, busy);
    var s := Run(max, Init(pool), labels).value;
    RunSnoc(max, Init(pool), labels, Reserve(t, max));
    labels := labels + [Reserve(t, max)];
    assert max !in Live(s);
    LiveAfter(s, Run(max, Init(pool), labels).value, max, Held);
  }

  /** Live sessions stay within the limit on every run exactly when limit and pool fit the counter. */
  lemma LimitHoldsIffFits(max: nat, pool: set<Tid>)
    requires max < U32_SIZE
    ensures Fits(max, pool) <==>
            forall labels: seq<Label> | Run(max, Init(pool), labels).Some? ::
              |Live(Run(max, Init(pool), labels).value)| <= max
  {
    if Fits(max, pool) {
      forall labels: seq<Label> | Run(max, Init(pool), labels).Some?
        ensures |Live(Run(max, Init(pool), labels).value)| <= max
      {
        SlotsAreSafe(max, pool, labels);
      }
    } else {
      var labels := WrapBreaksLimit(max, pool);
    }
  }
}
