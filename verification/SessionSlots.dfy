/** Session slots of one tenant: a shared counter that threads add to first and compare
    afterwards, and guards that give their slot back once. */
module SessionSlots {
  import opened Wrappers
  import opened Words
  import opened Sets

  /** The counter is a 64-bit usize. */
  type Usize = x: int | 0 <= x < 0x1_0000_0000_0000_0000

  type Tid = nat
  type GuardId = nat

  /** `Undoing`: over the limit, the increment not yet taken back. */
  datatype Pc = Idle | Undoing

  /** The life of a guard. `Subtracting` is inside `release_session`, after its `fetch_sub`;
      `explicit` tells a call of `release` from a drop, `reset` that the underflow branch
      is to run. `Flagged` has its `released` flag set and is about to be dropped. */
  datatype Guard = Held | Subtracting(explicit: bool, reset: bool) | Flagged | Gone

  datatype State = State(active: Usize, pcs: map<Tid, Pc>, guards: map<GuardId, Guard>, subtractions: map<GuardId, nat>)

  datatype Label =
    | Reserve(t: Tid, g: GuardId)   // fetch_add and comparison; `g` names the guard if there is one
    | Undo(t: Tid)
    | Release(g: GuardId)
    | Drop(g: GuardId)
    | Reset(g: GuardId)
    | Return(g: GuardId)

  function Init(pool: set<Tid>): State { State(0, map t | t in pool :: Idle, map[], map[]) }

  function Inc(x: Usize): Usize { if x == U64_SIZE - 1 then 0 else x + 1 }

  function Dec(x: Usize): Usize { if x == 0 then U64_SIZE - 1 else x - 1 }

  function Subtract(s: State, g: GuardId, explicit: bool): State
    requires g in s.subtractions
  {
    s.(active := Dec(s.active), guards := s.guards[g := Subtracting(explicit, s.active == 0)],
    subtractions := s.subtractions[g := s.subtractions[g] + 1])
  }

  function Step(max: nat, s: State, l: Label): Option<State> {
    match l
    case Reserve(t, g) =>
      if t !in s.pcs || s.pcs[t] != Idle || g in s.guards then None
      else if Inc(s.active) > max then Some(s.(active := Inc(s.active), pcs := s.pcs[t := Undoing]))
      else Some(s.(active := Inc(s.active), guards := s.guards[g := Held], subtractions := s.subtractions[g := 0]))
    case Undo(t) =>
      if t !in s.pcs || s.pcs[t] != Undoing then None
      else Some(s.(active := Dec(s.active), pcs := s.pcs[t := Idle]))
    case Release(g) =>
      if g !in s.guards || g !in s.subtractions || s.guards[g] != Held then None else Some(Subtract(s, g, true))
    case Drop(g) =>
      if g !in s.guards || g !in s.subtractions then None
      else if s.guards[g] == Held then Some(Subtract(s, g, false))
      else if s.guards[g] == Flagged then Some(s.(guards := s.guards[g := Gone]))
      else None
    case Reset(g) =>
      if g !in s.guards || !s.guards[g].Subtracting? || !s.guards[g].reset then None
      else Some(s.(active := 0, guards := s.guards[g := s.guards[g].(reset := false)]))
    case Return(g) =>
      if g !in s.guards || !s.guards[g].Subtracting? || s.guards[g].reset then None
      else Some(s.(guards := s.guards[g := if s.guards[g].explicit then Flagged else Gone]))
  }

  function Run(max: nat, s: State, labels: seq<Label>): Option<State>
    decreases |labels|
  {
    if labels == [] then Some(s)
    else match Step(max, s, labels[0])
      case None => None
      case Some(s') => Run(max, s', labels[1..])
  }

  function Live(s: State): set<GuardId> { set g | g in s.guards && s.guards[g] == Held }

  function Pending(s: State): set<Tid> { set t | t in s.pcs && s.pcs[t] == Undoing }

  /** The counter word has room for the limit and one increment of every thread. */
  predicate Fits(max: nat, pool: set<Tid>) { |pool| + max < U64_SIZE }

  ghost predicate CountInv(max: nat, s: State) {
    s.active == |Live(s)| + |Pending(s)| && |Live(s)| <= max
  }

  ghost predicate GuardInv(s: State) {
    s.guards.Keys == s.subtractions.Keys && forall g <- s.guards :: GuardOk(s.guards[g], s.subtractions[g])
  }

  predicate GuardOk(g: Guard, subtractions: nat) {
    subtractions == (if g == Held then 0 else 1) && (g.Subtracting? ==> !g.reset)
  }

  ghost predicate Inv(max: nat, s: State) { CountInv(max, s) && GuardInv(s) }

  lemma LiveAfter(s: State, s': State, g: GuardId, to: Guard)
    requires s'.guards == s.guards[g := to]
    ensures Live(s') == if to == Held then Live(s) + {g} else Live(s) - {g}
  {}

  lemma PendingAfter(s: State, s': State, t: Tid, to: Pc)
    requires s'.pcs == s.pcs[t := to]
    ensures Pending(s') == if to == Undoing then Pending(s) + {t} else Pending(s) - {t}
  {}

  lemma LiveMeansActive(max: nat, s: State, g: GuardId)
    requires CountInv(max, s) && g in s.guards && s.guards[g] == Held
    ensures s.active > 0
  {
    assert g in Live(s);
  }

  lemma NoWrap(max: nat, s: State, t: Tid)
    requires CountInv(max, s) && Fits(max, s.pcs.Keys) && t in s.pcs && s.pcs[t] == Idle
    ensures Inc(s.active) == s.active + 1
  {
    assert t !in Pending(s);
    SubsetSize(Pending(s), s.pcs.Keys);
  }

  lemma RefusalKeeps(max: nat, s: State, s': State, t: Tid)
    requires Inv(max, s) && t in s.pcs && s.pcs[t] == Idle
    requires Inc(s.active) == s.active + 1 && s' == s.(active := Inc(s.active), pcs := s.pcs[t := Undoing])
    ensures Inv(max, s')
  {
    assert t !in Pending(s);
    PendingAfter(s, s', t, Undoing);
    assert Live(s') == Live(s);
  }

  lemma AdmissionKeeps(max: nat, s: State, s': State, g: GuardId)
    requires Inv(max, s) && g !in s.guards && Inc(s.active) == s.active + 1 <= max
    requires s' == s.(active := Inc(s.active), guards := s.guards[g := Held], subtractions := s.subtractions[g := 0])
    ensures Inv(max, s')
  {
    assert g !in Live(s);
    LiveAfter(s, s', g, Held);
    assert Pending(s') == Pending(s);
  }

  lemma ReserveKeeps(max: nat, s: State, t: Tid, g: GuardId)
    requires Inv(max, s) && Fits(max, s.pcs.Keys) && Step(max, s, Reserve(t, g)).Some?
    ensures var s' := Step(max, s, Reserve(t, g)).value;
            && Inv(max, s') && s'.pcs.Keys == s.pcs.Keys
            && (s'.pcs[t] == Undoing <==> |Live(s)| + |Pending(s)| >= max)
  {
    NoWrap(max, s, t);
    var s' := Step(max, s, Reserve(t, g)).value;
    if s.active + 1 > max {
      RefusalKeeps(max, s, s', t);
    } else {
      AdmissionKeeps(max, s, s', g);
    }
  }

  lemma SubtractKeeps(max: nat, s: State, g: GuardId, explicit: bool)
    requires Inv(max, s) && g in s.guards && s.guards[g] == Held
    ensures Inv(max, Subtract(s, g, explicit))
  {
    var s' := Subtract(s, g, explicit);
    LiveMeansActive(max, s, g);
    LiveAfter(s, s', g, Subtracting(explicit, false));
    assert Pending(s') == Pending(s);
  }

  lemma UndoKeeps(max: nat, s: State, t: Tid)
    requires Inv(max, s) && t in s.pcs && s.pcs[t] == Undoing
    ensures Inv(max, Step(max, s, Undo(t)).value)
  {
    var s' := Step(max, s, Undo(t)).value;
    assert t in Pending(s);
    PendingAfter(s, s', t, Idle);
    assert Live(s') == Live(s);
  }

  lemma PassingKeeps(max: nat, s: State, s': State, g: GuardId, to: Guard)
    requires Inv(max, s) && g in s.guards && s.guards[g] != Held
    requires to == Flagged || to == Gone
    requires s' == s.(guards := s.guards[g := to])
    ensures Inv(max, s')
  {
    LiveAfter(s, s', g, to);
    assert g !in Live(s);
    assert Live(s) - {g} == Live(s);
    assert Pending(s') == Pending(s);
  }

  lemma ResetNeverRuns(max: nat, s: State, g: GuardId)
    requires Inv(max, s)
    ensures Step(max, s, Reset(g)).None?
  {
    if g in s.guards {
      assert GuardOk(s.guards[g], s.subtractions[g]);
    }
  }

  lemma OtherStepKeeps(max: nat, s: State, l: Label)
    requires Inv(max, s) && !l.Reserve? && !l.Reset? && Step(max, s, l).Some?
    ensures Inv(max, Step(max, s, l).value) && Step(max, s, l).value.pcs.Keys == s.pcs.Keys
  {
    var s' := Step(max, s, l).value;
    if l.Undo? {
      UndoKeeps(max, s, l.t);
    } else if s.guards[l.g] == Held {
      SubtractKeeps(max, s, l.g, l.Release?);
    } else {
      PassingKeeps(max, s, s', l.g, s'.guards[l.g]);
    }
  }

  lemma {:induction false} RunKeeps(max: nat, s: State, labels: seq<Label>)
    requires Inv(max, s) && Fits(max, s.pcs.Keys) && Run(max, s, labels).Some?
    ensures Inv(max, Run(max, s, labels).value) && Run(max, s, labels).value.pcs.Keys == s.pcs.Keys
    ensures forall i | 0 <= i < |labels| :: !labels[i].Reset?
    decreases |labels|
  {
    if labels != [] {
      var l := labels[0];
      if l.Reset? {
        ResetNeverRuns(max, s, l.g);
      } else {
        if l.Reserve? {
          ReserveKeeps(max, s, l.t, l.g);
        } else {
          OtherStepKeeps(max, s, l);
        }
        RunKeeps(max, Step(max, s, l).value, labels[1..]);
      }
    }
  }

  /** Under every interleaving, the counter is the live guards plus the threads that have
      yet to undo; the live guards never exceed the limit; every guard that is no longer
      live has subtracted exactly once; and the underflow branch never runs. */
  lemma SlotsAreSafe(max: nat, pool: set<Tid>, labels: seq<Label>)
    requires Fits(max, pool) && Run(max, Init(pool), labels).Some?
    ensures var s := Run(max, Init(pool), labels).value;
            && s.active == |Live(s)| + |Pending(s)|
            && |Live(s)| <= max
            && s.guards.Keys == s.subtractions.Keys
            && (forall g <- s.guards :: s.subtractions[g] == (if g in Live(s) then 0 else 1))
    ensures forall i | 0 <= i < |labels| :: !labels[i].Reset?
  {
    InitIsSafe(max, pool);
    RunKeeps(max, Init(pool), labels);
  }

  lemma InitIsSafe(max: nat, pool: set<Tid>)
    ensures Inv(max, Init(pool)) && Init(pool).pcs.Keys == pool
  {
    assert Live(Init(pool)) == {} && Pending(Init(pool)) == {};
  }

  /** A reservation is refused exactly when the live guards together with the refusals in
      progress reach the limit: always at capacity, and sometimes below it. */
  lemma RefusedExactlyWhen(max: nat, pool: set<Tid>, labels: seq<Label>, t: Tid, g: GuardId)
    requires Fits(max, pool) && Run(max, Init(pool), labels).Some?
    requires Step(max, Run(max, Init(pool), labels).value, Reserve(t, g)).Some?
    ensures var s := Run(max, Init(pool), labels).value;
            var s' := Step(max, s, Reserve(t, g)).value;
            && (s'.pcs[t] == Undoing <==> |Live(s)| + |Pending(s)| >= max)
            && (g in Live(s') <==> |Live(s)| + |Pending(s)| < max)
  {
    InitIsSafe(max, pool);
    RunKeeps(max, Init(pool), labels);
    ReserveKeeps(max, Run(max, Init(pool), labels).value, t, g);
    var s := Run(max, Init(pool), labels).value;
    assert g !in s.guards;
  }

  /** A refusal in progress makes the next reservation fail although the only slot is free. */
  lemma RefusedBelowCapacity()
    ensures var r := Run(1, Init({0, 1, 2}), [Reserve(0, 10), Reserve(1, 11), Drop(10), Reserve(2, 12)]);
            r.Some? && Live(r.value) == {} && r.value.pcs[2] == Undoing
  {
    var s0 := Init({0, 1, 2});
    var s1 := Step(1, s0, Reserve(0, 10)).value;
    var s2 := Step(1, s1, Reserve(1, 11)).value;
    var s3 := Step(1, s2, Drop(10)).value;
    var s4 := Step(1, s3, Reserve(2, 12)).value;
    var labels := [Reserve(0, 10), Reserve(1, 11), Drop(10), Reserve(2, 12)];
    assert labels[1..] == [Reserve(1, 11), Drop(10), Reserve(2, 12)];
    assert labels[1..][1..] == [Drop(10), Reserve(2, 12)];
    assert labels[1..][1..][1..] == [Reserve(2, 12)];
    assert Run(1, s4, []) == Some(s4);
    assert Run(1, s3, [Reserve(2, 12)]) == Some(s4) by {
      assert [Reserve(2, 12)][1..] == [];
    }
  }

  // ---- The objects, used by one thread ----

  /** The counter after one release on its own. */
  function Freed(active: Usize): Usize { if active == 0 then 0 else active - 1 }

  /** The counter and limit of one tenant. */
  class Supervisor {
    const max: nat
    var active: Usize

    constructor (max: nat)
      ensures this.max == max && active == 0
    {
      this.max := max;
      active := 0;
    }

    /** `current` is the number of sessions that a refusal reports. */
    method ReserveSession() returns (reserved: bool, current: nat)
      modifies this
      ensures reserved <==> Inc(old(active)) <= max
      ensures old(active) < U64_SIZE - 1 ==> (reserved <==> old(active) < max)
      ensures old(active) < U64_SIZE - 1 && reserved ==> active == old(active) + 1
      ensures active == if reserved then Inc(old(active)) else old(active)
      ensures !reserved ==> current == old(active)
    {
      active := Inc(active);
      if active > max {
        current := active - 1;
        active := Dec(active);
        return false, current;
      }
      return true, active;
    }

    method ReleaseSession()
      modifies this
      ensures active == Freed(old(active)) == if old(active) == 0 then 0 else old(active) - 1
    {
      var previous := active;
      active := Dec(active);
      if previous == 0 {
        active := 0;
      }
    }
  }

  class SessionGuard {
    const supervisor: Supervisor
    var released: bool

    constructor (supervisor: Supervisor)
      ensures this.supervisor == supervisor && !released
    {
      this.supervisor := supervisor;
      released := false;
    }

    /** The explicit release consumes the guard, so the drop follows it; the slot is still
        given back only once. */
    method Release()
      modifies this, supervisor
      ensures released && supervisor.active == Freed(old(supervisor.active))
    {
      supervisor.ReleaseSession();
      released := true;
      OnDrop();
    }

    method OnDrop()
      modifies supervisor
      ensures supervisor.active == if released then old(supervisor.active) else Freed(old(supervisor.active))
    {
      if !released {
        supervisor.ReleaseSession();
      }
    }
  }
}
