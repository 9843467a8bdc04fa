/** The circuit breaker shared by a pool of threads, as a system of atomic steps.

    `mode`, the failure count and the failure time are touched only under the lock, so a
    region that holds the lock is one step, except that it may stop between the
    `fetch_add` and the `fetch_sub` of the probe counter. The thread that moves the
    breaker to HalfOpen gives the lock up first and then does both on the bare counter,
    so other threads, and whole later periods, can come in between. */
module BreakerProtocol {
  import opened Wrappers
  import opened Words
  import opened CircuitBreaker

  type Tid = nat

  datatype Pc =
    | Idle
    | WantWrite                 // saw Open under the read lock and let it go
    | Undo(exclusive: bool)     // refused, still holding the read or the write lock
    | Bare                      // moved the breaker to HalfOpen, lock gone, not counted yet
    | BareUndo(born: nat)       // refused without the lock; `born` is the period of its fetch_add

  datatype Outcome = Succeeded | Failed

  /** `period` counts the moves to HalfOpen. `admitted` and `late` count, for the current
      period while it lasts, the probes let through and the decrements by threads whose
      increment belongs to an earlier period. `strays` counts the probes that the bare counter
      lets through when the period is over already, up to the next move to HalfOpen. `log`
      holds all recorded outcomes. */
  datatype State = State(
    core: Core, now: nat, pcs: map<Tid, Pc>,
    period: nat, admitted: nat, late: nat, strays: nat, log: seq<Outcome>, failedAt: nat)

  datatype Label =
    | Tick(nanos: nat)
    | ReadCheck(t: Tid)
    | WriteCheck(t: Tid)
    | BareAdd(t: Tid)
    | Decrement(t: Tid)
    | Success(t: Tid)
    | Failure(t: Tid)

  function Init(pool: set<Tid>, now: nat): State {
    State(Fresh(), now, map t | t in pool :: Idle, 0, 0, 0, 0, [], 0)
  }

  predicate Writable(s: State) { forall t <- s.pcs :: !s.pcs[t].Undo? }

  predicate Readable(s: State) { forall t <- s.pcs :: s.pcs[t] != Undo(true) }

  /** `fetch_add` and the comparison that follows it. */
  function Add(c: Config, s: State, t: Tid, refused: Pc): State {
    if s.core.probes < c.halfOpenMax then
      s.(core := s.core.(probes := Inc(s.core.probes)), pcs := s.pcs[t := Idle],
      admitted := if s.core.mode == HalfOpen then s.admitted + 1 else s.admitted,
      strays := if s.core.mode == HalfOpen then s.strays else s.strays + 1)
    else
      s.(core := s.core.(probes := Inc(s.core.probes)), pcs := s.pcs[t := refused])
  }

  /** The state after the step `l`, or None when `l` is not enabled. */
  function Step(c: Config, s: State, l: Label): Option<State> {
    match l
    case Tick(nanos) => Some(s.(now := s.now + nanos))
    case ReadCheck(t) =>
      if t !in s.pcs || s.pcs[t] != Idle || !Readable(s) then None
      else (match s.core.mode
            case Closed => Some(s)
            case HalfOpen => Some(Add(c, s, t, Undo(false)))
            case Open => Some(s.(pcs := s.pcs[t := WantWrite])))
    case WriteCheck(t) =>
      if t !in s.pcs || s.pcs[t] != WantWrite || !Writable(s) then None
      else (match s.core.mode
            case Closed => Some(s.(pcs := s.pcs[t := Idle]))
            case HalfOpen => Some(Add(c, s, t, Undo(true)))
            case Open =>
              if Expired(c, s.core, s.now) then
                Some(s.(core := s.core.(mode := HalfOpen, probes := 0), pcs := s.pcs[t := Bare],
                     period := s.period + 1, admitted := 0, late := 0, strays := 0))
              else Some(s.(pcs := s.pcs[t := Idle])))
    case BareAdd(t) =>
      if t !in s.pcs || s.pcs[t] != Bare then None else Some(Add(c, s, t, BareUndo(s.period)))
    case Decrement(t) =>
      if t !in s.pcs || !(s.pcs[t].Undo? || s.pcs[t].BareUndo?) then None
      else Some(s.(core := s.core.(probes := Dec(s.core.probes)), pcs := s.pcs[t := Idle],
                late := if s.core.mode == HalfOpen && Stale(s.pcs[t], s.period) then s.late + 1 else s.late))
    case Success(t) =>
      if t !in s.pcs || s.pcs[t] != Idle || !Writable(s) then None
      else Some(s.(core := OnSuccess(s.core), log := s.log + [Succeeded]))
    case Failure(t) =>
      if t !in s.pcs || s.pcs[t] != Idle || !Writable(s) then None
      else Some(s.(core := OnFailure(c, s.core, s.now), log := s.log + [Failed], failedAt := s.now))
  }

  /** What a step tells the caller of `check`, if the call ends with it. */
  function Answer(c: Config, s: State, l: Label): Option<Verdict> {
    match l
    case ReadCheck(_) =>
      (match s.core.mode
       case Closed => Some(Allowed)
       case HalfOpen => if s.core.probes < c.halfOpenMax then Some(Allowed) else None
       case Open => None)
    case WriteCheck(_) =>
      (match s.core.mode
       case Closed => Some(Allowed)
       case HalfOpen => if s.core.probes < c.halfOpenMax then Some(Allowed) else None
       case Open =>
         if Expired(c, s.core, s.now) then None
         else Some(Refused(c.openDuration - SinceFailure(s.core.lastMillis, s.now))))
    case BareAdd(_) => if s.core.probes < c.halfOpenMax then Some(Allowed) else None
    case Decrement(_) => Some(Refused(c.openDuration))
    case _ => None
  }

  predicate Stale(pc: Pc, period: nat) { pc.BareUndo? && pc.born < period }

  function Run(c: Config, s: State, labels: seq<Label>): Option<State>
    decreases |labels|
  {
    if labels == [] then Some(s)
    else match Step(c, s, labels[0])
      case None => None
      case Some(s') => Run(c, s', labels[1..])
  }

  /** The length of the run of failures that ends the log. */
  function Trailing(log: seq<Outcome>): nat {
    if log == [] || log[|log| - 1] == Succeeded then 0 else 1 + Trailing(log[..|log| - 1])
  }

  /** The same length, counted in 32 bits. */
  function CountedRun(log: seq<Outcome>): U32 {
    if log == [] || log[|log| - 1] == Succeeded then 0 else Inc(CountedRun(log[..|log| - 1]))
  }

  predicate Refusing(pc: Pc, period: nat) { pc.Undo? || (pc.BareUndo? && pc.born >= period) }

  /** The threads of this period that were refused and have not taken their increment back. */
  function Pending(s: State): set<Tid> { set t | t in s.pcs && Refusing(s.pcs[t], s.period) }

  /** No counter value is reached twice within a period: the pool and the limit fit in a word. */
  predicate Fits(c: Config, pool: set<Tid>) { c.halfOpenMax == 0 || |pool| + c.halfOpenMax <= U32_SIZE }
}
