/** The per-provider circuit breaker: its fields, its three operations run without
    interference, and the class that updates them in place. The interleaved protocol
    is in module BreakerProtocol, which shares the functions of this module. */
module CircuitBreaker {
  import opened Words

  const NANOS_PER_MILLI: nat := 1_000_000
  const HOUR: nat := 3_600_000_000_000

  type U32 = x: int | 0 <= x < 0x1_0000_0000

  datatype Mode = Closed | Open | HalfOpen

  /** Durations and clock readings are in nanoseconds. */
  datatype Config = Config(failureThreshold: U32, openDuration: nat, halfOpenMax: U32)

  /** `lastMillis` is the wall clock of the last failure in whole milliseconds, 0 for none. */
  datatype Core = Core(mode: Mode, failures: U32, probes: U32, lastMillis: nat)

  datatype Verdict = Allowed | Refused(remaining: nat)

  function Inc(x: U32): U32 { if x == U32_SIZE - 1 then 0 else x + 1 }

  function Dec(x: U32): U32 { if x == 0 then U32_SIZE - 1 else x - 1 }

  function Fresh(): Core { Core(Closed, 0, 0, 0) }

  /** The age the breaker assigns to its last failure: an hour when there is none, and
      an hour again when the clock has gone back behind it. */
  function SinceFailure(lastMillis: nat, now: nat): nat {
    if lastMillis == 0 || now < lastMillis * NANOS_PER_MILLI then HOUR
    else now - lastMillis * NANOS_PER_MILLI
  }

  predicate Expired(c: Config, core: Core, now: nat) {
    SinceFailure(core.lastMillis, now) >= c.openDuration
  }

  function OnSuccess(core: Core): Core {
    if core.mode == HalfOpen then Core(Closed, 0, 0, core.lastMillis) else core.(failures := 0)
  }

  function OnFailure(c: Config, core: Core, now: nat): Core {
    var failures := Inc(core.failures);
    var millis := now / NANOS_PER_MILLI;
    match core.mode
    case Closed => Core(if failures >= c.failureThreshold then Open else Closed, failures, core.probes, millis)
    case Open => Core(Open, failures, core.probes, millis)
    case HalfOpen => Core(Open, failures, Dec(core.probes), millis)
  }

  /** One whole `check` with nothing in between: the new fields and the answer. */
  function OnCheck(c: Config, core: Core, now: nat): (Core, Verdict) {
    match core.mode
    case Closed => (core, Allowed)
    case HalfOpen => TakeProbe(c, core)
    case Open =>
      if Expired(c, core, now) then TakeProbe(c, core.(mode := HalfOpen, probes := 0))
      else (core, Refused(c.openDuration - SinceFailure(core.lastMillis, now)))
  }

  function TakeProbe(c: Config, core: Core): (Core, Verdict) {
    if core.probes >= c.halfOpenMax then (core, Refused(c.openDuration))
    else (core.(probes := Inc(core.probes)), Allowed)
  }

  predicate ExpiresAfter(c: Config, core: Core, now: nat, wait: nat) { Expired(c, core, now + wait) }

  /** When an unexpired breaker will expire, if no failure is recorded: never without a failure
      on record, and otherwise once the open duration has passed since then, also when the
      clock is now behind it. */
  lemma ExpiresExactlyAfter(c: Config, core: Core, now: nat, wait: nat)
    requires core.mode == Open && !Expired(c, core, now)
    ensures ExpiresAfter(c, core, now, wait)
            <==> core.lastMillis != 0 && now + wait >= core.lastMillis * NANOS_PER_MILLI + c.openDuration
  {}

  /** The wait a refused caller is told is the one after which the breaker expires, and not
      earlier, exactly when there is a failure on record that the clock is not behind. */
  lemma RemainingIsExactWhen(c: Config, core: Core, now: nat)
    requires core.mode == Open && !Expired(c, core, now)
    ensures OnCheck(c, core, now).0 == core && OnCheck(c, core, now).1.Refused?
    ensures (forall wait: nat :: ExpiresAfter(c, core, now, wait) <==> wait >= OnCheck(c, core, now).1.remaining)
            <==> 0 < core.lastMillis * NANOS_PER_MILLI <= now
  {
    var remaining := OnCheck(c, core, now).1.remaining;
    forall wait: nat
      ensures ExpiresAfter(c, core, now, wait)
              <==> core.lastMillis != 0 && now + wait >= core.lastMillis * NANOS_PER_MILLI + c.openDuration
    {
      ExpiresExactlyAfter(c, core, now, wait);
    }
    if !(0 < core.lastMillis * NANOS_PER_MILLI <= now) {
      assert !ExpiresAfter(c, core, now, remaining);
    }
  }

  class Breaker {
    const config: Config
    var mode: Mode
    var failures: U32
    var probes: U32
    var lastMillis: nat

    constructor (config: Config)
      ensures this.config == config && View() == Fresh()
    {
      this.config := config;
      mode, failures, probes, lastMillis := Closed, 0, 0, 0;
    }

    ghost function View(): Core
      reads this
    {
      Core(mode, failures, probes, lastMillis)
    }

    method Check(now: nat) returns (verdict: Verdict)
      modifies this
      ensures (View(), verdict) == OnCheck(config, old(View()), now)
      ensures old(mode) == Closed ==> verdict == Allowed && View() == old(View())
      ensures old(mode) == HalfOpen ==> (verdict == Allowed <==> old(probes) < config.halfOpenMax)
      ensures old(mode) == Open ==>
                var millis := old(lastMillis) * 1_000_000;
                var age := if millis == 0 || now < millis then 3_600_000_000_000 else now - millis;
                if age < config.openDuration then View() == old(View()) && verdict == Refused(config.openDuration - age)
                else mode == HalfOpen && (verdict == Allowed <==> config.halfOpenMax > 0)
    {
      if mode == Closed {
        return Allowed;
      }
      if mode == Open {
        var elapsed := LoadSinceFailure(now);
        if elapsed < config.openDuration {
          return Refused(config.openDuration - elapsed);
        }
        mode := HalfOpen;
        probes := 0;
      }
      var current := probes;
      probes := Inc(probes);
      if current >= config.halfOpenMax {
        probes := Dec(probes);
        return Refused(config.openDuration);
      }
      return Allowed;
    }

    method LoadSinceFailure(now: nat) returns (elapsed: nat)
      ensures elapsed == SinceFailure(lastMillis, now)
    {
      if lastMillis == 0 {
        return HOUR;
      }
      var stored := lastMillis * NANOS_PER_MILLI;
      if now < stored {
        return HOUR;
      }
      return now - stored;
    }

    method RecordSuccess()
      modifies this
      ensures View() == OnSuccess(old(View()))
      ensures failures == 0 && lastMillis == old(lastMillis)
      ensures old(mode) == HalfOpen ==> mode == Closed && probes == 0
      ensures old(mode) != HalfOpen ==> mode == old(mode) && probes == old(probes)
    {
      failures := 0;
      if mode == HalfOpen {
        mode := Closed;
        probes := 0;
      }
    }

    method RecordFailure(now: nat)
      modifies this
      ensures View() == OnFailure(config, old(View()), now)
    {
      failures := Inc(failures);
      lastMillis := now / NANOS_PER_MILLI;
      match mode {
        case Closed =>
          if failures >= config.failureThreshold {
            mode := Open;
          }
        case HalfOpen =>
          mode := Open;
          probes := Dec(probes);
        case Open =>
      }
    }
  }
}
