/** The limit on tool calls per minute, for callers that check and then record. */
module RateLimit {
  import opened Meter

  /** One minute, in milliseconds. */
  const WINDOW: nat := 60_000

  /** The quota check: refused with the number of calls counted once that reaches the limit. */
  method CheckToolCall(meter: SlidingWindowMeter, limit: nat, now: Time) returns (allowed: bool, calls: nat)
    modifies meter
    ensures meter.entries == Retained(old(meter.entries), now, meter.window)
    ensures calls == |meter.entries| && (allowed <==> calls < limit)
  {
    calls := meter.Count(now);
    allowed := !(calls >= limit);
  }

  /** One tool call: the check and, if it allows, the record. */
  method TryToolCall(meter: SlidingWindowMeter, limit: nat, checkAt: Time, recordAt: Time) returns (allowed: bool)
    requires meter.window == WINDOW
    modifies meter
    ensures forall h: History | h.entries == old(meter.entries) ::
              meter.entries == Attempt(h, Call(checkAt, recordAt), limit).entries
    ensures allowed <==> |Retained(old(meter.entries), checkAt, WINDOW)| < limit
  {
    var calls;
    allowed, calls := CheckToolCall(meter, limit, checkAt);
    if allowed {
      meter.Record(recordAt, 1);
    }
  }

  datatype Call = Call(checkAt: Time, recordAt: Time)

  function Attempt(h: History, c: Call, limit: nat): History {
    var checked := Next(h, Read(c.checkAt), WINDOW);
    if |checked.entries| < limit then Next(checked, Record(c.recordAt, 1), WINDOW) else checked
  }

  function Attempts(h: History, calls: seq<Call>, limit: nat): History
    decreases |calls|
  {
    if calls == [] then h else Attempts(Attempt(h, calls[0], limit), calls[1..], limit)
  }

  predicate ForwardCalls(clock: Time, calls: seq<Call>)
    decreases |calls|
  {
    calls == []
    || (clock <= calls[0].checkAt <= calls[0].recordAt && ForwardCalls(calls[0].recordAt, calls[1..]))
  }

  /** No stretch of the log as long as the window holds more than `limit` calls: a call and
      the one `limit` places before it are at least a window apart. */
  predicate Spaced(log: seq<Entry>, limit: nat) {
    forall i | limit <= i < |log| :: log[i].at - log[i - limit].at >= WINDOW
  }

  ghost predicate Exact(h: History, limit: nat) {
    Represents(h, WINDOW) && h.dropped == 0 && Spaced(h.log, limit)
  }

  /** A call made while fewer than `limit` are in the window is a window away from the one
      `limit` places before it. */
  lemma SpacedSnoc(log: seq<Entry>, clock: Time, c: Call, limit: nat)
    requires Ordered(log, clock) && clock <= c.checkAt <= c.recordAt && Spaced(log, limit)
    requires |log| - Expired(log, c.checkAt, WINDOW) < limit
    ensures Spaced(log + [Entry(c.recordAt, 1)], limit)
  {
    ExpiredIsBoundary(log, c.checkAt, WINDOW, clock);
    var n, more := |log|, log + [Entry(c.recordAt, 1)];
    if limit <= n {
      assert !Recent(log[n - limit], c.checkAt, WINDOW);
    }
    forall i | limit <= i < |more|
      ensures more[i].at - more[i - limit].at >= WINDOW
    {}
  }

  lemma AttemptRepresents(h: History, c: Call, limit: nat)
    requires Represents(h, WINDOW) && h.clock <= c.checkAt <= c.recordAt
    ensures Represents(Attempt(h, c, limit), WINDOW) && Attempt(h, c, limit).clock <= c.recordAt
  {
    NextRepresents(h, Read(c.checkAt), WINDOW);
    var checked := Next(h, Read(c.checkAt), WINDOW);
    NextRepresents(checked, Record(c.recordAt, 1), WINDOW);
  }

  lemma AttemptKeeps(h: History, c: Call, limit: nat)
    requires Exact(h, limit) && limit <= MAX_ENTRIES && h.clock <= c.checkAt <= c.recordAt
    ensures Exact(Attempt(h, c, limit), limit) && Attempt(h, c, limit).clock <= c.recordAt
  {
    AttemptRepresents(h, c, limit);
    var checked := Next(h, Read(c.checkAt), WINDOW);
    if |checked.entries| < limit {
      PrunedEntries(h, c.checkAt, WINDOW);
      assert |checked.entries| == |h.log| - Expired(h.log, c.checkAt, WINDOW);
      SpacedSnoc(h.log, h.clock, c, limit);
      RetainedShorter(checked.entries, c.recordAt, WINDOW);
      assert Next(checked, Record(c.recordAt, 1), WINDOW).dropped == 0;
    }
  }

  lemma {:induction false} AttemptsKeep(h: History, calls: seq<Call>, limit: nat)
    requires Exact(h, limit) && limit <= MAX_ENTRIES && ForwardCalls(h.clock, calls)
    ensures Exact(Attempts(h, calls, limit), limit)
    decreases |calls|
  {
    if calls != [] {
      AttemptKeeps(h, calls[0], limit);
      ForwardCallsLater(Attempt(h, calls[0], limit).clock, calls[0].recordAt, calls[1..]);
      AttemptsKeep(Attempt(h, calls[0], limit), calls[1..], limit);
    }
  }

  lemma ForwardCallsLater(clock: Time, later: Time, calls: seq<Call>)
    requires clock <= later && ForwardCalls(later, calls)
    ensures ForwardCalls(clock, calls)
  {}

  lemma {:induction false} AttemptsRepresent(h: History, calls: seq<Call>, limit: nat)
    requires Represents(h, WINDOW) && ForwardCalls(h.clock, calls)
    ensures Represents(Attempts(h, calls, limit), WINDOW)
    decreases |calls|
  {
    if calls != [] {
      AttemptRepresents(h, calls[0], limit);
      ForwardCallsLater(Attempt(h, calls[0], limit).clock, calls[0].recordAt, calls[1..]);
      AttemptsRepresent(Attempt(h, calls[0], limit), calls[1..], limit);
    }
  }

  /** In plain numbers: after any forward calls the next one is refused if and only if the limit
      is full; otherwise it is recorded. */
  lemma RefusedExactlyWhen(calls: seq<Call>, c: Call, limit: nat)
    requires ForwardCalls(0, calls) && Attempts(START, calls, limit).clock <= c.checkAt
    ensures Attempts(START, calls, limit).dropped <= |Attempts(START, calls, limit).log|
    ensures Attempt(Attempts(START, calls, limit), c, limit).log
            == if Full(Attempts(START, calls, limit), c.checkAt, limit) then Attempts(START, calls, limit).log
               else Attempts(START, calls, limit).log + [Entry(c.recordAt, 1)]
  {
    StartRepresents(WINDOW);
    RefusedAfter(START, calls, c, limit);
  }

  lemma RefusedAfter(h: History, calls: seq<Call>, c: Call, limit: nat)
    requires Represents(h, WINDOW) && ForwardCalls(h.clock, calls) && Attempts(h, calls, limit).clock <= c.checkAt
    ensures Attempts(h, calls, limit).dropped <= |Attempts(h, calls, limit).log|
    ensures Attempt(Attempts(h, calls, limit), c, limit).log
            == if Full(Attempts(h, calls, limit), c.checkAt, limit) then Attempts(h, calls, limit).log
               else Attempts(h, calls, limit).log + [Entry(c.recordAt, 1)]
  {
    AttemptsRepresent(h, calls, limit);
    RefusedWhenFull(Attempts(h, calls, limit), c, limit);
  }

  /** The limit is 0, or so many of the last recorded calls are all less than a minute old, none
      of them truncated. */
  predicate Full(h: History, now: Time, limit: nat) {
    limit == 0
    || (limit <= |h.log| && |h.log| - h.dropped >= limit && now - h.log[|h.log| - limit].at < 60_000)
  }

  lemma RefusedWhenFull(h: History, c: Call, limit: nat)
    requires Represents(h, WINDOW) && h.clock <= c.checkAt
    ensures h.dropped <= |h.log|
    ensures Attempt(h, c, limit).log == if Full(h, c.checkAt, limit) then h.log else h.log + [Entry(c.recordAt, 1)]
  {
    var n := CountedFrom(h, c.checkAt, WINDOW);
    var checked := Next(h, Read(c.checkAt), WINDOW);
    assert |checked.entries| == |h.log| - n;
    if 0 < limit <= |h.log| - h.dropped {
      assert |h.log| - limit >= n <==> c.checkAt - h.log[|h.log| - limit].at < WINDOW;
    }
  }

  /** A limit above the cap refuses nothing, whatever has been recorded. */
  lemma NeverRefused(h: History, c: Call, limit: nat)
    requires Represents(h, WINDOW) && h.clock <= c.checkAt && limit > MAX_ENTRIES
    ensures Attempt(h, c, limit).log == h.log + [Entry(c.recordAt, 1)]
  {
    NextRepresents(h, Read(c.checkAt), WINDOW);
  }

  /** A history at time 0 whose meter holds what it should. */
  ghost predicate AtStart(h: History) { Represents(h, WINDOW) && h.clock == 0 }

  lemma BurstCallAllowed(h: History, limit: nat)
    requires AtStart(h) && limit > MAX_ENTRIES
    ensures var r := Attempt(h, Call(0, 0), limit); AtStart(r) && |r.log| == |h.log| + 1
  {
    NeverRefused(h, Call(0, 0), limit);
    AttemptRepresents(h, Call(0, 0), limit);
  }

  /** Calls at time 0. */
  function Burst(n: nat): (calls: seq<Call>)
    ensures |calls| == n
  {
    if n == 0 then [] else [Call(0, 0)] + Burst(n - 1)
  }

  lemma {:induction false} BurstIsForward(n: nat)
    ensures ForwardCalls(0, Burst(n))
  {
    if n > 0 {
      BurstIsForward(n - 1);
      assert Burst(n)[1..] == Burst(n - 1);
    }
  }

  ghost predicate AllAdded(h: History, r: History, n: nat) { AtStart(r) && |r.log| == |h.log| + n }

  /** They are all let through. */
  lemma {:induction false} BurstAllAllowed(h: History, n: nat, limit: nat)
    requires AtStart(h) && limit > MAX_ENTRIES
    ensures AllAdded(h, Attempts(h, Burst(n), limit), n)
    decreases n
  {
    if n > 0 {
      BurstCallAllowed(h, limit);
      BurstAllAllowed(Attempt(h, Call(0, 0), limit), n - 1, limit);
      assert Burst(n)[1..] == Burst(n - 1);
    }
  }

  lemma AllAtOnceIsCrowded(log: seq<Entry>, limit: nat)
    requires Ordered(log, 0) && |log| > limit
    ensures !Spaced(log, limit)
  {
    assert log[limit].at - log[limit - limit].at < WINDOW;
  }

  /** Checking before recording keeps every run within the limit exactly when the limit is
      at most the number of entries the meter can hold. */
  lemma LimitHoldsIffItFits(limit: nat)
    ensures limit <= MAX_ENTRIES <==>
            forall calls: seq<Call> | ForwardCalls(0, calls) :: Spaced(Attempts(START, calls, limit).log, limit)
  {
    if limit <= MAX_ENTRIES {
      forall calls: seq<Call> | ForwardCalls(0, calls)
        ensures Spaced(Attempts(START, calls, limit).log, limit)
      {
        AttemptsKeep(START, calls, limit);
      }
    } else {
      var calls := Burst(limit + 1);
      BurstIsForward(limit + 1);
      BurstAllAllowed(START, limit + 1, limit);
      AllAtOnceIsCrowded(Attempts(START, calls, limit).log, limit);
      assert ForwardCalls(0, calls) && !Spaced(Attempts(START, calls, limit).log, limit);
    }
  }
}
