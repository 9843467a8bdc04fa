/** The sliding-window meter, which keeps a pruned and capped list of entries, against the
    log of everything ever recorded; and the tool call limit that is built on it. */
module Meter {
  import opened Sequences
  import opened Words

  const MAX_ENTRIES: nat := 10_000

  type Time = nat

  datatype Entry = Entry(at: Time, value: nat)

  predicate Recent(e: Entry, now: Time, window: nat) { (if now < e.at then 0 else now - e.at) < window }

  /** The entries inside the window. */
  function Retained(es: seq<Entry>, now: Time, window: nat): seq<Entry> {
    if es == [] then []
    else Retained(es[..|es| - 1], now, window) + (if Recent(es[|es| - 1], now, window) then [es[|es| - 1]] else [])
  }

  function Total(es: seq<Entry>): nat {
    if es == [] then 0 else Total(es[..|es| - 1]) + es[|es| - 1].value
  }

  function Capped(es: seq<Entry>): seq<Entry> { if |es| > MAX_ENTRIES then es[|es| / 2..] else es }

  function AfterRecord(es: seq<Entry>, now: Time, value: nat, window: nat): seq<Entry> {
    Capped(Retained(es, now, window) + [Entry(now, value)])
  }

  class SlidingWindowMeter {
    const window: nat
    var entries: seq<Entry>

    constructor (window: nat)
      ensures this.window == window && entries == []
    {
      this.window := window;
      entries := [];
    }

    method Record(now: Time, value: nat)
      modifies this
      ensures entries == AfterRecord(old(entries), now, value, window)
    {
      Prune(now);
      entries := entries + [Entry(now, value)];
      if |entries| > MAX_ENTRIES {
        var cutoff := |entries| / 2;
        entries := entries[cutoff..];
      }
    }

    /** The sum in 64-bit wrapping arithmetic. */
    method Sum(now: Time) returns (sum: nat)
      modifies this
      ensures entries == Retained(old(entries), now, window) && sum == Total(entries) % U64_SIZE
    {
      Prune(now);
      sum := 0;
      for i := 0 to |entries|
        invariant sum == Total(entries[..i]) % U64_SIZE
      {
        assert entries[..i + 1][..i] == entries[..i];
        sum := (sum + entries[i].value) % U64_SIZE;
      }
      assert entries[..|entries|] == entries;
    }

    method Count(now: Time) returns (count: nat)
      modifies this
      ensures entries == Retained(old(entries), now, window) && count == |entries|
    {
      Prune(now);
      count := |entries|;
    }

    method Prune(now: Time)
      modifies this
      ensures entries == Retained(old(entries), now, window)
    {
      var kept := [];
      for i := 0 to |entries|
        invariant kept == Retained(entries[..i], now, window) && entries == old(entries)
      {
        assert entries[..i + 1][..i] == entries[..i];
        if Recent(entries[i], now, window) {
          kept := kept + [entries[i]];
        }
      }
      assert entries[..|entries|] == entries;
      entries := kept;
    }
  }

  // ---- The meter and the full log over a run ----

  datatype Op = Record(now: Time, value: nat) | Read(now: Time)

  /** `entries` is what the meter holds, `log` everything recorded, `dropped` how much of the
      log lies before the end of the last truncation. */
  datatype History = History(entries: seq<Entry>, log: seq<Entry>, dropped: nat, clock: Time)

  const START := History([], [], 0, 0)

  /** How much of the log lies before what the meter holds. */
  function Before(entries: seq<Entry>, log: seq<Entry>): nat {
    if |entries| <= |log| then |log| - |entries| else 0
  }

  function Next(h: History, op: Op, window: nat): History {
    match op
    case Read(now) => h.(entries := Retained(h.entries, now, window), clock := now)
    case Record(now, value) =>
      var entries, log := AfterRecord(h.entries, now, value, window), h.log + [Entry(now, value)];
      var truncated := |Retained(h.entries, now, window)| + 1 > MAX_ENTRIES;
      History(entries, log, if truncated then Before(entries, log) else h.dropped, now)
  }

  function Run(h: History, ops: seq<Op>, window: nat): History
    decreases |ops|
  {
    if ops == [] then h else Run(Next(h, ops[0], window), ops[1..], window)
  }

  /** The clock never goes back. */
  predicate Forward(clock: Time, ops: seq<Op>)
    decreases |ops|
  {
    ops == [] || (clock <= ops[0].now && Forward(ops[0].now, ops[1..]))
  }

  predicate Ordered(es: seq<Entry>, clock: Time) {
    && (forall i, j | 0 <= i < j < |es| :: es[i].at <= es[j].at)
    && (forall i | 0 <= i < |es| :: es[i].at <= clock)
  }

  /** How many entries of an ordered log have left the window. */
  function Expired(es: seq<Entry>, now: Time, window: nat): (n: nat)
    ensures n <= |es|
  {
    if es == [] then 0
    else if !Recent(es[|es| - 1], now, window) then |es|
    else Expired(es[..|es| - 1], now, window)
  }

  function Max(a: nat, b: nat): nat { if a < b then b else a }

  lemma {:induction false} ExpiredIsBoundary(es: seq<Entry>, now: Time, window: nat, clock: Time)
    requires Ordered(es, clock) && clock <= now
    ensures forall i | 0 <= i < |es| :: Recent(es[i], now, window) <==> i >= Expired(es, now, window)
  {
    if es != [] && Recent(es[|es| - 1], now, window) {
      ExpiredIsBoundary(es[..|es| - 1], now, window, clock);
    }
  }

  lemma {:induction false} RetainedIsSuffix(es: seq<Entry>, now: Time, window: nat, n: nat)
    requires n <= |es| && forall i | 0 <= i < |es| :: Recent(es[i], now, window) <==> i >= n
    ensures Retained(es, now, window) == es[n..]
  {
    if es != [] {
      var front := es[..|es| - 1];
      assert forall i | 0 <= i < |front| :: front[i] == es[i];
      if n == |es| {
        RetainedIsSuffix(front, now, window, n - 1);
      } else {
        RetainedIsSuffix(front, now, window, n);
        assert es[n..] == front[n..] + [es[|es| - 1]];
      }
    }
  }

  /** The meter holds the end of the log, from somewhere between the last truncation and the
      edge of the window. */
  ghost predicate Represents(h: History, window: nat) {
    && Ordered(h.log, h.clock)
    && |h.entries| <= MAX_ENTRIES
    && |h.entries| <= |h.log| && h.entries == h.log[Before(h.entries, h.log)..]
    && h.dropped <= Before(h.entries, h.log) <= Max(h.dropped, Expired(h.log, h.clock, window))
  }

  lemma ExpiredGrows(es: seq<Entry>, clock: Time, now: Time, later: Time, window: nat)
    requires Ordered(es, clock) && clock <= now <= later
    ensures Expired(es, now, window) <= Expired(es, later, window)
  {
    ExpiredIsBoundary(es, now, window, clock);
    ExpiredIsBoundary(es, later, window, clock);
    var k := Expired(es, later, window);
    if k < |es| {
      assert Recent(es[k], later, window);
      assert Recent(es[k], now, window);
    }
  }

  /** Pruning the end of an ordered log leaves the part from the edge of the window on. */
  lemma RetainedEnd(log: seq<Entry>, start: nat, clock: Time, now: Time, window: nat)
    requires Ordered(log, clock) && clock <= now && start <= |log|
    ensures Retained(log[start..], now, window) == log[Max(start, Expired(log, now, window))..]
  {
    var edge := Expired(log, now, window);
    ExpiredIsBoundary(log, now, window, clock);
    var n := if edge <= start then 0 else edge - start;
    RetainedIsSuffix(log[start..], now, window, n);
    DropDrop(log, start, n);
  }

  /** Pruning at any later time leaves exactly the log from the later of the two marks on. */
  lemma PrunedEntries(h: History, now: Time, window: nat)
    requires Represents(h, window) && h.clock <= now
    ensures h.dropped <= |h.log|
    ensures Retained(h.entries, now, window) == h.log[Max(h.dropped, Expired(h.log, now, window))..]
  {
    PrunedEnd(h.log, Before(h.entries, h.log), h.dropped, h.clock, now, window);
  }

  lemma PrunedEnd(log: seq<Entry>, start: nat, dropped: nat, clock: Time, now: Time, window: nat)
    requires Ordered(log, clock) && clock <= now && start <= |log|
    requires dropped <= start <= Max(dropped, Expired(log, clock, window))
    ensures Retained(log[start..], now, window) == log[Max(dropped, Expired(log, now, window))..]
  {
    ExpiredGrows(log, clock, clock, now, window);
    assert Max(start, Expired(log, now, window)) == Max(dropped, Expired(log, now, window));
    RetainedEnd(log, start, clock, now, window);
  }

  lemma RetainedWhole(log: seq<Entry>, clock: Time, now: Time, window: nat)
    requires Ordered(log, clock) && clock <= now
    ensures Retained(log, now, window) == log[Expired(log, now, window)..]
  {
    ExpiredIsBoundary(log, now, window, clock);
    RetainedIsSuffix(log, now, window, Expired(log, now, window));
  }

  lemma ExpiredSnoc(es: seq<Entry>, e: Entry, now: Time, window: nat)
    ensures Expired(es, now, window) <= Expired(es + [e], now, window)
  {
    assert (es + [e])[..|es|] == es;
  }

  lemma OrderedSnoc(es: seq<Entry>, clock: Time, e: Entry)
    requires Ordered(es, clock) && clock <= e.at
    ensures Ordered(es + [e], e.at)
  {}

  lemma EndRepresents(h: History, window: nat, start: nat)
    requires Ordered(h.log, h.clock) && |h.entries| <= MAX_ENTRIES
    requires start <= |h.log| && h.entries == h.log[start..]
    requires h.dropped <= start <= Max(h.dropped, Expired(h.log, h.clock, window))
    ensures Represents(h, window)
  {
    assert Before(h.entries, h.log) == start;
  }

  lemma Pushed(log: seq<Entry>, clock: Time, e: Entry, window: nat, start: nat)
    requires Ordered(log, clock) && clock <= e.at && start <= |log|
    ensures log[start..] + [e] == (log + [e])[start..]
    ensures Ordered(log + [e], e.at) && Expired(log, e.at, window) <= Expired(log + [e], e.at, window)
  {
    OrderedSnoc(log, clock, e);
    ExpiredSnoc(log, e, e.at, window);
  }

  /** The two ways a record can end, given the list with the new entry pushed. */
  lemma RecordEnds(pushed: seq<Entry>, log: seq<Entry>, clock: Time, dropped: nat, window: nat, start: nat)
    requires Ordered(log, clock) && start <= |log| && pushed == log[start..] && |pushed| <= MAX_ENTRIES + 1
    requires dropped <= start <= Max(dropped, Expired(log, clock, window))
    ensures var entries := Capped(pushed);
            var mark := if |pushed| > MAX_ENTRIES then Before(entries, log) else dropped;
            Represents(History(entries, log, mark, clock), window) && dropped <= mark
  {
    var entries := Capped(pushed);
    if |pushed| > MAX_ENTRIES {
      var cut := |pushed| / 2;
      DropDrop(log, start, cut);
      EndRepresents(History(entries, log, start + cut, clock), window, start + cut);
    } else {
      EndRepresents(History(entries, log, dropped, clock), window, start);
    }
  }

  /** One record, given what pruning leaves before it. */
  lemma RecordRepresents(h: History, now: Time, value: nat, window: nat, start: nat)
    requires Represents(h, window) && h.clock <= now && start <= |h.log|
    requires Retained(h.entries, now, window) == h.log[start..]
    requires h.dropped <= start <= Max(h.dropped, Expired(h.log, now, window))
    ensures Represents(Next(h, Record(now, value), window), window)
    ensures h.dropped <= Next(h, Record(now, value), window).dropped
  {
    var e := Entry(now, value);
    Pushed(h.log, h.clock, e, window, start);
    RetainedShorter(h.entries, now, window);
    RecordEnds(h.log[start..] + [e], h.log + [e], now, h.dropped, window, start);
  }

  lemma NextRepresents(h: History, op: Op, window: nat)
    requires Represents(h, window) && h.clock <= op.now
    ensures Represents(Next(h, op, window), window)
    ensures h.dropped <= Next(h, op, window).dropped
  {
    PrunedEntries(h, op.now, window);
    var start := Max(h.dropped, Expired(h.log, op.now, window));
    match op {
      case Record(now, value) => RecordRepresents(h, now, value, window, start);
      case Read(now) => RetainedShorter(h.entries, now, window);
    }
  }

  lemma {:induction false} RetainedShorter(es: seq<Entry>, now: Time, window: nat)
    ensures |Retained(es, now, window)| <= |es|
  {
    if es != [] {
      RetainedShorter(es[..|es| - 1], now, window);
    }
  }

  lemma {:induction false} RunRepresents(h: History, ops: seq<Op>, window: nat)
    requires Represents(h, window) && Forward(h.clock, ops)
    ensures Represents(Run(h, ops, window), window) && h.dropped <= Run(h, ops, window).dropped
    decreases |ops|
  {
    if ops != [] {
      NextRepresents(h, ops[0], window);
      RunRepresents(Next(h, ops[0], window), ops[1..], window);
    }
  }

  lemma {:induction false} TotalSplits(es: seq<Entry>, n: nat)
    requires n <= |es|
    ensures Total(es) == Total(es[..n]) + Total(es[n..])
    decreases |es|
  {
    if n == |es| {
      assert es[..n] == es;
    } else {
      var m := |es| - 1;
      TotalSplits(es[..m], n);
      assert es[..m][..n] == es[..n] && es[n..][..m - n] == es[..m][n..];
    }
  }

  /** What a reading counts, against what the window really holds: an end part of it, never
      more than the cap; all of it exactly when the dropped part of the log has left the
      window; and short of its total by exactly the dropped entries still inside. */
  ghost predicate Accurate(h: History, now: Time, window: nat) {
    var counted, held := Retained(h.entries, now, window), Retained(h.log, now, window);
    var edge := Expired(h.log, now, window);
    && |counted| <= MAX_ENTRIES
    && |counted| <= |held| && counted == held[|held| - |counted|..]
    && h.dropped <= |h.log|
    && (counted == held <==> h.dropped <= edge)
    && Total(held) == Total(counted) + (if h.dropped <= edge then 0 else Total(h.log[edge..h.dropped]))
  }

  lemma Shortfall(log: seq<Entry>, edge: nat, dropped: nat)
    requires edge < dropped <= |log|
    ensures Total(log[edge..]) == Total(log[dropped..]) + Total(log[edge..dropped])
  {
    DropDrop(log, edge, dropped - edge);
    DropTake(log, edge, dropped - edge);
    TotalSplits(log[edge..], dropped - edge);
  }

  lemma EndsCompared(log: seq<Entry>, dropped: nat, edge: nat, counted: seq<Entry>, held: seq<Entry>)
    requires dropped <= |log| && edge <= |log|
    requires counted == log[Max(dropped, edge)..] && held == log[edge..]
    ensures |counted| <= |held| && counted == held[|held| - |counted|..]
    ensures counted == held <==> dropped <= edge
    ensures Total(held) == Total(counted) + (if dropped <= edge then 0 else Total(log[edge..dropped]))
  {
    if edge < dropped {
      DropDrop(log, edge, dropped - edge);
      Shortfall(log, edge, dropped);
      assert |held| - |counted| == dropped - edge;
    }
  }

  lemma RepresentedIsAccurate(h: History, now: Time, window: nat)
    requires Represents(h, window) && h.clock <= now
    ensures Accurate(h, now, window)
  {
    PrunedEntries(h, now, window);
    RetainedWhole(h.log, h.clock, now, window);
    RetainedShorter(h.entries, now, window);
    EndsCompared(h.log, h.dropped, Expired(h.log, now, window),
                 Retained(h.entries, now, window), Retained(h.log, now, window));
  }

  /** Over every run with a forward clock the next reading is accurate. */
  lemma MeterRefinesLog(ops: seq<Op>, now: Time, window: nat)
    requires Forward(0, ops) && Run(START, ops, window).clock <= now
    ensures Accurate(Run(START, ops, window), now, window)
  {
    RunRepresents(START, ops, window);
    RepresentedIsAccurate(Run(START, ops, window), now, window);
  }

  function RecordsOf(ops: seq<Op>): seq<Entry>
    decreases |ops|
  {
    if ops == [] then []
    else (if ops[0].Record? then [Entry(ops[0].now, ops[0].value)] else []) + RecordsOf(ops[1..])
  }

  lemma {:induction false} LogIsRecords(h: History, ops: seq<Op>, window: nat)
    ensures Run(h, ops, window).log == h.log + RecordsOf(ops)
    decreases |ops|
  {
    if ops != [] {
      LogIsRecords(Next(h, ops[0], window), ops[1..], window);
    }
  }

  /** In plain numbers: on every run with a forward clock, a reading at `now` counts an entry of
      the log of all records if and only if it is not among those truncated and less than the
      window old. */
  lemma ReadingCounts(ops: seq<Op>, now: Time, window: nat) returns (n: nat)
    requires Forward(0, ops) && Run(START, ops, window).clock <= now
    ensures var h := Run(START, ops, window);
            && h.log == RecordsOf(ops) && h.dropped <= |h.log| && n <= |h.log|
            && Next(h, Read(now), window).entries == h.log[n..]
            && forall i | 0 <= i < |h.log| :: i >= n <==> i >= h.dropped && now - h.log[i].at < window
  {
    StartRepresents(window);
    n := CountedAfter(START, ops, now, window);
  }

  lemma StartRepresents(window: nat)
    ensures Represents(START, window) && START.log == [] && START.clock == 0
  {}

  lemma CountedAfter(h: History, ops: seq<Op>, now: Time, window: nat) returns (n: nat)
    requires Represents(h, window) && h.log == [] && Forward(h.clock, ops) && Run(h, ops, window).clock <= now
    ensures var r := Run(h, ops, window);
            && r.log == RecordsOf(ops) && r.dropped <= |r.log| && n <= |r.log|
            && Next(r, Read(now), window).entries == r.log[n..]
            && forall i | 0 <= i < |r.log| :: i >= n <==> i >= r.dropped && now - r.log[i].at < window
  {
    LogIsRecords(h, ops, window);
    assert h.log + RecordsOf(ops) == RecordsOf(ops);
    RunRepresents(h, ops, window);
    n := CountedFrom(Run(h, ops, window), now, window);
  }

  lemma CountedFrom(h: History, now: Time, window: nat) returns (n: nat)
    requires Represents(h, window) && h.clock <= now
    ensures h.dropped <= n <= |h.log| && Retained(h.entries, now, window) == h.log[n..]
    ensures forall i | 0 <= i < |h.log| :: i >= n <==> i >= h.dropped && now - h.log[i].at < window
  {
    PrunedEntries(h, now, window);
    ExpiredIsBoundary(h.log, now, window, h.clock);
    n := Max(h.dropped, Expired(h.log, now, window));
  }

  /** A record truncates if and only if it makes 10,001 entries, and then leaves the last 5,001. */
  lemma RecordTruncates(h: History, now: Time, value: nat, window: nat) returns (n: nat)
    requires Represents(h, window) && h.clock <= now
    ensures h.dropped <= n <= |h.log| && forall i | 0 <= i < |h.log| :: i >= n <==> i >= h.dropped && now - h.log[i].at < window
    ensures var h' := Next(h, Record(now, value), window);
            && h'.log == h.log + [Entry(now, value)]
            && h'.dropped == if |h.log| - n >= 10_000 then |h.log| - 5_000 else h.dropped
    ensures |h.log| - n <= 10_000
  {
    n := CountedFrom(h, now, window);
    RetainedShorter(h.entries, now, window);
  }

  /** The total of a list is 0 for none, and each entry adds its value. */
  lemma TotalAdds(es: seq<Entry>, e: Entry)
    ensures Total([]) == 0 && Total(es + [e]) == Total(es) + e.value
  {
    assert (es + [e])[..|es|] == es;
  }

  /** Once exact, the meter stays exact until the next truncation. */
  lemma ExactStaysExact(h: History, now: Time, later: Time, window: nat)
    requires Represents(h, window) && h.clock <= now <= later
    requires Retained(h.entries, now, window) == Retained(h.log, now, window)
    ensures Retained(h.entries, later, window) == Retained(h.log, later, window)
  {
    PrunedEntries(h, now, window);
    PrunedEntries(h, later, window);
    RetainedWhole(h.log, h.clock, now, window);
    RetainedWhole(h.log, h.clock, later, window);
    ExpiredGrows(h.log, h.clock, now, later, window);
    assert Max(h.dropped, Expired(h.log, now, window)) == Expired(h.log, now, window);
  }
}
