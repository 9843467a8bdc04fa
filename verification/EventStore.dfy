/** The two ways of storing events and of asking which instances have a status: in memory,
    by folding every stream, and in SQL, by an index that `append` keeps. */
module EventStore {
  import opened Wrappers
  import opened Sequences
  import opened Workflow
  import opened Instance
  import opened Glance

  function StatusName(s: Status): string {
    match s
    case Pending => "pending"
    case Running => "running"
    case WaitingForSignal(_) => "waiting_for_signal"
    case Sleeping(_) => "sleeping"
    case Completed => "completed"
    case Failed => "failed"
  }

  predicate SameKind(a: Status, b: Status) {
    match a
    case Pending => b.Pending?
    case Running => b.Running?
    case WaitingForSignal(_) => b.WaitingForSignal?
    case Sleeping(_) => b.Sleeping?
    case Completed => b.Completed?
    case Failed => b.Failed?
  }

  /** The two stores compare statuses differently, and equivalently. */
  lemma NamesTellKindsApart(a: Status, b: Status)
    ensures SameKind(a, b) <==> StatusName(a) == StatusName(b)
  {
    var names := ["pending", "running", "waiting_for_signal", "sleeping", "completed", "failed"];
    assert forall i | 0 <= i < 6 :: |names[i]| > 0;
    assert names[0][0] == 'p' && names[1][0] == 'r' && names[2][0] == 'w' && names[3][0] == 's'
        && names[4][0] == 'c' && names[5][0] == 'f';
  }

  function Stamped(events: seq<Event>, clock: nat -> Time): (r: seq<Reading>)
    ensures |r| == |events|
  {
    seq(|events|, i requires 0 <= i < |events| => Reading(events[i], clock(i)))
  }

  /** The state of an instance, read at time 0 throughout. */
  function StateOf(id: string, events: seq<Event>): Option<State> {
    Fold(Blank(id), Stamped(events, _ => 0))
  }

  // ---- In memory ----

  class MemoryEventStore {
    var streams: map<string, seq<Event>>

    constructor ()
      ensures streams == map[]
    {
      streams := map[];
    }

    method Append(id: string, e: Event)
      modifies this
      ensures streams == StreamsAfter(old(streams), id, e)
    {
      if id !in streams {
        streams := streams[id := []];
      }
      streams := streams[id := streams[id] + [e]];
    }

    method ReadStream(id: string) returns (events: seq<Event>)
      ensures events == if id in streams then streams[id] else []
    {
      events := [];
      if id in streams {
        events := streams[id];
      }
    }

    /** Folds every stream; `clock` gives the times read while doing so. */
    method ListByStatus(status: Status, clock: nat -> Time) returns (r: Option<set<string>>)
      ensures r == ListFolded(streams, status)
    {
      var found := {};
      var todo := streams.Keys;
      while todo != {}
        invariant todo <= streams.Keys
        invariant forall id <- streams.Keys - todo :: StateOf(id, streams[id]).Some?
        invariant forall id :: id in found <==> id !in todo && Listed(streams, id, status)
        decreases |todo|
      {
        var id :| id in todo;
        todo := todo - {id};
        var now := FoldedStatus(id, streams[id], clock);
        if now.None? {
          return None;
        }
        if SameKind(now.value, status) {
          found := found + {id};
        }
      }
      assert found == set id | id in streams && Listed(streams, id, status);
      return Some(found);
    }
  }

  /** The status a blank instance folds to, or None when the fold panics. */
  method FoldedStatus(id: string, events: seq<Event>, clock: nat -> Time) returns (r: Option<Status>)
    ensures r == match StateOf(id, events) case None => None case Some(s) => Some(s.status)
  {
    var state := new InstanceState(id);
    StatusIgnoresClock(id, events, clock);
    for i := 0 to |events|
      invariant fresh(state)
      invariant Fold(Blank(id), Stamped(events[..i], clock)) == Some(state.View())
    {
      StampedPrefix(events, clock, i);
      FoldSnoc(Blank(id), Stamped(events[..i], clock), Reading(events[i], clock(i)));
      var panicked := state.Apply(events[i], clock(i));
      if panicked {
        assert Stamped(events, clock) == Stamped(events[..i + 1], clock) + Stamped(events, clock)[i + 1..];
        FoldAppend(Blank(id), Stamped(events[..i + 1], clock), Stamped(events, clock)[i + 1..]);
        return None;
      }
    }
    assert events[..|events|] == events;
    return Some(state.status);
  }

  function StreamsAfter(streams: map<string, seq<Event>>, id: string, e: Event): map<string, seq<Event>> {
    streams[id := (if id in streams then streams[id] else []) + [e]]
  }

  predicate AllFold(streams: map<string, seq<Event>>) {
    forall id <- streams :: StateOf(id, streams[id]).Some?
  }

  predicate Listed(streams: map<string, seq<Event>>, id: string, status: Status) {
    && id in streams
    && StateOf(id, streams[id]).Some?
    && SameKind(StateOf(id, streams[id]).value.status, status)
  }

  /** The instances whose folded status is of the kind asked for, or None where some fold panics. */
  function ListFolded(streams: map<string, seq<Event>>, status: Status): Option<set<string>> {
    if AllFold(streams) then Some(set id | id in streams && Listed(streams, id, status)) else None
  }

  lemma StampedPrefix(events: seq<Event>, clock: nat -> Time, i: nat)
    requires i < |events|
    ensures Stamped(events[..i + 1], clock) == Stamped(events[..i], clock) + [Reading(events[i], clock(i))]
  {}

  lemma StatusIgnoresClock(id: string, events: seq<Event>, clock: nat -> Time)
    ensures var r := Fold(Blank(id), Stamped(events, clock));
            (r.Some? <==> StateOf(id, events).Some?)
            && (r.Some? ==> r.value.status == StateOf(id, events).value.status)
  {
    ReplayAtAnyTime(Blank(id), Stamped(events, clock), Stamped(events, _ => 0));
  }

  // ---- In SQL ----

  datatype Meta = Meta(workflowId: string, status: string)

  /** The status column an event sets, if any. */
  function IndexedStatus(e: Event): Option<string> {
    match e
    case InstanceCreated(_, _) => Some("pending")
    case InstanceStarted => Some("running")
    case WorkflowCompleted(_, _) => Some("completed")
    case WorkflowFailed(_, _) => Some("failed")
    case _ => None
  }

  function Upsert(row: Option<Meta>, e: Event): Option<Meta> {
    match IndexedStatus(e)
    case None => row
    case Some(status) =>
      Some(Meta(match row
                case Some(m) => m.workflowId
                case None => if e.InstanceCreated? then e.workflowId else "", status))
  }

  /** The index row of an instance after its events. */
  function RowOf(events: seq<Event>): Option<Meta> {
    if events == [] then None else Upsert(RowOf(events[..|events| - 1]), events[|events| - 1])
  }

  function IndexAfter(index: map<string, Meta>, id: string, e: Event): map<string, Meta> {
    match Upsert(if id in index then Some(index[id]) else None, e)
    case None => index
    case Some(m) => index[id := m]
  }

  /** What a database may do to the two statements of one append. */
  datatype Fault = NoFault | InsertFails | UpsertFails

  class SqlEventStore {
    var rows: seq<(string, Event)>
    var index: map<string, Meta>

    constructor ()
      ensures rows == [] && index == map[]
    {
      rows := [];
      index := map[];
    }

    /** `fault` says which of the two statements fails, if any. When it is the upsert, the row
        stays and the index lags behind it. */
    method Append(id: string, e: Event, fault: Fault) returns (ok: bool)
      modifies this
      ensures ok <==> fault == NoFault || (fault == UpsertFails && IndexedStatus(e).None?)
      ensures rows == if fault == InsertFails then old(rows) else old(rows) + [(id, e)]
      ensures index == if fault == NoFault then IndexAfter(old(index), id, e) else old(index)
    {
      if fault == InsertFails {
        return false;
      }
      rows := rows + [(id, e)];
      var workflowId, status := "", "";
      match e {
        case InstanceCreated(wf, _) =>
          workflowId, status := wf, "pending";
        case InstanceStarted =>
          status := "running";
        case WorkflowCompleted(_, _) =>
          status := "completed";
        case WorkflowFailed(_, _) =>
          status := "failed";
        case _ =>
      }
      if status != "" {
        if fault == UpsertFails {
          return false;
        }
        index := index[id := if id in index then index[id].(status := status) else Meta(workflowId, status)];
      }
      return true;
    }

    /** The instance's events in the order appended, or None where a stored payload does not decode. */
    method ReadStream(id: string, decodes: Event -> bool) returns (events: Option<seq<Event>>)
      ensures events == if forall e <- Of(rows, id) :: decodes(e) then Some(Of(rows, id)) else None
    {
      var payloads := SelectPayloads(id);
      for i := 0 to |payloads|
        invariant forall e <- payloads[..i] :: decodes(e)
      {
        if !decodes(payloads[i]) {
          return None;
        }
      }
      assert payloads[..|payloads|] == payloads;
      return Some(payloads);
    }

    method SelectPayloads(id: string) returns (events: seq<Event>)
      ensures events == Of(rows, id)
    {
      events := [];
      for i := 0 to |rows|
        invariant events == Of(rows[..i], id)
      {
        assert rows[..i + 1][..i] == rows[..i];
        if rows[i].0 == id {
          events := events + [rows[i].1];
        }
      }
      assert rows[..|rows|] == rows;
    }

    method ListByStatus(status: Status) returns (r: set<string>)
      ensures r == ListIndexed(index, status)
    {
      r := set id | id in index && index[id].status == StatusName(status);
    }
  }

  function ListIndexed(index: map<string, Meta>, status: Status): set<string> {
    set id | id in index && index[id].status == StatusName(status)
  }

  // ---- Both stores after the same appends ----

  /** The events appended for one instance, in order. */
  function Of(log: seq<(string, Event)>, id: string): seq<Event> {
    if log == [] then []
    else Of(log[..|log| - 1], id) + (if log[|log| - 1].0 == id then [log[|log| - 1].1] else [])
  }

  function StreamsOf(log: seq<(string, Event)>): map<string, seq<Event>> {
    if log == [] then map[] else StreamsAfter(StreamsOf(log[..|log| - 1]), log[|log| - 1].0, log[|log| - 1].1)
  }

  function IndexOf(log: seq<(string, Event)>): map<string, Meta> {
    if log == [] then map[] else IndexAfter(IndexOf(log[..|log| - 1]), log[|log| - 1].0, log[|log| - 1].1)
  }

  /** Appends for other instances never show: each stream, and each index row, is a function
      of that instance's own events. */
  lemma {:induction false} StoresSeparateInstances(log: seq<(string, Event)>, id: string)
    ensures id in StreamsOf(log) <==> Of(log, id) != []
    ensures id in StreamsOf(log) ==> StreamsOf(log)[id] == Of(log, id)
    ensures id in IndexOf(log) <==> RowOf(Of(log, id)).Some?
    ensures id in IndexOf(log) ==> RowOf(Of(log, id)) == Some(IndexOf(log)[id])
  {
    if log != [] {
      var before, last := log[..|log| - 1], log[|log| - 1];
      StoresSeparateInstances(before, id);
      if last.0 == id {
        assert Of(log, id)[..|Of(log, id)| - 1] == Of(before, id);
      } else {
        assert Of(log, id) == Of(before, id);
      }
    }
  }

  lemma StateOfSnoc(id: string, events: seq<Event>, e: Event)
    ensures StateOf(id, events + [e]) == match StateOf(id, events) case None => None case Some(s) => Apply(s, e, 0)
  {
    assert Stamped(events + [e], _ => 0) == Stamped(events, _ => 0) + [Reading(e, 0)];
    FoldSnoc(Blank(id), Stamped(events, _ => 0), Reading(e, 0));
  }

  /** Right after any event that it indexes, the index tells the folded status, whatever came before. */
  lemma IndexedEventAgrees(id: string, events: seq<Event>, e: Event)
    requires StateOf(id, events).Some? && IndexedStatus(e).Some?
    ensures StateOf(id, events + [e]).Some? && RowOf(events + [e]).Some?
    ensures RowOf(events + [e]).value.status == StatusName(StateOf(id, events + [e]).value.status)
  {
    StateOfSnoc(id, events, e);
    assert (events + [e])[..|events|] == events;
  }

  // ---- When the index tells the folded status ----

  function LastIndexed(events: seq<Event>): (r: Option<nat>)
    ensures r.Some? ==> r.value < |events| && IndexedStatus(events[r.value]).Some?
  {
    if events == [] then None
    else if IndexedStatus(events[|events| - 1]).Some? then Some(|events| - 1)
    else LastIndexed(events[..|events| - 1])
  }

  /** The name that the last indexed event wrote. */
  function WrittenName(events: seq<Event>): Option<string> {
    match LastIndexed(events)
    case None => None
    case Some(k) => IndexedStatus(events[k])
  }

  /** The name written last is that of the status that a scan of the events ends in. */
  predicate IndexIsCurrent(events: seq<Event>) { WrittenName(events) == Some(StatusName(StatusScan(events))) }

  predicate NamedInRow(row: Option<Meta>, name: string) { row.Some? && row.value.status == name }

  lemma {:induction false} RowHoldsWrittenName(events: seq<Event>)
    ensures RowOf(events).Some? <==> WrittenName(events).Some?
    ensures RowOf(events).Some? ==> WrittenName(events) == Some(RowOf(events).value.status)
  {
    if events != [] {
      RowHoldsWrittenName(events[..|events| - 1]);
    }
  }

  const BLANK_GLANCE := Glance(Pending, NoContext)

  /** Whether an instance's fold panics, and the status it ends in, by a scan of its events. */
  lemma StatusIsScanned(id: string, events: seq<Event>)
    ensures StateOf(id, events).Some? <==> ClashFree(BLANK_GLANCE, events)
    ensures StateOf(id, events).Some? ==> StateOf(id, events).value.status == StatusScan(events)
  {
    FoldAtAGlance(Blank(id), Stamped(events, _ => 0));
    assert Events(Stamped(events, _ => 0)) == events;
    StatusSeen(BLANK_GLANCE, events);
  }

  /** For every log the index row tells the folded status exactly when some event was indexed
      and the last one wrote the name that the status scan ends in. */
  lemma IndexAgreesExactlyWhen(id: string, events: seq<Event>)
    requires StateOf(id, events).Some?
    ensures NamedInRow(RowOf(events), StatusName(StateOf(id, events).value.status)) <==> IndexIsCurrent(events)
  {
    StatusIsScanned(id, events);
    RowHoldsWrittenName(events);
  }

  /** The two stores answer a query alike about one instance: folding its events does not
      panic, and the name written last is the one asked for exactly if the scan ends in it. */
  ghost predicate AnswersAgree(events: seq<Event>, status: Status) {
    && ClashFree(BLANK_GLANCE, events)
    && (WrittenName(events) == Some(StatusName(status)) <==> SameKind(StatusScan(events), status))
  }

  predicate ListedAlike(streams: map<string, seq<Event>>, indexed: set<string>, status: Status, id: string)
    requires id in streams
  {
    StateOf(id, streams[id]).Some? && (Listed(streams, id, status) <==> id in indexed)
  }

  lemma ListsAgreeOneByOne(streams: map<string, seq<Event>>, indexed: set<string>, status: Status)
    requires indexed <= streams.Keys
    ensures ListFolded(streams, status) == Some(indexed) <==> forall id <- streams :: ListedAlike(streams, indexed, status, id)
  {
    var found := set id | id in streams && Listed(streams, id, status);
    if forall id <- streams :: ListedAlike(streams, indexed, status, id) {
      forall id
        ensures id in found <==> id in indexed
      {
        if id in streams {
          assert ListedAlike(streams, indexed, status, id);
        }
      }
      assert found == indexed;
    } else {
      var id :| id in streams && !ListedAlike(streams, indexed, status, id);
      assert StateOf(id, streams[id]).Some? ==> !(id in found <==> id in indexed);
    }
  }

  lemma ListedAlikeExactlyWhen(log: seq<(string, Event)>, status: Status, id: string)
    ensures id in StreamsOf(log) <==> Of(log, id) != []
    ensures id in StreamsOf(log) ==>
              (ListedAlike(StreamsOf(log), ListIndexed(IndexOf(log), status), status, id) <==> AnswersAgree(Of(log, id), status))
    ensures id in ListIndexed(IndexOf(log), status) ==> id in StreamsOf(log)
  {
    StoresSeparateInstances(log, id);
    StatusIsScanned(id, Of(log, id));
    RowHoldsWrittenName(Of(log, id));
  }

  ghost predicate AllAnswersAgree(log: seq<(string, Event)>, status: Status) {
    forall id: string | Of(log, id) != [] :: AnswersAgree(Of(log, id), status)
  }

  ghost predicate ListsAgree(log: seq<(string, Event)>, status: Status) {
    ListFolded(StreamsOf(log), status) == Some(ListIndexed(IndexOf(log), status))
  }

  /** After the same appends, whatever they are, the memory store answers a query with the list
      of the SQL stores exactly when the two agree about each instance's own events. */
  lemma ListsAgreeExactlyWhen(log: seq<(string, Event)>, status: Status)
    ensures ListsAgree(log, status) <==> AllAnswersAgree(log, status)
  {
    var streams, indexed := StreamsOf(log), ListIndexed(IndexOf(log), status);
    forall id: string
      ensures id in indexed ==> id in streams
      ensures id in streams <==> Of(log, id) != []
      ensures id in streams ==> (ListedAlike(streams, indexed, status, id) <==> AnswersAgree(Of(log, id), status))
    {
      ListedAlikeExactlyWhen(log, status, id);
    }
    ListsAgreeOneByOne(streams, indexed, status);
  }

  /** No instance's events clash, and each index row is current. */
  ghost predicate AllCurrent(log: seq<(string, Event)>) {
    forall id: string | Of(log, id) != [] :: ClashFree(BLANK_GLANCE, Of(log, id)) && IndexIsCurrent(Of(log, id))
  }

  /** They answer every query alike exactly when no instance's events clash and each index row
      is current. */
  lemma StoresAgreeExactlyWhen(log: seq<(string, Event)>)
    ensures (forall status :: ListsAgree(log, status)) <==> AllCurrent(log)
  {
    if forall status :: ListsAgree(log, status) {
      forall id: string | Of(log, id) != []
        ensures ClashFree(BLANK_GLANCE, Of(log, id)) && IndexIsCurrent(Of(log, id))
      {
        var ends := StatusScan(Of(log, id));
        assert ListsAgree(log, ends);
        ListsAgreeExactlyWhen(log, ends);
        assert AnswersAgree(Of(log, id), ends);
      }
    }
    forall status | AllCurrent(log)
      ensures ListsAgree(log, status)
    {
      forall id: string | Of(log, id) != []
        ensures AnswersAgree(Of(log, id), status)
      {
        NamesTellKindsApart(StatusScan(Of(log, id)), status);
      }
      ListsAgreeExactlyWhen(log, status);
    }
  }

  /** The events that move the status without being indexed. */
  predicate MovesUnindexed(e: Event) {
    e.SignalWaitStarted? || e.BreakpointHit? || e.CancelRequested? || (e.StepFailed? && !e.willRetry)
    || (e.SignalReceived? && e.action == Some(Reject))
  }

  ghost predicate Plain(events: seq<Event>) {
    events != [] && events[0].InstanceCreated? && forall i | 0 <= i < |events| :: !MovesUnindexed(events[i])
  }

  lemma ScansSnoc(events: seq<Event>, e: Event)
    ensures StatusScan(events + [e]) == Moved(StatusScan(events), e)
    ensures WrittenName(events + [e]) == if IndexedStatus(e).Some? then IndexedStatus(e) else WrittenName(events)
  {
    assert (events + [e])[..|events|] == events;
  }

  lemma PlainStep(status: Status, e: Event)
    requires !MovesUnindexed(e) && !status.WaitingForSignal?
    ensures !Moved(status, e).WaitingForSignal? && !Awaited(status, e)
    ensures StatusName(Moved(status, e)) == if IndexedStatus(e).Some? then IndexedStatus(e).value else StatusName(status)
  {}

  lemma {:induction false} PlainIsCurrent(events: seq<Event>)
    requires Plain(events)
    ensures IndexIsCurrent(events) && ClashFree(BLANK_GLANCE, events) && !StatusScan(events).WaitingForSignal?
  {
    var n := |events| - 1;
    var front, last := events[..n], events[n];
    assert events == front + [last];
    ScansSnoc(front, last);
    assert ClashFree(BLANK_GLANCE, front) && !StatusScan(front).WaitingForSignal? && (n > 0 ==> IndexIsCurrent(front)) by {
      if n > 0 {
        PlainIsCurrent(front);
      }
    }
    PlainStep(StatusScan(front), last);
    assert ClashFree(BLANK_GLANCE, events) by {
      StatusSeen(BLANK_GLANCE, front);
      ClashFreeSnoc(BLANK_GLANCE, front, last);
    }
  }

  /** So they do when every instance begins with its creation and meets none of the events that
      move the status unindexed. */
  lemma PlainListsAgree(log: seq<(string, Event)>, status: Status)
    requires forall id: string :: Of(log, id) == [] || Plain(Of(log, id))
    ensures ListsAgree(log, status)
  {
    forall id: string | Of(log, id) != []
      ensures ClashFree(BLANK_GLANCE, Of(log, id)) && IndexIsCurrent(Of(log, id))
    {
      PlainIsCurrent(Of(log, id));
    }
    StoresAgreeExactlyWhen(log);
  }

  /** Whatever was appended, the index lists no instance as waiting for a signal or sleeping. */
  lemma {:induction false} IndexNeverWaits(events: seq<Event>)
    ensures RowOf(events).Some? ==> RowOf(events).value.status in {"pending", "running", "completed", "failed"}
  {
    if events != [] {
      IndexNeverWaits(events[..|events| - 1]);
    }
  }

  lemma SqlListsNoneWaiting(log: seq<(string, Event)>, status: Status)
    requires status.WaitingForSignal? || status.Sleeping?
    ensures ListIndexed(IndexOf(log), status) == {}
  {
    var w, z := "waiting_for_signal", "sleeping";
    var names := ["pending", "running", "completed", "failed"];
    assert w[0] == 'w' && z[0] == 's';
    assert names[0][0] == 'p' && names[1][0] == 'r' && names[2][0] == 'c' && names[3][0] == 'f';
    forall id <- IndexOf(log)
      ensures IndexOf(log)[id].status != StatusName(status)
    {
      StoresSeparateInstances(log, id);
      IndexNeverWaits(Of(log, id));
    }
  }

  /** The memory store does list them. */
  lemma MemoryListsWaiting(id: string)
    ensures var log := [(id, InstanceStarted), (id, SignalWaitStarted("a", "go"))];
            ListFolded(StreamsOf(log), WaitingForSignal("")) == Some({id})
  {
    var e, f := InstanceStarted, SignalWaitStarted("a", "go");
    var log := [(id, e), (id, f)];
    assert log[..1] == [(id, e)] && log[..1][..0] == [];
    assert [] + [e] == [e] && [e] + [f] == [e, f];
    assert StreamsOf([]) == map[];
    assert StreamsOf(log[..1]) == StreamsAfter(map[], id, e) == map[id := [e]];
    assert StreamsOf(log) == StreamsAfter(map[id := [e]], id, f) == map[id := [e, f]];
    StateOfSnoc(id, [], e);
    StateOfSnoc(id, [e], f);
    assert StateOf(id, [e, f]).value.status == WaitingForSignal("go");
    assert Listed(StreamsOf(log), id, WaitingForSignal(""));
    assert (set i | i in StreamsOf(log) && Listed(StreamsOf(log), i, WaitingForSignal(""))) == {id};
  }

  /** The workflow id in an index row is that of the creation event, if that was the first to be
      indexed, and otherwise empty; no later event changes it. */
  lemma {:induction false} RowKeepsFirstWorkflow(events: seq<Event>, first: nat)
    requires first < |events| && IndexedStatus(events[first]).Some?
    requires forall i | 0 <= i < first :: IndexedStatus(events[i]).None?
    ensures RowOf(events).Some?
    ensures RowOf(events).value.workflowId == if events[first].InstanceCreated? then events[first].workflowId else ""
  {
    var n := |events| - 1;
    if first < n {
      RowKeepsFirstWorkflow(events[..n], first);
    } else {
      NothingIndexed(events[..n]);
    }
  }

  lemma {:induction false} NothingIndexed(events: seq<Event>)
    requires forall i | 0 <= i < |events| :: IndexedStatus(events[i]).None?
    ensures RowOf(events).None?
  {
    if events != [] {
      NothingIndexed(events[..|events| - 1]);
    }
  }

  /** The events of an instance are those appended under its id, all of them, in order. */
  lemma {:induction false} OwnEventsAre(log: seq<(string, Event)>, id: string) returns (places: seq<nat>)
    ensures Enumerates(places, |log|, i => 0 <= i < |log| && log[i].0 == id)
    ensures |Of(log, id)| == |places|
    ensures forall j | 0 <= j < |places| :: places[j] < |log| && Of(log, id)[j] == log[places[j]].1
  {
    places := [];
    if log != [] {
      var n := |log| - 1;
      var before := OwnEventsAre(log[..n], id);
      PlacesSnoc(before, n, i => 0 <= i < n && log[..n][i].0 == id, i => 0 <= i < |log| && log[i].0 == id);
      places := before + (if log[n].0 == id then [n] else []);
    }
  }

  /** Which events the index takes, and the name that each writes. */
  lemma IndexedExactly(e: Event)
    ensures IndexedStatus(e).Some? <==> e.InstanceCreated? || e.InstanceStarted? || e.WorkflowCompleted? || e.WorkflowFailed?
    ensures IndexedStatus(e).Some? ==>
              IndexedStatus(e).value == (if e.InstanceCreated? then "pending" else if e.InstanceStarted? then "running"
                                            else if e.WorkflowCompleted? then "completed" else "failed")
  {}
}
