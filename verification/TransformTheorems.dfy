/** What the transformed list promises: it needs no second transformation, calls and results
    stay paired, and nothing of the conversation is lost to the padding. */
module TransformTheorems {
  import opened Wrappers
  import opened Messages

  // ---- Idempotence ----

  predicate NoImage(cs: seq<Content>) { forall i | 0 <= i < |cs| :: !cs[i].Image? }

  predicate Accepted(o: Options, cs: seq<Content>) {
    forall i | 0 <= i < |cs| :: (cs[i].Video? ==> o.supportsVideo) && (cs[i].Audio? ==> o.supportsAudio)
  }

  predicate NoThinking(cs: seq<Content>) { forall i | 0 <= i < |cs| :: !cs[i].Thinking? }

  predicate ShortCalls(cs: seq<Content>) { forall i | 0 <= i < |cs| :: cs[i].Call? ==> |cs[i].call.id| <= MAX_ID }

  predicate OneText(cs: seq<Content>) { |cs| == 1 && cs[0].Text? && cs[0].signature.None? }

  /** A message that the target accepts as it is. */
  predicate Settled(o: Options, m: Message) {
    match m
    case User(u) => (!o.supportsImages ==> NoImage(u.content)) && Accepted(o, u.content)
    case ToolResult(t) => OneText(t.content)
    case Assistant(a) => (!o.preserveThinking ==> NoThinking(a.content)) && ShortCalls(a.content)
  }

  predicate AllSettled(o: Options, ms: seq<Message>) { forall i | 0 <= i < |ms| :: Settled(o, ms[i]) }

  predicate ResultsFollow(ms: seq<Message>) { forall i | 0 <= i < |ms| :: !NeedsPad(ms, i) }

  lemma {:induction false} CollapseLeavesNone(cs: seq<Content>, placeholder: Content, inRun: bool)
    requires placeholder.Text?
    ensures NoImage(CollapseImages(cs, placeholder, inRun))
    decreases |cs|
  {
    if cs != [] {
      CollapseLeavesNone(cs[1..], placeholder, cs[0].Image?);
    }
  }

  lemma {:induction false} CollapseNothing(cs: seq<Content>, placeholder: Content, inRun: bool)
    requires NoImage(cs)
    ensures CollapseImages(cs, placeholder, inRun) == cs
    decreases |cs|
  {
    if cs != [] {
      CollapseNothing(cs[1..], placeholder, false);
    }
  }

  lemma {:induction false} DropThinkingFacts(cs: seq<Content>, id: Id)
    ensures NoThinking(DropThinking(cs))
    ensures NoThinking(cs) ==> DropThinking(cs) == cs
    ensures CallsIn(DropThinking(cs), id) <==> CallsIn(cs, id)
    ensures UnsliceableIn(DropThinking(cs)) <==> UnsliceableIn(cs)
  {
    if cs != [] {
      var front, last := cs[..|cs| - 1], cs[|cs| - 1];
      DropThinkingFacts(front, id);
      assert cs == front + [last];
      InSnoc(front, last, id);
      InSnoc(DropThinking(front), last, id);
      if last.Thinking? {
        assert DropThinking(cs) == DropThinking(front);
      }
    }
  }

  lemma InSnoc(cs: seq<Content>, c: Content, id: Id)
    ensures CallsIn(cs + [c], id) <==> CallsIn(cs, id) || (c.Call? && c.call.id == id)
    ensures UnsliceableIn(cs + [c]) <==> UnsliceableIn(cs) || (c.Call? && Unsliceable(c.call.id))
  {
    var all := cs + [c];
    assert all[|cs|] == c && forall j | 0 <= j < |cs| :: all[j] == cs[j];
  }

  /** The first four passes, for one message. */
  function PlainOne(o: Options, m: Message): Message {
    var a := if o.supportsImages then m else WithoutImages(m);
    var b := if o.supportsVideo && o.supportsAudio then a else WithoutVideoAudio(o, a);
    var c := Flattened(b);
    if o.preserveThinking then c else WithoutThinking(c)
  }

  lemma PlainIsPointwise(o: Options, ms: seq<Message>)
    ensures |Plain(o, ms)| == |ms| && forall i | 0 <= i < |ms| :: Plain(o, ms)[i] == PlainOne(o, ms[i])
  {}

  lemma PlainOneUser(o: Options, u: UserMessage)
    ensures PlainOne(o, User(u)).User? && Settled(o, PlainOne(o, User(u)))
    ensures Settled(o, User(u)) ==> PlainOne(o, User(u)) == User(u)
  {
    var collapsed := CollapseImages(u.content, USER_PLACEHOLDER, false);
    CollapseLeavesNone(u.content, USER_PLACEHOLDER, false);
    var a := if o.supportsImages then u.content else collapsed;
    if !o.supportsImages && NoImage(u.content) {
      CollapseNothing(u.content, USER_PLACEHOLDER, false);
    }
    if Accepted(o, a) {
      assert Each(o, a) == a;
    }
  }

  lemma PlainOneResult(o: Options, t: ToolResultMessage)
    ensures PlainOne(o, ToolResult(t)).ToolResult? && Settled(o, PlainOne(o, ToolResult(t)))
    ensures PlainOne(o, ToolResult(t)).result.toolCallId == t.toolCallId
    ensures Settled(o, ToolResult(t)) ==> PlainOne(o, ToolResult(t)) == ToolResult(t)
  {
    if OneText(t.content) {
      OneTextIsKept(o, t.content);
    }
  }

  lemma OneTextIsKept(o: Options, cs: seq<Content>)
    requires OneText(cs)
    ensures CollapseImages(cs, TOOL_PLACEHOLDER, false) == cs && Each(o, cs) == cs
    ensures [Text(JoinLines(TextParts(cs)), None)] == cs
  {
    CollapseNothing(cs, TOOL_PLACEHOLDER, false);
    assert TextParts(cs[..0]) == [];
    assert TextParts(cs) == [cs[0].text];
  }

  lemma PlainOneAssistant(o: Options, a: AssistantMessage, id: Id)
    ensures PlainOne(o, Assistant(a)).Assistant?
    ensures var r := PlainOne(o, Assistant(a)).assistant;
            && (!o.preserveThinking ==> NoThinking(r.content))
            && (CallsIn(r.content, id) <==> CallsIn(a.content, id))
            && (UnsliceableIn(r.content) <==> UnsliceableIn(a.content))
            && (Settled(o, Assistant(a)) ==> r == a)
  {
    DropThinkingFacts(a.content, id);
  }

  /** The first four passes keep every role, every call id and every result id. */
  lemma PlainKeepsIds(o: Options, ms: seq<Message>, id: Id)
    ensures var p := Plain(o, ms);
            && |p| == |ms|
            && (forall i | 0 <= i < |ms| :: (p[i].Assistant? <==> ms[i].Assistant?) && (p[i].ToolResult? <==> ms[i].ToolResult?))
            && (forall i | 0 <= i < |ms| && ms[i].ToolResult? :: p[i].result.toolCallId == ms[i].result.toolCallId)
            && (forall i | 0 <= i < |ms| && ms[i].Assistant? ::
                  CallsIn(p[i].assistant.content, id) <==> CallsIn(ms[i].assistant.content, id))
            && (forall i | 0 <= i < |ms| && ms[i].Assistant? ::
                  UnsliceableIn(p[i].assistant.content) <==> UnsliceableIn(ms[i].assistant.content))
            && (IsCalled(p, id) <==> IsCalled(ms, id))
            && (HasUnsliceable(p) <==> HasUnsliceable(ms))
  {
    PlainIsPointwise(o, ms);
    forall i | 0 <= i < |ms|
      ensures var m, r := ms[i], PlainOne(o, ms[i]);
              && (r.Assistant? <==> m.Assistant?) && (r.ToolResult? <==> m.ToolResult?)
              && (m.ToolResult? ==> r.result.toolCallId == m.result.toolCallId)
              && (m.Assistant? ==> (CallsIn(r.assistant.content, id) <==> CallsIn(m.assistant.content, id)))
              && (m.Assistant? ==> (UnsliceableIn(r.assistant.content) <==> UnsliceableIn(m.assistant.content)))
    {
      match ms[i] {
        case User(u) => PlainOneUser(o, u);
        case ToolResult(t) => PlainOneResult(o, t);
        case Assistant(a) => PlainOneAssistant(o, a, id);
      }
    }
  }

  lemma RenameSettles(o: Options, ms: seq<Message>, m: Message)
    ensures Settled(o, Renamed(ms, PlainOne(o, m)))
  {
    match m {
      case User(u) => PlainOneUser(o, u);
      case ToolResult(t) => PlainOneResult(o, t);
      case Assistant(a) =>
        PlainOneAssistant(o, a, []);
        var content := PlainOne(o, m).assistant.content;
        forall j | 0 <= j < |content| && content[j].Call?
          ensures |RenameCalls(content)[j].call.id| <= MAX_ID
        {
          NormalizedIdIsShort(content[j].call.id);
        }
    }
  }

  lemma {:induction false} PaddedFacts(o: Options, ms: seq<Message>, clock: nat -> Time, n: nat)
    requires AllSettled(o, ms) && n <= |ms|
    ensures var r := PaddedTo(ms, clock, n);
            AllSettled(o, r) && ResultsFollow(r) && (r == [] <==> n == 0) && (n > 0 ==> r[|r| - 1] == ms[n - 1])
  {
    if n > 0 {
      PaddedFacts(o, ms, clock, n - 1);
      var before, r := PaddedTo(ms, clock, n - 1), PaddedTo(ms, clock, n);
      forall i | 0 <= i < |r|
        ensures !NeedsPad(r, i)
      {
        if i < |before| {
          assert !NeedsPad(before, i);
        }
      }
    }
  }

  lemma {:induction false} PaddedFixed(ms: seq<Message>, clock: nat -> Time, n: nat)
    requires ResultsFollow(ms) && n <= |ms|
    ensures PaddedTo(ms, clock, n) == ms[..n]
  {
    if n > 0 {
      PaddedFixed(ms, clock, n - 1);
      assert !NeedsPad(ms, n - 1);
      assert ms[..n - 1] + ([] + [ms[n - 1]]) == ms[..n];
    }
  }

  /** What comes out is accepted message by message, and no result stands without an
      assistant message right before it. */
  lemma TransformSettles(ms: seq<Message>, o: Options, clock: nat -> Time)
    requires Transformed(ms, o, clock).Some?
    ensures AllSettled(o, Transformed(ms, o, clock).value) && ResultsFollow(Transformed(ms, o, clock).value)
  {
    var plain := Plain(o, ms);
    PlainIsPointwise(o, ms);
    var renamed := RenameAll(plain);
    forall i | 0 <= i < |renamed|
      ensures Settled(o, renamed[i])
    {
      RenameSettles(o, plain, ms[i]);
    }
    PaddedFacts(o, renamed, clock, |renamed|);
  }

  lemma SettledIsFixed(ms: seq<Message>, o: Options, clock: nat -> Time)
    requires AllSettled(o, ms) && ResultsFollow(ms)
    ensures Transformed(ms, o, clock) == Some(ms)
  {
    PlainIsPointwise(o, ms);
    forall i | 0 <= i < |ms|
      ensures PlainOne(o, ms[i]) == ms[i] && Renamed(ms, ms[i]) == ms[i]
    {
      match ms[i] {
        case User(u) => PlainOneUser(o, u);
        case ToolResult(t) =>
          PlainOneResult(o, t);
          SettledResultId(o, ms, t.toolCallId);
        case Assistant(a) =>
          PlainOneAssistant(o, a, []);
          assert RenameCalls(a.content) == a.content;
      }
    }
    assert Plain(o, ms) == ms;
    assert !HasUnsliceable(ms) by {
      forall i | 0 <= i < |ms| && ms[i].Assistant?
        ensures !UnsliceableIn(ms[i].assistant.content)
      {
        assert Settled(o, ms[i]);
      }
    }
    assert RenameAll(ms) == ms;
    PaddedFixed(ms, clock, |ms|);
    assert ms[..|ms|] == ms;
  }

  lemma SettledResultId(o: Options, ms: seq<Message>, id: Id)
    requires AllSettled(o, ms)
    ensures ResultId(ms, id) == id
  {
    if IsCalled(ms, id) {
      var i :| 0 <= i < |ms| && ms[i].Assistant? && CallsIn(ms[i].assistant.content, id);
      assert Settled(o, ms[i]);
    }
  }

  /** A second transformation, at any other time, changes nothing. */
  lemma TransformIsIdempotent(ms: seq<Message>, o: Options, clock: nat -> Time, later: nat -> Time)
    requires Transformed(ms, o, clock).Some?
    ensures Transformed(Transformed(ms, o, clock).value, o, later) == Transformed(ms, o, clock)
  {
    TransformSettles(ms, o, clock);
    SettledIsFixed(Transformed(ms, o, clock).value, o, later);
  }

  /** The transformation panics exactly when some assistant message calls a tool under an
      id longer than 64 bytes whose last 8 bytes begin inside a character. */
  lemma PanicsExactlyWhen(ms: seq<Message>, o: Options, clock: nat -> Time)
    ensures Transformed(ms, o, clock).None? <==> HasUnsliceable(ms)
  {
    PlainKeepsIds(o, ms, []);
  }

  // ---- Padding ----

  /** How many of the first `n` messages get a pad. */
  function PadsBefore(ms: seq<Message>, n: nat): nat
    requires n <= |ms|
  {
    if n == 0 then 0 else PadsBefore(ms, n - 1) + (if NeedsPad(ms, n - 1) then 1 else 0)
  }

  /** Where message `i` ends up. */
  function Place(ms: seq<Message>, i: nat): nat
    requires i < |ms|
  {
    i + PadsBefore(ms, i + 1)
  }

  /** The places of the pads of the first `n` messages. */
  function PadPlaces(ms: seq<Message>, n: nat): set<nat>
    requires n <= |ms|
  {
    if n == 0 then {}
    else PadPlaces(ms, n - 1) + (if NeedsPad(ms, n - 1) then {n - 1 + PadsBefore(ms, n - 1)} else {})
  }

  /** The list without the elements at some places. */
  function Without<T>(s: seq<T>, gone: set<nat>): seq<T> { WithoutTo(s, gone, |s|) }

  function WithoutTo<T>(s: seq<T>, gone: set<nat>, n: nat): seq<T>
    requires n <= |s|
  {
    if n == 0 then [] else WithoutTo(s, gone, n - 1) + (if n - 1 in gone then [] else [s[n - 1]])
  }

  lemma {:induction false} PaddedLength(ms: seq<Message>, clock: nat -> Time, n: nat)
    requires n <= |ms|
    ensures |PaddedTo(ms, clock, n)| == n + PadsBefore(ms, n)
  {
    if n > 0 {
      PaddedLength(ms, clock, n - 1);
    }
  }

  /** Every message is found again at its place, and every pad right before its result. */
  lemma {:induction false} PaddedPlaces(ms: seq<Message>, clock: nat -> Time, i: nat, n: nat)
    requires i < n <= |ms|
    ensures var r := PaddedTo(ms, clock, n);
            && |r| == n + PadsBefore(ms, n) && Place(ms, i) < |r|
            && r[Place(ms, i)] == ms[i]
            && (NeedsPad(ms, i) ==> Place(ms, i) > 0 && r[Place(ms, i) - 1] == Pad(clock(i)))
  {
    PaddedLength(ms, clock, n - 1);
    PaddedLength(ms, clock, n);
    if i < n - 1 {
      PaddedPlaces(ms, clock, i, n - 1);
    }
  }

  lemma {:induction false} WithoutAlike<T>(s: seq<T>, gone: set<nat>, t: seq<T>, lost: set<nat>, n: nat)
    requires n <= |s| && n <= |t| && forall i | 0 <= i < n :: s[i] == t[i] && (i in gone <==> i in lost)
    ensures WithoutTo(s, gone, n) == WithoutTo(t, lost, n)
  {
    if n > 0 {
      WithoutAlike(s, gone, t, lost, n - 1);
    }
  }

  /** At each of these places stands a pad, right before a tool result. */
  lemma {:induction false} PadPlacesHoldPads(ms: seq<Message>, clock: nat -> Time, n: nat, q: nat)
    requires n <= |ms| && q in PadPlaces(ms, n)
    ensures var r := PaddedTo(ms, clock, n);
            q + 1 < |r| && r[q + 1].ToolResult? && exists i: nat :: r[q] == Pad(clock(i))
  {
    PaddedLength(ms, clock, n - 1);
    if q in PadPlaces(ms, n - 1) {
      PadPlacesHoldPads(ms, clock, n - 1, q);
    } else {
      assert PaddedTo(ms, clock, n)[q] == Pad(clock(n - 1));
    }
  }

  lemma {:induction false} PadPlacesInside(ms: seq<Message>, clock: nat -> Time, n: nat)
    requires n <= |ms|
    ensures forall q :: q in PadPlaces(ms, n) ==> q < |PaddedTo(ms, clock, n)|
  {
    if n > 0 {
      PadPlacesInside(ms, clock, n - 1);
      PaddedLength(ms, clock, n - 1);
    }
  }

  lemma TakingOutPad<T>(before: seq<T>, places: set<nat>, pads: seq<T>, m: T, all: seq<T>, gone: set<nat>)
    requires |pads| <= 1 && forall q :: q in places ==> q < |before|
    requires all == before + (pads + [m]) && gone == places + (if pads == [] then {} else {|before|})
    ensures Without(all, gone) == Without(before, places) + [m]
  {
    WithoutAlike(before, places, all, gone, |before|);
    assert all[|all| - 1] == m && |all| - 1 !in gone;
    if pads != [] {
      assert WithoutTo(all, gone, |before| + 1) == WithoutTo(all, gone, |before|) + [];
    }
  }

  /** Padding loses and reorders nothing: taking out exactly the pads gives the list back. */
  lemma PaddingConserves(ms: seq<Message>, clock: nat -> Time)
    ensures Without(Padded(ms, clock), PadPlaces(ms, |ms|)) == ms
  {
    PaddingConservesTo(ms, clock, |ms|);
    assert ms[..|ms|] == ms;
  }

  lemma {:induction false} PaddingConservesTo(ms: seq<Message>, clock: nat -> Time, n: nat)
    requires n <= |ms|
    ensures Without(PaddedTo(ms, clock, n), PadPlaces(ms, n)) == ms[..n]
  {
    if n > 0 {
      PaddingConservesTo(ms, clock, n - 1);
      PadPlacesInside(ms, clock, n - 1);
      PaddedLength(ms, clock, n - 1);
      TakingOutPad(PaddedTo(ms, clock, n - 1), PadPlaces(ms, n - 1), PadsFor(ms, clock, n - 1), ms[n - 1],
                   PaddedTo(ms, clock, n), PadPlaces(ms, n));
      assert ms[..n - 1] + [ms[n - 1]] == ms[..n];
    }
  }

  // ---- Pairing ----

  predicate SameRole(a: Message, b: Message) {
    (a.Assistant? <==> b.Assistant?) && (a.ToolResult? <==> b.ToolResult?)
  }

  predicate SameRoles(a: seq<Message>, b: seq<Message>) {
    |a| == |b| && forall i | 0 <= i < |a| :: SameRole(a[i], b[i])
  }

  lemma {:induction false} SameRolesSamePads(a: seq<Message>, b: seq<Message>, n: nat)
    requires SameRoles(a, b) && n <= |a|
    ensures PadsBefore(a, n) == PadsBefore(b, n)
  {
    if n > 0 {
      SameRolesSamePads(a, b, n - 1);
      assert SameRole(a[n - 1], b[n - 1]) && (n > 1 ==> SameRole(a[n - 2], b[n - 2]));
    }
  }

  lemma PlainKeepsRoles(ms: seq<Message>, o: Options)
    ensures SameRoles(ms, Plain(o, ms))
  {
    PlainKeepsIds(o, ms, []);
  }

  lemma RenamingKeepsRoles(ms: seq<Message>, plain: seq<Message>)
    requires SameRoles(ms, plain)
    ensures SameRoles(ms, RenameAll(plain))
  {
    forall j | 0 <= j < |ms|
      ensures SameRole(ms[j], RenameAll(plain)[j])
    {
      assert SameRole(ms[j], plain[j]);
    }
  }

  lemma RenamedPlaces(ms: seq<Message>, plain: seq<Message>, clock: nat -> Time, i: nat)
    requires SameRoles(ms, plain) && i < |ms|
    ensures var out := Padded(RenameAll(plain), clock);
            Place(ms, i) < |out| && out[Place(ms, i)] == Renamed(plain, plain[i])
  {
    var renamed := RenameAll(plain);
    RenamingKeepsRoles(ms, plain);
    SameRolesSamePads(ms, renamed, i + 1);
    PaddedPlaces(renamed, clock, i, |renamed|);
  }

  /** Message `i` of the input is found at its place in the output, with its ids rewritten. */
  lemma OutputAt(ms: seq<Message>, o: Options, clock: nat -> Time, i: nat)
    requires !HasUnsliceable(ms) && i < |ms|
    ensures Transformed(ms, o, clock).Some?
    ensures var out := Transformed(ms, o, clock).value;
            Place(ms, i) < |out| && |Plain(o, ms)| == |ms| && out[Place(ms, i)] == Renamed(Plain(o, ms), Plain(o, ms)[i])
  {
    PanicsExactlyWhen(ms, o, clock);
    PlainKeepsRoles(ms, o);
    RenamedPlaces(ms, Plain(o, ms), clock, i);
  }

  /** A call and a result that name the same id still name the same id, a short one. */
  lemma PairingSurvives(ms: seq<Message>, o: Options, clock: nat -> Time, i: nat, k: nat, id: Id)
    requires !HasUnsliceable(ms) && i < |ms| && k < |ms|
    requires ms[i].Assistant? && CallsIn(ms[i].assistant.content, id)
    requires ms[k].ToolResult? && ms[k].result.toolCallId == id
    ensures Transformed(ms, o, clock).Some?
    ensures var out := Transformed(ms, o, clock).value;
            && Place(ms, i) < |out| && Place(ms, k) < |out|
            && out[Place(ms, i)].Assistant? && CallsIn(out[Place(ms, i)].assistant.content, NormalizedId(id))
            && out[Place(ms, k)].ToolResult? && out[Place(ms, k)].result.toolCallId == NormalizedId(id)
            && |NormalizedId(id)| <= MAX_ID
  {
    OutputAt(ms, o, clock, i);
    OutputAt(ms, o, clock, k);
    PlainKeepsIds(o, ms, id);
    NormalizedIdIsShort(id);
    assert IsCalled(ms, id);
    CallsFollow(Plain(o, ms)[i].assistant.content, id);
  }

  lemma CallsFollow(content: seq<Content>, id: Id)
    requires CallsIn(content, id)
    ensures CallsIn(RenameCalls(content), NormalizedId(id))
  {
    var j :| 0 <= j < |content| && content[j].Call? && content[j].call.id == id;
    assert RenameCalls(content)[j].call.id == NormalizedId(id);
  }

  /** A result that names no call keeps its id, however long. */
  lemma UnmatchedResultsKeepTheirId(ms: seq<Message>, o: Options, clock: nat -> Time, k: nat)
    requires !HasUnsliceable(ms) && k < |ms|
    requires ms[k].ToolResult? && !IsCalled(ms, ms[k].result.toolCallId)
    ensures Transformed(ms, o, clock).Some?
    ensures var out := Transformed(ms, o, clock).value;
            Place(ms, k) < |out| && out[Place(ms, k)].ToolResult?
            && out[Place(ms, k)].result.toolCallId == ms[k].result.toolCallId
  {
    OutputAt(ms, o, clock, k);
    PlainKeepsIds(o, ms, ms[k].result.toolCallId);
  }
}
