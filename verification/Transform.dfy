/** The passes as the source runs them: loops over one message list, changed in place. */
module Transform {
  import opened Wrappers
  import opened Sequences
  import opened Messages

  /** The part of a collapsed list from part `i` on, one part further. */
  lemma CollapseAt(content: seq<Content>, i: nat, placeholder: Content, inRun: bool)
    requires i < |content|
    ensures CollapseImages(content[i..], placeholder, inRun)
            == (if !content[i].Image? then [content[i]] else if inRun then [] else [placeholder])
               + CollapseImages(content[i + 1..], placeholder, content[i].Image?)
  {
    assert content[i..][1..] == content[i + 1..];
  }

  method CollapseRuns(content: seq<Content>, placeholder: Content) returns (r: seq<Content>)
    ensures r == CollapseImages(content, placeholder, false)
  {
    r := [];
    var inRun := false;
    ghost var result := CollapseImages(content, placeholder, false);
    assert content[0..] == content;
    for i := 0 to |content|
      invariant r + CollapseImages(content[i..], placeholder, inRun) == result
    {
      CollapseAt(content, i, placeholder, inRun);
      var piece := [];
      if content[i].Image? {
        if !inRun {
          piece := [placeholder];
          inRun := true;
        }
      } else {
        inRun := false;
        piece := [content[i]];
      }
      Reassociate(r, piece, CollapseImages(content[i + 1..], placeholder, inRun));
      r := r + piece;
    }
    assert content[|content|..] == [];
  }

  method DowngradeImages(messages: array<Message>)
    modifies messages
    ensures messages[..] == Map(old(messages[..]), m => WithoutImages(m))
  {
    for i := 0 to messages.Length
      invariant forall k | 0 <= k < i :: messages[k] == WithoutImages(old(messages[k]))
      invariant forall k | i <= k < messages.Length :: messages[k] == old(messages[k])
    {
      match messages[i] {
        case User(u) =>
          var content := CollapseRuns(u.content, USER_PLACEHOLDER);
          messages[i] := User(u.(content := content));
        case ToolResult(t) =>
          var content := CollapseRuns(t.content, TOOL_PLACEHOLDER);
          messages[i] := ToolResult(t.(content := content));
        case Assistant(_) =>
      }
    }
  }

  method DowngradeEach(content: seq<Content>, o: Options) returns (r: seq<Content>)
    ensures r == Each(o, content)
  {
    r := content;
    for j := 0 to |content|
      invariant |r| == |content|
      invariant forall k | 0 <= k < j :: r[k] == Downgraded(o, content[k])
      invariant forall k | j <= k < |content| :: r[k] == content[k]
    {
      match r[j] {
        case Video(_, mime) =>
          if !o.supportsVideo {
            r := r[j := Text("[video: " + mime + "]", None)];
          }
        case Audio(_, mime) =>
          if !o.supportsAudio {
            r := r[j := Text("[audio: " + mime + "]", None)];
          }
        case _ =>
      }
    }
  }

  method DowngradeVideoAudio(messages: array<Message>, o: Options)
    modifies messages
    ensures messages[..] == if o.supportsVideo && o.supportsAudio then old(messages[..])
                            else Map(old(messages[..]), m => WithoutVideoAudio(o, m))
  {
    if o.supportsVideo && o.supportsAudio {
      return;
    }
    for i := 0 to messages.Length
      invariant forall k | 0 <= k < i :: messages[k] == WithoutVideoAudio(o, old(messages[k]))
      invariant forall k | i <= k < messages.Length :: messages[k] == old(messages[k])
    {
      match messages[i] {
        case User(u) =>
          var content := DowngradeEach(u.content, o);
          messages[i] := User(u.(content := content));
        case ToolResult(t) =>
          var content := DowngradeEach(t.content, o);
          messages[i] := ToolResult(t.(content := content));
        case Assistant(_) =>
      }
    }
  }

  method CollectText(content: seq<Content>) returns (parts: seq<string>)
    ensures parts == TextParts(content)
  {
    parts := [];
    for j := 0 to |content|
      invariant parts == TextParts(content[..j])
    {
      assert content[..j + 1][..j] == content[..j];
      match content[j] {
        case Text(text, _) => parts := parts + [text];
        case Image(_, mime) => parts := parts + ["[image: " + mime + "]"];
        case Video(_, mime) => parts := parts + ["[video: " + mime + "]"];
        case Audio(_, mime) => parts := parts + ["[audio: " + mime + "]"];
        case _ =>
      }
    }
    assert content[..|content|] == content;
  }

  method DowngradeToolResultMedia(messages: array<Message>)
    modifies messages
    ensures messages[..] == Map(old(messages[..]), m => Flattened(m))
  {
    for i := 0 to messages.Length
      invariant forall k | 0 <= k < i :: messages[k] == Flattened(old(messages[k]))
      invariant forall k | i <= k < messages.Length :: messages[k] == old(messages[k])
    {
      if messages[i].ToolResult? {
        var parts := CollectText(messages[i].result.content);
        messages[i] := ToolResult(messages[i].result.(content := [Text(JoinLines(parts), None)]));
      }
    }
  }

  method RetainSpoken(content: seq<Content>) returns (r: seq<Content>)
    ensures r == DropThinking(content)
  {
    r := [];
    for j := 0 to |content|
      invariant r == DropThinking(content[..j])
    {
      assert content[..j + 1][..j] == content[..j];
      if !content[j].Thinking? {
        r := r + [content[j]];
      }
    }
    assert content[..|content|] == content;
  }

  method RemoveThinkingBlocks(messages: array<Message>)
    modifies messages
    ensures messages[..] == Map(old(messages[..]), m => WithoutThinking(m))
  {
    for i := 0 to messages.Length
      invariant forall k | 0 <= k < i :: messages[k] == WithoutThinking(old(messages[k]))
      invariant forall k | i <= k < messages.Length :: messages[k] == old(messages[k])
    {
      if messages[i].Assistant? {
        var content := RetainSpoken(messages[i].assistant.content);
        messages[i] := Assistant(messages[i].assistant.(content := content));
      }
    }
  }

  method ComputeShortHash(s: Id) returns (r: Id)
    ensures r == ShortHash(s)
  {
    var h := 0xcbf2_9ce4_8422_2325;
    for i := 0 to |s|
      invariant h == Fnv(s[..i])
    {
      assert s[..i + 1][..i] == s[..i];
      h := FnvStep(h, s[i]);
    }
    assert s[..|s|] == s;
    r := ZeroPad(Hex(Mixed(h)), 8);
  }

  /** None where the slice would begin inside a character. */
  method NormalizeId(id: Id) returns (r: Option<Id>)
    ensures r == if Unsliceable(id) then None else Some(NormalizedId(id))
  {
    if |id| <= MAX_ID {
      return Some(id);
    }
    if Continues(id[|id| - 8]) {
      return None;
    }
    var hash := ComputeShortHash(id);
    return Some(CALL_PREFIX + hash + id[|id| - 8..]);
  }

  type Renames = seq<(Id, Id)>

  /** The table holds exactly the long ids called in `ms`, each with its short form. */
  ghost predicate TableOf(table: Renames, ms: seq<Message>) {
    && (forall p <- table :: |p.0| > MAX_ID && p.1 == NormalizedId(p.0) && IsCalled(ms, p.0))
    && (forall id: Id | |id| > MAX_ID && IsCalled(ms, id) :: InTable(table, id))
  }

  predicate InTable(table: Renames, id: Id) { exists p <- table :: p.0 == id }

  ghost predicate PartTableOf(pairs: Renames, cs: seq<Content>) {
    && (forall p <- pairs :: |p.0| > MAX_ID && p.1 == NormalizedId(p.0) && CallsIn(cs, p.0))
    && (forall id: Id | |id| > MAX_ID && CallsIn(cs, id) :: InTable(pairs, id))
  }

  /** A list of which the first `i` elements are done, with one more done. */
  lemma Advance<T>(done: seq<T>, todo: seq<T>, i: nat)
    requires |done| == |todo| && i < |todo|
    ensures (done[..i] + todo[i..])[i] == todo[i]
    ensures (done[..i] + todo[i..])[i := done[i]] == done[..i + 1] + todo[i + 1..]
    ensures todo[i] == done[i] ==> done[..i] + todo[i..] == done[..i + 1] + todo[i + 1..]
  {}

  /** The entry that a part of a message adds to the table, if any. */
  function Entry(c: Content): Renames {
    if c.Call? && |c.call.id| > MAX_ID then [(c.call.id, NormalizedId(c.call.id))] else []
  }

  method RenameOne(c: Content) returns (panicked: bool, r: Content, pairs: Renames)
    ensures panicked <==> c.Call? && Unsliceable(c.call.id)
    ensures !panicked ==> r == RenameCall(c) && pairs == Entry(c)
  {
    r, pairs := c, [];
    if c.Call? {
      var normalized := NormalizeId(c.call.id);
      if normalized.None? {
        return true, r, pairs;
      }
      NormalizedIdIsShort(c.call.id);
      if normalized.value != c.call.id {
        r, pairs := Call(c.call.(id := normalized.value)), [(c.call.id, normalized.value)];
      }
    }
    panicked := false;
  }

  method RenameCallsIn(content: seq<Content>) returns (panicked: bool, r: seq<Content>, pairs: Renames)
    ensures panicked <==> UnsliceableIn(content)
    ensures !panicked ==> r == RenameCalls(content) && PartTableOf(pairs, content)
  {
    r, pairs := [], [];
    for j := 0 to |content|
      invariant PartsDone(content[..j], r, pairs)
    {
      var broke, part, more := RenameOne(content[j]);
      if broke {
        UnsliceableHere(content, j);
        return true, r, pairs;
      }
      NextPart(content, j, r, pairs);
      r, pairs := r + [part], pairs + more;
    }
    assert content[..|content|] == content;
    return false, r, pairs;
  }

  ghost predicate PartsDone(content: seq<Content>, r: seq<Content>, pairs: Renames) {
    !UnsliceableIn(content) && r == RenameCalls(content) && PartTableOf(pairs, content)
  }

  lemma NextPart(content: seq<Content>, j: nat, r: seq<Content>, pairs: Renames)
    requires j < |content| && PartsDone(content[..j], r, pairs)
    requires !(content[j].Call? && Unsliceable(content[j].call.id))
    ensures PartsDone(content[..j + 1], r + [RenameCall(content[j])], pairs + Entry(content[j]))
  {
    assert content[..j + 1] == content[..j] + [content[j]];
    UnsliceableSnoc(content[..j], content[j]);
    PartTableSnoc(pairs, content[..j], content[j]);
  }

  lemma CallsInSnoc(cs: seq<Content>, c: Content)
    ensures forall id: Id :: CallsIn(cs + [c], id) <==> CallsIn(cs, id) || (c.Call? && c.call.id == id)
  {
    var all := cs + [c];
    forall id: Id
      ensures CallsIn(all, id) <==> CallsIn(cs, id) || (c.Call? && c.call.id == id)
    {
      if CallsIn(cs, id) {
        var j :| 0 <= j < |cs| && cs[j].Call? && cs[j].call.id == id;
        assert all[j] == cs[j];
      }
      if c.Call? && c.call.id == id {
        assert all[|cs|] == c;
      }
    }
  }

  lemma UnsliceableHere(cs: seq<Content>, j: nat)
    requires j < |cs| && cs[j].Call? && Unsliceable(cs[j].call.id)
    ensures UnsliceableIn(cs)
  {}

  lemma UnsliceableSnoc(cs: seq<Content>, c: Content)
    ensures UnsliceableIn(cs + [c]) <==> UnsliceableIn(cs) || (c.Call? && Unsliceable(c.call.id))
  {
    var all := cs + [c];
    assert all[|cs|] == c && forall j | 0 <= j < |cs| :: all[j] == cs[j];
  }

  lemma PartTableSnoc(pairs: Renames, cs: seq<Content>, c: Content)
    requires PartTableOf(pairs, cs)
    ensures PartTableOf(pairs + Entry(c), cs + [c])
  {
    CallsInSnoc(cs, c);
    forall id: Id | |id| > MAX_ID && CallsIn(cs + [c], id)
      ensures InTable(pairs + Entry(c), id)
    {
      if CallsIn(cs, id) {
        var q :| q in pairs && q.0 == id;
        assert q in pairs + Entry(c);
      } else {
        assert Entry(c)[0] in pairs + Entry(c);
      }
    }
  }

  /** The chain of replacements never takes a second step: what a replacement gives is too
      short to be replaced again. */
  method FollowRenames(id: Id, table: Renames, ghost ms: seq<Message>) returns (r: Id)
    requires TableOf(table, ms)
    ensures r == ResultId(ms, id)
  {
    r := id;
    NormalizedIdIsShort(id);
    for k := 0 to |table|
      invariant r == if InTable(table[..k], id) then NormalizedId(id) else id
    {
      assert table[..k + 1] == table[..k] + [table[k]];
      assert table[k] in table && table[k] in table[..k + 1];
      if r == table[k].0 {
        r := table[k].1;
      }
    }
    assert table[..|table|] == table;
  }

  lemma IsCalledSnoc(ms: seq<Message>, m: Message)
    ensures forall id: Id :: IsCalled(ms + [m], id) <==> IsCalled(ms, id) || (m.Assistant? && CallsIn(m.assistant.content, id))
  {
    var all := ms + [m];
    forall id: Id
      ensures IsCalled(all, id) <==> IsCalled(ms, id) || (m.Assistant? && CallsIn(m.assistant.content, id))
    {
      if IsCalled(ms, id) {
        var i :| 0 <= i < |ms| && ms[i].Assistant? && CallsIn(ms[i].assistant.content, id);
        assert all[i] == ms[i];
      }
      if m.Assistant? && CallsIn(m.assistant.content, id) {
        assert all[|ms|] == m;
      }
    }
  }

  lemma TableGrows(table: Renames, ms: seq<Message>, pairs: Renames, m: Message)
    requires TableOf(table, ms)
    requires if m.Assistant? then PartTableOf(pairs, m.assistant.content) else pairs == []
    ensures TableOf(table + pairs, ms + [m])
  {
    IsCalledSnoc(ms, m);
    forall id: Id | |id| > MAX_ID && IsCalled(ms + [m], id)
      ensures InTable(table + pairs, id)
    {
      if IsCalled(ms, id) {
        var p :| p in table && p.0 == id;
        assert p in table + pairs;
      } else {
        var p :| p in pairs && p.0 == id;
        assert p in table + pairs;
      }
    }
  }

  /** What the first of the two loops leaves of a message: calls renamed, results as they were. */
  function CallsRenamed(m: Message): Message {
    if m.Assistant? then Assistant(m.assistant.(content := RenameCalls(m.assistant.content))) else m
  }

  method RenameAllCalls(messages: array<Message>) returns (panicked: bool, table: Renames)
    modifies messages
    ensures panicked <==> HasUnsliceable(old(messages[..]))
    ensures !panicked ==> messages[..] == Map(old(messages[..]), m => CallsRenamed(m))
    ensures !panicked ==> TableOf(table, old(messages[..]))
  {
    table := [];
    ghost var ms := messages[..];
    for i := 0 to messages.Length
      invariant forall k | 0 <= k < i :: messages[k] == CallsRenamed(ms[k])
      invariant forall k | i <= k < messages.Length :: messages[k] == ms[k]
      invariant !HasUnsliceable(ms[..i])
      invariant TableOf(table, ms[..i])
    {
      ghost var m := ms[i];
      assert ms[..i + 1] == ms[..i] + [m];
      if messages[i].Assistant? {
        var a := messages[i].assistant;
        var broke, content, pairs := RenameCallsIn(a.content);
        if broke {
          assert ms[i].Assistant? && UnsliceableIn(ms[i].assistant.content);
          return true, table;
        }
        messages[i] := Assistant(a.(content := content));
        TableGrows(table, ms[..i], pairs, m);
        table := table + pairs;
      } else {
        TableGrows(table, ms[..i], [], m);
        assert table + [] == table;
      }
    }
    assert ms[..|ms|] == ms;
    return false, table;
  }

  lemma RelabelOne(ms: seq<Message>, m: Message)
    ensures CallsRenamed(m).ToolResult? <==> m.ToolResult?
    ensures Renamed(ms, m) == if m.ToolResult? then ToolResult(m.result.(toolCallId := ResultId(ms, m.result.toolCallId)))
                              else CallsRenamed(m)
  {}

  method RelabelResults(messages: array<Message>, table: Renames, ghost ms: seq<Message>)
    requires TableOf(table, ms) && messages[..] == Map(ms, m => CallsRenamed(m))
    modifies messages
    ensures messages[..] == RenameAll(ms)
  {
    ghost var was, done := messages[..], RenameAll(ms);
    for i := 0 to messages.Length
      invariant messages[..] == done[..i] + was[i..]
    {
      Advance(done, was, i);
      RelabelOne(ms, ms[i]);
      assert messages[i] == messages[..][i] == CallsRenamed(ms[i]);
      if messages[i].ToolResult? {
        var id := FollowRenames(messages[i].result.toolCallId, table, ms);
        messages[i] := ToolResult(messages[i].result.(toolCallId := id));
      }
    }
  }

  method NormalizeToolCallIds(messages: array<Message>) returns (panicked: bool)
    modifies messages
    ensures panicked <==> HasUnsliceable(old(messages[..]))
    ensures !panicked ==> messages[..] == RenameAll(old(messages[..]))
  {
    ghost var ms := messages[..];
    var table;
    panicked, table := RenameAllCalls(messages);
    if !panicked {
      RelabelResults(messages, table, ms);
    }
  }

  method PadOrphanToolResults(messages: seq<Message>, clock: nat -> Time) returns (r: seq<Message>)
    ensures r == Padded(messages, clock)
  {
    r := [];
    var previousWasAssistant := false;
    for i := 0 to |messages|
      invariant r == PaddedTo(messages, clock, i)
      invariant previousWasAssistant <==> i > 0 && messages[i - 1].Assistant?
    {
      Reassociate(r, PadsFor(messages, clock, i), [messages[i]]);
      if messages[i].ToolResult? && !previousWasAssistant {
        r := r + [Pad(clock(i))];
      }
      previousWasAssistant := messages[i].Assistant?;
      r := r + [messages[i]];
    }
  }

  method TransformMessages(messages: seq<Message>, o: Options, clock: nat -> Time) returns (r: Option<seq<Message>>)
    ensures r == Transformed(messages, o, clock)
  {
    var result := new Message[|messages|](i requires 0 <= i < |messages| => messages[i]);
    assert result[..] == messages;
    if !o.supportsImages {
      DowngradeImages(result);
    }
    DowngradeVideoAudio(result, o);
    DowngradeToolResultMedia(result);
    if !o.preserveThinking {
      RemoveThinkingBlocks(result);
    }
    assert result[..] == Plain(o, messages);
    var panicked := NormalizeToolCallIds(result);
    if panicked {
      return None;
    }
    var padded := PadOrphanToolResults(result[..], clock);
    return Some(padded);
  }
}
