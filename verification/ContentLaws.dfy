/** What the transformation keeps of each message: which parts, in which order, and the text of
    every tool result. */
module ContentLaws {
  import opened Wrappers
  import opened Sequences
  import opened Messages
  import opened TransformTheorems

  // ---- Runs of images ----

  /** A part that is no image, or the first of a run of images. */
  predicate Leads(cs: seq<Content>, i: nat) { i < |cs| && (!cs[i].Image? || i == 0 || !cs[i - 1].Image?) }

  predicate LeadsAfter(cs: seq<Content>, inRun: bool, i: nat) {
    i < |cs| && (!cs[i].Image? || (if i == 0 then !inRun else !cs[i - 1].Image?))
  }

  function LeadsIn(cs: seq<Content>, inRun: bool): nat -> bool { (i: nat) => LeadsAfter(cs, inRun, i) }

  /** What stands for the part at a place. */
  function Stand(cs: seq<Content>, placeholder: Content): nat -> Content {
    (i: nat) => if i < |cs| && !cs[i].Image? then cs[i] else placeholder
  }

  lemma CollapseOne(cs: seq<Content>, placeholder: Content, inRun: bool)
    requires cs != []
    ensures CollapseImages(cs, placeholder, inRun)
            == (if LeadsAfter(cs, inRun, 0) then [Stand(cs, placeholder)(0)] else [])
               + CollapseImages(cs[1..], placeholder, cs[0].Image?)
  {}

  lemma TailAlike(cs: seq<Content>, placeholder: Content, inRun: bool)
    requires cs != []
    ensures forall i: nat | i < |cs| - 1 :: LeadsIn(cs, inRun)(i + 1) == LeadsIn(cs[1..], cs[0].Image?)(i)
    ensures forall i: nat | i < |cs| - 1 :: Stand(cs, placeholder)(i + 1) == Stand(cs[1..], placeholder)(i)
  {}

  /** Collapsing keeps every part that is no image, in order, and one placeholder for each run. */
  lemma {:induction false} CollapsePlaces(cs: seq<Content>, placeholder: Content, inRun: bool) returns (places: seq<nat>)
    ensures Enumerates(places, |cs|, LeadsIn(cs, inRun))
    ensures AllFrom(CollapseImages(cs, placeholder, inRun), places, Stand(cs, placeholder))
    decreases |cs|
  {
    places := [];
    if cs != [] {
      var rest := CollapsePlaces(cs[1..], placeholder, cs[0].Image?);
      var first := LeadsAfter(cs, inRun, 0);
      places := (if first then [0] else []) + Shifted(rest);
      TailAlike(cs, placeholder, inRun);
      assert Enumerates(places, |cs|, LeadsIn(cs, inRun)) by {
        PlacesCons(rest, |cs| - 1, LeadsIn(cs[1..], cs[0].Image?), LeadsIn(cs, inRun));
      }
      assert AllFrom(CollapseImages(cs, placeholder, inRun), places, Stand(cs, placeholder)) by {
        assert forall j | 0 <= j < |rest| :: rest[j] in rest;
        CollapseOne(cs, placeholder, inRun);
        AllFromCons(CollapseImages(cs[1..], placeholder, cs[0].Image?), rest, Stand(cs[1..], placeholder), first,
                    Stand(cs, placeholder));
      }
    }
  }

  // ---- The parts of a message ----

  /** The parts that stay: all, or all but the images that follow another. */
  function Stays(o: Options, cs: seq<Content>): nat -> bool { (i: nat) => i < |cs| && (o.supportsImages || Leads(cs, i)) }

  /** What becomes of a part of a user message or a result, before results are flattened. */
  function PartOut(o: Options, placeholder: Content, c: Content): Content {
    if c.Image? && !o.supportsImages then placeholder
    else if c.Video? && !o.supportsVideo then Text("[video: " + c.mime + "]", None)
    else if c.Audio? && !o.supportsAudio then Text("[audio: " + c.mime + "]", None)
    else c
  }

  predicate PartsAt(o: Options, placeholder: Content, cs: seq<Content>, places: seq<nat>, r: seq<Content>) {
    |r| == |places| && forall j | 0 <= j < |r| :: places[j] < |cs| && r[j] == PartOut(o, placeholder, cs[places[j]])
  }

  /** The content after the first two passes. */
  function Media(o: Options, placeholder: Content, cs: seq<Content>): seq<Content> {
    var a := if o.supportsImages then cs else CollapseImages(cs, placeholder, false);
    if o.supportsVideo && o.supportsAudio then a else Each(o, a)
  }

  lemma MediaPlaces(o: Options, placeholder: Content, cs: seq<Content>) returns (places: seq<nat>)
    requires placeholder.Text?
    ensures Enumerates(places, |cs|, Stays(o, cs)) && PartsAt(o, placeholder, cs, places, Media(o, placeholder, cs))
  {
    if o.supportsImages {
      places := AllPlaces(|cs|, Stays(o, cs));
    } else {
      places := CollapsePlaces(cs, placeholder, false);
      assert forall i: nat :: LeadsIn(cs, false)(i) == Stays(o, cs)(i);
      assert forall j | 0 <= j < |places| :: places[j] in places;
    }
    PartsAreMedia(o, placeholder, cs, places);
  }

  lemma PartsAreMedia(o: Options, placeholder: Content, cs: seq<Content>, places: seq<nat>)
    requires placeholder.Text? && forall j | 0 <= j < |places| :: places[j] < |cs|
    requires if o.supportsImages then |places| == |cs| && forall i | 0 <= i < |cs| :: places[i] == i
             else AllFrom(CollapseImages(cs, placeholder, false), places, Stand(cs, placeholder))
    ensures PartsAt(o, placeholder, cs, places, Media(o, placeholder, cs))
  {
    var a := if o.supportsImages then cs else CollapseImages(cs, placeholder, false);
    forall j | 0 <= j < |a|
      ensures Media(o, placeholder, cs)[j] == PartOut(o, placeholder, cs[places[j]])
    {
      assert a[j] == if o.supportsImages then cs[places[j]] else Stand(cs, placeholder)(places[j]);
    }
  }

  // ---- The text of a result ----

  predicate Spoken(c: Content) { !c.Thinking? && !c.Call? }

  /** The line that a part of a result becomes. */
  function LineOut(o: Options, c: Content): string
    requires Spoken(c)
  {
    if c.Text? then c.text
    else if c.Image? then (if o.supportsImages then "[image: " + c.mime + "]" else TOOL_PLACEHOLDER.text)
    else if c.Video? then "[video: " + c.mime + "]"
    else "[audio: " + c.mime + "]"
  }

  function IsSpoken(cs: seq<Content>): nat -> bool { (i: nat) => i < |cs| && Spoken(cs[i]) }

  function StaysSpoken(o: Options, cs: seq<Content>): nat -> bool { (i: nat) => Stays(o, cs)(i) && Spoken(cs[i]) }

  function PlainLine(c: Content): string
    requires Spoken(c)
  {
    if c.Text? then c.text
    else if c.Image? then "[image: " + c.mime + "]"
    else if c.Video? then "[video: " + c.mime + "]"
    else "[audio: " + c.mime + "]"
  }

  lemma {:induction false} TextPartsPlaces(cs: seq<Content>) returns (places: seq<nat>)
    ensures Enumerates(places, |cs|, IsSpoken(cs))
    ensures |TextParts(cs)| == |places|
    ensures forall j | 0 <= j < |places| ::
              places[j] < |cs| && Spoken(cs[places[j]]) && TextParts(cs)[j] == PlainLine(cs[places[j]])
  {
    places := [];
    if cs != [] {
      var n := |cs| - 1;
      var before := TextPartsPlaces(cs[..n]);
      PlacesSnoc(before, n, IsSpoken(cs[..n]), IsSpoken(cs));
      places := before + (if Spoken(cs[n]) then [n] else []);
    }
  }

  /** Where line `j` begins. */
  function Offset(lines: seq<string>, j: nat): nat
    requires j <= |lines|
  {
    if j == 0 then 0 else Offset(lines, j - 1) + |lines[j - 1]| + 1
  }

  /** Line `j` stands in the text at its offset, with a newline after it unless it is the last. */
  predicate LineStands(text: string, lines: seq<string>, j: nat)
    requires j < |lines|
  {
    var from, to := Offset(lines, j), Offset(lines, j) + |lines[j]|;
    to <= |text| && text[from..to] == lines[j] && (j + 1 < |lines| ==> to < |text| && text[to] == '\n')
  }

  /** The text is the lines one after the other, with a newline between each two. */
  ghost predicate Joined(text: string, lines: seq<string>) {
    && |text| == (if lines == [] then 0 else Offset(lines, |lines|) - 1)
    && forall j | 0 <= j < |lines| :: LineStands(text, lines, j)
  }

  lemma {:induction false} OffsetPrefix(lines: seq<string>, more: seq<string>, j: nat)
    requires j <= |lines|
    ensures Offset(lines + more, j) == Offset(lines, j)
  {
    if j > 0 {
      OffsetPrefix(lines, more, j - 1);
    }
  }

  lemma StandsInLonger(text: string, lines: seq<string>, last: string, j: nat)
    requires j < |lines| && Joined(text, lines)
    ensures LineStands(text + ("\n" + last), lines + [last], j)
  {
    OffsetPrefix(lines, [last], j);
    OffsetPrefix(lines, [last], |lines|);
    assert LineStands(text, lines, j);
    var from, to, longer := Offset(lines, j), Offset(lines, j) + |lines[j]|, text + ("\n" + last);
    assert longer[from..to] == text[from..to];
    if j + 1 == |lines| {
      assert Offset(lines, |lines|) == to + 1;
      assert longer[to] == '\n';
    }
  }

  lemma {:induction false} JoinIsJoined(lines: seq<string>)
    ensures Joined(JoinLines(lines), lines)
  {
    if |lines| == 1 {
      assert Offset(lines, 1) == |lines[0]| + 1;
    } else if |lines| > 1 {
      var front, last := lines[..|lines| - 1], lines[|lines| - 1];
      JoinIsJoined(front);
      assert lines == front + [last];
      JoinedSnoc(JoinLines(front), front, last);
      assert JoinLines(lines) == JoinLines(front) + ("\n" + last);
    }
  }

  lemma JoinedSnoc(text: string, lines: seq<string>, last: string)
    requires lines != [] && Joined(text, lines)
    ensures Joined(text + ("\n" + last), lines + [last])
  {
    var longer, all := text + ("\n" + last), lines + [last];
    OffsetPrefix(lines, [last], |lines|);
    assert Offset(all, |all|) == Offset(lines, |lines|) + |last| + 1;
    forall j | 0 <= j < |all|
      ensures LineStands(longer, all, j)
    {
      if j < |lines| {
        StandsInLonger(text, lines, last, j);
      } else {
        assert longer[|text| + 1..] == last && longer[Offset(all, j)..Offset(all, j) + |last|] == longer[|text| + 1..];
      }
    }
  }

  // ---- Message by message ----

  lemma OutputIs(ms: seq<Message>, o: Options, clock: nat -> Time, i: nat)
    requires !HasUnsliceable(ms) && i < |ms|
    ensures Transformed(ms, o, clock).Some?
    ensures var out := Transformed(ms, o, clock).value;
            Place(ms, i) < |out| && out[Place(ms, i)] == Renamed(Plain(o, ms), PlainOne(o, ms[i]))
  {
    OutputAt(ms, o, clock, i);
    PlainIsPointwise(o, ms);
  }

  /** A user message keeps everything but that each run of images the target cannot take is one
      note, and a video or audio it cannot take is named by its type. */
  lemma UserKeepsContent(ms: seq<Message>, o: Options, clock: nat -> Time, i: nat) returns (places: seq<nat>)
    requires !HasUnsliceable(ms) && i < |ms| && ms[i].User?
    ensures Transformed(ms, o, clock).Some?
    ensures var out, cs := Transformed(ms, o, clock).value, ms[i].user.content;
            && Place(ms, i) < |out| && out[Place(ms, i)].User?
            && Enumerates(places, |cs|, Stays(o, cs))
            && PartsAt(o, USER_PLACEHOLDER, cs, places, out[Place(ms, i)].user.content)
            && out[Place(ms, i)].user == ms[i].user.(content := out[Place(ms, i)].user.content)
  {
    OutputIs(ms, o, clock, i);
    places := MediaPlaces(o, USER_PLACEHOLDER, ms[i].user.content);
    assert PlainOne(o, ms[i]).User? && PlainOne(o, ms[i]).user.content == Media(o, USER_PLACEHOLDER, ms[i].user.content);
  }

  lemma SpokenStays(o: Options, cs: seq<Content>, p: seq<nat>, media: seq<Content>)
    requires Enumerates(p, |cs|, Stays(o, cs)) && PartsAt(o, TOOL_PLACEHOLDER, cs, p, media)
    ensures forall j | 0 <= j < |p| :: IsSpoken(media)(j) == StaysSpoken(o, cs)(p[j])
    ensures forall j | 0 <= j < |p| && Spoken(media[j]) :: Spoken(cs[p[j]]) && PlainLine(media[j]) == LineOut(o, cs[p[j]])
  {
    assert forall j | 0 <= j < |p| :: p[j] in p;
  }

  lemma LinesPlaces(o: Options, cs: seq<Content>) returns (places: seq<nat>)
    ensures Enumerates(places, |cs|, StaysSpoken(o, cs))
    ensures var lines := TextParts(Media(o, TOOL_PLACEHOLDER, cs));
            |lines| == |places| && forall j | 0 <= j < |places| ::
              places[j] < |cs| && Spoken(cs[places[j]]) && lines[j] == LineOut(o, cs[places[j]])
  {
    var media := Media(o, TOOL_PLACEHOLDER, cs);
    var p := MediaPlaces(o, TOOL_PLACEHOLDER, cs);
    var q := TextPartsPlaces(media);
    SpokenStays(o, cs, p, media);
    PlacesOfPlaces(p, |cs|, Stays(o, cs), q, IsSpoken(media), StaysSpoken(o, cs));
    places := Picked(p, q);
  }

  /** A tool result keeps its text: line by line, in order, what each of its parts says, with a
      newline between each two; and everything else but the id. */
  lemma ResultKeepsText(ms: seq<Message>, o: Options, clock: nat -> Time, i: nat)
    returns (places: seq<nat>, lines: seq<string>, text: string)
    requires !HasUnsliceable(ms) && i < |ms| && ms[i].ToolResult?
    ensures Transformed(ms, o, clock).Some?
    ensures var out, cs := Transformed(ms, o, clock).value, ms[i].result.content;
            && Place(ms, i) < |out| && out[Place(ms, i)].ToolResult?
            && Enumerates(places, |cs|, StaysSpoken(o, cs)) && |lines| == |places|
            && (forall j | 0 <= j < |places| :: places[j] < |cs| && Spoken(cs[places[j]]) && lines[j] == LineOut(o, cs[places[j]]))
            && Joined(text, lines)
            && out[Place(ms, i)].result
               == ms[i].result.(content := [Text(text, None)], toolCallId := out[Place(ms, i)].result.toolCallId)
  {
    OutputIs(ms, o, clock, i);
    var cs := ms[i].result.content;
    places := LinesPlaces(o, cs);
    lines := TextParts(Media(o, TOOL_PLACEHOLDER, cs));
    text := JoinLines(lines);
    JoinIsJoined(lines);
    assert PlainOne(o, ms[i]).ToolResult? && PlainOne(o, ms[i]).result == ms[i].result.(content := [Text(text, None)]);
  }

  // ---- Assistant messages ----

  function Heard(o: Options, cs: seq<Content>): nat -> bool {
    (i: nat) => i < |cs| && (o.preserveThinking || !cs[i].Thinking?)
  }

  lemma {:induction false} DropIsFilter(cs: seq<Content>)
    ensures DropThinking(cs) == Filter(cs, (c: Content) => !c.Thinking?)
  {
    if cs != [] {
      DropIsFilter(cs[..|cs| - 1]);
    }
  }

  lemma DropPlaces(cs: seq<Content>) returns (places: seq<nat>)
    ensures Enumerates(places, |cs|, i => 0 <= i < |cs| && !cs[i].Thinking?)
    ensures |DropThinking(cs)| == |places|
    ensures forall j | 0 <= j < |places| :: places[j] < |cs| && DropThinking(cs)[j] == cs[places[j]]
  {
    DropIsFilter(cs);
    places := FilterPlaces(cs, (c: Content) => !c.Thinking?);
  }

  /** A part of an assistant message stays as it is; a call only has its id shortened. */
  predicate HeardAs(c: Content, r: Content) {
    if c.Call? then r == Call(c.call.(id := NormalizedId(c.call.id))) else r == c
  }

  /** What the passes but the last make of an assistant message. */
  lemma HeardPlaces(o: Options, ms: seq<Message>, m: Message) returns (places: seq<nat>)
    requires m.Assistant?
    ensures Enumerates(places, |m.assistant.content|, Heard(o, m.assistant.content))
    ensures var cs, r := m.assistant.content, Renamed(ms, PlainOne(o, m));
            && r.Assistant? && |r.assistant.content| == |places|
            && (forall j | 0 <= j < |places| :: places[j] < |cs| && HeardAs(cs[places[j]], r.assistant.content[j]))
            && r.assistant == m.assistant.(content := r.assistant.content)
  {
    var cs := m.assistant.content;
    if o.preserveThinking {
      places := AllPlaces(|cs|, Heard(o, cs));
      assert PlainOne(o, m) == m;
    } else {
      places := DropPlaces(cs);
      assert forall i: nat :: Heard(o, cs)(i) == (0 <= i < |cs| && !cs[i].Thinking?);
      assert PlainOne(o, m) == Assistant(m.assistant.(content := DropThinking(cs)));
    }
  }

  /** An assistant message keeps everything but its thinking, if that is not preserved, and long
      call ids. */
  lemma AssistantKeepsContent(ms: seq<Message>, o: Options, clock: nat -> Time, i: nat) returns (places: seq<nat>)
    requires !HasUnsliceable(ms) && i < |ms| && ms[i].Assistant?
    ensures Transformed(ms, o, clock).Some?
    ensures var out, cs := Transformed(ms, o, clock).value, ms[i].assistant.content;
            && Place(ms, i) < |out| && out[Place(ms, i)].Assistant?
            && Enumerates(places, |cs|, Heard(o, cs))
            && var r := out[Place(ms, i)].assistant;
            && |r.content| == |places|
            && (forall j | 0 <= j < |places| :: places[j] < |cs| && HeardAs(cs[places[j]], r.content[j]))
            && r == ms[i].assistant.(content := r.content)
  {
    OutputIs(ms, o, clock, i);
    places := HeardPlaces(o, Plain(o, ms), ms[i]);
  }

  /** Ids of up to 64 bytes stay; a longer one keeps its last 8 bytes, behind "call_" and its hash. */
  lemma NormalizedIdIs(id: Id)
    ensures |id| <= 64 ==> NormalizedId(id) == id
    ensures |id| > 64 ==>
              && NormalizedId(id) == [0x63, 0x61, 0x6C, 0x6C, 0x5F] + ShortHash(id) + id[|id| - 8..]
              && 8 <= |ShortHash(id)| <= 16
  {
    ShortHashLength(id);
  }

  // ---- Padding ----

  /** In the output every result comes right after an assistant message. */
  lemma ResultsComeAfterAssistants(ms: seq<Message>, o: Options, clock: nat -> Time, k: nat)
    requires !HasUnsliceable(ms)
    ensures Transformed(ms, o, clock).Some?
    ensures var out := Transformed(ms, o, clock).value;
            k < |out| && out[k].ToolResult? ==> k > 0 && out[k - 1].Assistant?
  {
    TransformTheorems.PanicsExactlyWhen(ms, o, clock);
    TransformSettles(ms, o, clock);
    var out := Transformed(ms, o, clock).value;
    if k < |out| {
      assert !NeedsPad(out, k);
    }
  }

  /** A pad is put exactly before a result that has no assistant message right before it; it says
      nothing, and has the time at which it is made. */
  lemma PadsAreEmpty(ms: seq<Message>, i: nat, now: Time)
    requires i < |ms|
    ensures NeedsPad(ms, i) <==> ms[i].ToolResult? && !(i > 0 && ms[i - 1].Assistant?)
    ensures Place(ms, i) == i + |set j: nat | j <= i && NeedsPad(ms, j)|
    ensures var pad := Pad(now);
            && pad.Assistant? && pad.assistant.content == [] && pad.assistant.timestamp == now
            && pad.assistant.provider == "system" && pad.assistant.stopReason == ToolUse
            && pad.assistant.usage == Usage(0, 0, None, None, 0)
  {
    PadsAreCounted(ms, i + 1);
    assert (set j: nat | j <= i && NeedsPad(ms, j)) == (set j: nat | j < i + 1 && NeedsPad(ms, j));
  }

  lemma {:induction false} PadsAreCounted(ms: seq<Message>, n: nat)
    requires n <= |ms|
    ensures PadsBefore(ms, n) == |set j: nat | j < n && NeedsPad(ms, j)|
  {
    var padded := set j: nat | j < n && NeedsPad(ms, j);
    if n == 0 {
      assert padded == {};
    } else {
      PadsAreCounted(ms, n - 1);
      assert padded == (set j: nat | j < n - 1 && NeedsPad(ms, j)) + (if NeedsPad(ms, n - 1) then {n - 1} else {});
    }
  }
}
