/** Provider messages, and the six passes that make a message list fit another provider,
    each given as what it does to a list. */
module Messages {
  import opened Wrappers
  import opened Words
  import opened Json

  newtype byte = x: int | 0 <= x < 0x100

  /** Tool call ids are UTF-8 text and are cut by byte position, so they are bytes here. */
  type Id = seq<byte>

  type Time = int

  datatype ToolCall = ToolCall(id: Id, name: string, arguments: Value, thoughtSignature: Option<string>)

  datatype Content =
    | Text(text: string, signature: Option<string>)
    | Image(data: string, mime: string)
    | Video(data: string, mime: string)
    | Audio(data: string, mime: string)
    | Thinking(thinking: string, signature: Option<string>, redacted: bool)
    | Call(call: ToolCall)

  datatype Api = Api(provider: string, model: string)

  datatype Usage = Usage(input: nat, output: nat, cacheCreation: Option<nat>, cacheRead: Option<nat>, total: nat)

  datatype StopReason = Stop | Length | ToolUse | Error | Aborted

  datatype UserMessage = UserMessage(content: seq<Content>, timestamp: Time)

  datatype AssistantMessage = AssistantMessage(
    content: seq<Content>, provider: string, api: Api, model: string, usage: Usage,
    stopReason: StopReason, responseId: Option<string>, errorMessage: Option<string>, timestamp: Time)

  datatype ToolResultMessage = ToolResultMessage(
    toolCallId: Id, toolName: string, content: seq<Content>, details: Option<Value>, isError: bool, timestamp: Time)

  datatype Message = User(user: UserMessage) | Assistant(assistant: AssistantMessage) | ToolResult(result: ToolResultMessage)

  datatype Options = Options(supportsImages: bool, supportsVideo: bool, supportsAudio: bool, preserveThinking: bool)

  // ---- Passes 1 to 4: one message at a time ----

  const USER_PLACEHOLDER := Text("(image omitted: model does not support images)", None)
  const TOOL_PLACEHOLDER := Text("(tool image omitted: model does not support images)", None)

  /** Each run of images becomes one placeholder; `inRun` says whether one was just made. */
  function CollapseImages(cs: seq<Content>, placeholder: Content, inRun: bool): seq<Content> {
    if cs == [] then []
    else if cs[0].Image? then
      (if inRun then [] else [placeholder]) + CollapseImages(cs[1..], placeholder, true)
    else [cs[0]] + CollapseImages(cs[1..], placeholder, false)
  }

  function WithoutImages(m: Message): Message {
    match m
    case User(u) => User(u.(content := CollapseImages(u.content, USER_PLACEHOLDER, false)))
    case ToolResult(t) => ToolResult(t.(content := CollapseImages(t.content, TOOL_PLACEHOLDER, false)))
    case Assistant(_) => m
  }

  function Downgraded(o: Options, c: Content): Content {
    if c.Video? && !o.supportsVideo then Text("[video: " + c.mime + "]", None)
    else if c.Audio? && !o.supportsAudio then Text("[audio: " + c.mime + "]", None)
    else c
  }

  function Each(o: Options, cs: seq<Content>): (r: seq<Content>)
    ensures |r| == |cs|
  {
    seq(|cs|, i requires 0 <= i < |cs| => Downgraded(o, cs[i]))
  }

  function WithoutVideoAudio(o: Options, m: Message): Message {
    match m
    case User(u) => User(u.(content := Each(o, u.content)))
    case ToolResult(t) => ToolResult(t.(content := Each(o, t.content)))
    case Assistant(_) => m
  }

  function TextParts(cs: seq<Content>): seq<string> {
    if cs == [] then []
    else
      TextParts(cs[..|cs| - 1]) +
      match cs[|cs| - 1]
      case Text(text, _) => [text]
      case Image(_, mime) => ["[image: " + mime + "]"]
      case Video(_, mime) => ["[video: " + mime + "]"]
      case Audio(_, mime) => ["[audio: " + mime + "]"]
      case _ => []
  }

  function JoinLines(parts: seq<string>): string {
    if parts == [] then ""
    else if |parts| == 1 then parts[0]
    else JoinLines(parts[..|parts| - 1]) + "\n" + parts[|parts| - 1]
  }

  function Flattened(m: Message): Message {
    if m.ToolResult? then ToolResult(m.result.(content := [Text(JoinLines(TextParts(m.result.content)), None)])) else m
  }

  function DropThinking(cs: seq<Content>): seq<Content> {
    if cs == [] then []
    else DropThinking(cs[..|cs| - 1]) + (if cs[|cs| - 1].Thinking? then [] else [cs[|cs| - 1]])
  }

  function WithoutThinking(m: Message): Message {
    if m.Assistant? then Assistant(m.assistant.(content := DropThinking(m.assistant.content))) else m
  }

  function Map(ms: seq<Message>, f: Message -> Message): (r: seq<Message>)
    ensures |r| == |ms|
    ensures forall i | 0 <= i < |ms| :: r[i] == f(ms[i])
  {
    seq(|ms|, i requires 0 <= i < |ms| => f(ms[i]))
  }

  // ---- Pass 5: tool call ids ----

  const MAX_ID := 64
  const CALL_PREFIX: Id := [0x63, 0x61, 0x6C, 0x6C, 0x5F]

  /** Bitwise exclusive or. */
  function Xor(a: nat, b: nat): nat {
    if a == 0 then b
    else if b == 0 then a
    else 2 * Xor(a / 2, b / 2) + (if a % 2 == b % 2 then 0 else 1)
  }

  /** FNV-1a over the bytes, in 64-bit wrapping arithmetic. */
  function FnvStep(h: nat, b: byte): nat { Xor(h, b as nat) * 0x100_0000_01b3 % U64_SIZE }

  function Fnv(s: Id): nat {
    if s == [] then 0xcbf2_9ce4_8422_2325 else FnvStep(Fnv(s[..|s| - 1]), s[|s| - 1])
  }

  /** A published value of the hash: that of the one letter "a". */
  lemma FnvOfA()
    ensures Fnv([0x61]) == 0xaf63_dc4c_8601_ec8c
  {
    FnvStepOfA();
    var empty: Id := [];
    assert [0x61 as byte][..0] == empty;
    assert Fnv(empty) == 0xcbf2_9ce4_8422_2325;
  }

  lemma FnvStepOfA()
    ensures FnvStep(0xcbf2_9ce4_8422_2325, 0x61) == 0xaf63_dc4c_8601_ec8c
  {
    assert Xor(0x197e539c9084446, 0x0) == 0x197e539c9084446;
    assert Xor(0x32fca739210888c, 0x1) == 0x32fca739210888d;
    assert Xor(0x65f94e724211119, 0x3) == 0x65f94e72421111a;
    assert Xor(0xcbf29ce48422232, 0x6) == 0xcbf29ce48422234;
    assert Xor(0x197e539c90844464, 0xc) == 0x197e539c90844468;
    assert Xor(0x32fca739210888c9, 0x18) == 0x32fca739210888d1;
    assert Xor(0x65f94e7242111192, 0x30) == 0x65f94e72421111a2;
    assert Xor(0xcbf29ce484222325, 0x61) == 0xcbf29ce484222344;
  }

  /** The splitmix64 finalizer; a right shift by n bits is a division by 2 to the n. */
  function Mixed(h: nat): nat {
    var a := (h + 0x9e37_79b9_7f4a_7c15) % U64_SIZE;
    var b := Xor(a, a / 0x4000_0000) * 0xbf58_476d_1ce4_e5b9 % U64_SIZE;
    var c := Xor(b, b / 0x800_0000) * 0x94d0_49bb_1331_11eb % U64_SIZE;
    Xor(c, c / 0x8000_0000)
  }

  function HexDigit(n: nat): byte
    requires n < 16
  {
    if n < 10 then (0x30 + n) as byte else (0x57 + n) as byte
  }

  function Hex(n: nat): Id {
    if n < 16 then [HexDigit(n)] else Hex(n / 16) + [HexDigit(n % 16)]
  }

  function ZeroPad(s: Id, width: nat): (r: Id)
    ensures |r| == if |s| < width then width else |s|
    decreases width - |s|
  {
    if |s| >= width then s else ZeroPad([0x30] + s, width)
  }

  function ShortHash(s: Id): Id { ZeroPad(Hex(Mixed(Fnv(s))), 8) }

  lemma {:induction false} HexLength(n: nat, k: nat)
    requires n < Power(16, k) && k > 0
    ensures 1 <= |Hex(n)| <= k
    decreases k
  {
    if n >= 16 {
      assert k > 1;
      HexLength(n / 16, k - 1);
    }
  }

  lemma {:induction false} XorFits(a: nat, b: nat, k: nat)
    requires a < Power(2, k) && b < Power(2, k)
    ensures Xor(a, b) < Power(2, k)
    decreases k
  {
    if a > 0 && b > 0 {
      XorFits(a / 2, b / 2, k - 1);
    }
  }

  lemma WordIsPower()
    ensures Power(2, 64) == U64_SIZE == Power(16, 16)
  {
    assert Power(2, 8) == 0x100 && Power(16, 4) == 0x1_0000;
    PowerSplits(2, 8, 8);
    PowerSplits(2, 16, 16);
    PowerSplits(2, 32, 32);
    PowerSplits(16, 4, 4);
    PowerSplits(16, 8, 8);
  }

  lemma ShortHashLength(s: Id)
    ensures 8 <= |ShortHash(s)| <= 16
  {
    WordIsPower();
    var a := (Fnv(s) + 0x9e37_79b9_7f4a_7c15) % U64_SIZE;
    var b := Xor(a, a / 0x4000_0000) * 0xbf58_476d_1ce4_e5b9 % U64_SIZE;
    var c := Xor(b, b / 0x800_0000) * 0x94d0_49bb_1331_11eb % U64_SIZE;
    XorFits(c, c / 0x8000_0000, 64);
    HexLength(Mixed(Fnv(s)), 16);
  }

  /** A byte that continues a character: no slice may begin there. */
  predicate Continues(b: byte) { 0x80 <= b < 0xC0 }

  /** Whether shortening the id would slice inside a character, which panics. */
  predicate Unsliceable(id: Id) { |id| > MAX_ID && Continues(id[|id| - 8]) }

  function NormalizedId(id: Id): Id {
    if |id| <= MAX_ID then id else CALL_PREFIX + ShortHash(id) + id[|id| - 8..]
  }

  lemma NormalizedIdIsShort(id: Id)
    ensures |NormalizedId(id)| <= MAX_ID
    ensures |id| > MAX_ID ==> 21 <= |NormalizedId(id)| <= 29
  {
    ShortHashLength(id);
  }

  function RenameCalls(cs: seq<Content>): (r: seq<Content>)
    ensures |r| == |cs|
  {
    seq(|cs|, i requires 0 <= i < |cs| => RenameCall(cs[i]))
  }

  function RenameCall(c: Content): Content {
    if c.Call? then Call(c.call.(id := NormalizedId(c.call.id))) else c
  }

  /** Some assistant message calls a tool under this id. */
  predicate IsCalled(ms: seq<Message>, id: Id) {
    exists i | 0 <= i < |ms| :: ms[i].Assistant? && CallsIn(ms[i].assistant.content, id)
  }

  predicate CallsIn(cs: seq<Content>, id: Id) {
    exists j | 0 <= j < |cs| :: cs[j].Call? && cs[j].call.id == id
  }

  /** The id of a result follows the call it names, if there is one. */
  function ResultId(ms: seq<Message>, id: Id): Id { if IsCalled(ms, id) then NormalizedId(id) else id }

  /** What becomes of one message of `ms`. */
  function Renamed(ms: seq<Message>, m: Message): Message {
    match m
    case Assistant(a) => Assistant(a.(content := RenameCalls(a.content)))
    case ToolResult(t) => ToolResult(t.(toolCallId := ResultId(ms, t.toolCallId)))
    case User(_) => m
  }

  function RenameAll(ms: seq<Message>): (r: seq<Message>)
    ensures |r| == |ms|
  {
    Map(ms, m => Renamed(ms, m))
  }

  /** An id that would have to be sliced inside a character. */
  predicate HasUnsliceable(ms: seq<Message>) {
    exists i | 0 <= i < |ms| :: ms[i].Assistant? && UnsliceableIn(ms[i].assistant.content)
  }

  predicate UnsliceableIn(cs: seq<Content>) {
    exists j | 0 <= j < |cs| :: cs[j].Call? && Unsliceable(cs[j].call.id)
  }

  // ---- Pass 6: padding ----

  function Pad(now: Time): Message {
    Assistant(AssistantMessage([], "system", Api("transform", ""), "", Usage(0, 0, None, None, 0),
                               ToolUse, None, None, now))
  }

  predicate NeedsPad(ms: seq<Message>, i: nat)
    requires i < |ms|
  {
    ms[i].ToolResult? && (i == 0 || !ms[i - 1].Assistant?)
  }

  /** The list with a pad before every result that does not follow an assistant message;
      `clock(i)` is the time read while message `i` is handled. */
  function Padded(ms: seq<Message>, clock: nat -> Time): seq<Message> { PaddedTo(ms, clock, |ms|) }

  /** What the first `n` messages become. */
  function PaddedTo(ms: seq<Message>, clock: nat -> Time, n: nat): seq<Message>
    requires n <= |ms|
  {
    if n == 0 then [] else PaddedTo(ms, clock, n - 1) + (PadsFor(ms, clock, n - 1) + [ms[n - 1]])
  }

  /** What message `n` is preceded by in the padded list. */
  function PadsFor(ms: seq<Message>, clock: nat -> Time, n: nat): seq<Message>
    requires n < |ms|
  {
    if NeedsPad(ms, n) then [Pad(clock(n))] else []
  }

  // ---- The pipeline ----

  function Plain(o: Options, ms: seq<Message>): seq<Message> {
    var a := if o.supportsImages then ms else Map(ms, m => WithoutImages(m));
    var b := if o.supportsVideo && o.supportsAudio then a else Map(a, m => WithoutVideoAudio(o, m));
    var c := Map(b, m => Flattened(m));
    if o.preserveThinking then c else Map(c, m => WithoutThinking(m))
  }

  /** The transformed list, or None where an id makes the source panic. */
  function Transformed(ms: seq<Message>, o: Options, clock: nat -> Time): Option<seq<Message>> {
    var plain := Plain(o, ms);
    if HasUnsliceable(plain) then None
    else Some(Padded(RenameAll(plain), clock))
  }
}
