/** Repairing malformed JSON text: a scan that normalizes strings and drops stray commas and
    control characters, and a bracket machine that appends what is left open. */
module JsonRepair {
  import opened Wrappers
  import opened Sequences

  predicate IsWhitespace(c: char) {
    var n := c as int;
    (9 <= n <= 13) || n == 0x20 || n == 0x85 || n == 0xA0 || n == 0x1680 || (0x2000 <= n <= 0x200A)
    || n == 0x2028 || n == 0x2029 || n == 0x202F || n == 0x205F || n == 0x3000
  }

  predicate IsControl(c: char) { (c as int) < 0x20 || 0x7F <= c as int < 0xA0 }

  function TrimStart(s: string): string
    decreases |s|
  {
    if s != "" && IsWhitespace(s[0]) then TrimStart(s[1..]) else s
  }

  function TrimEnd(s: string): string {
    if s != "" && IsWhitespace(s[|s| - 1]) then TrimEnd(s[..|s| - 1]) else s
  }

  // ---- The scan ----

  /** What the scan emits: a string delimiter of its own making, or a character of the input. */
  datatype Out = Delimiter | Plain(c: char)

  function Text(outs: seq<Out>): (r: string)
    ensures |r| == |outs|
  {
    seq(|outs|, i requires 0 <= i < |outs| => if outs[i].Delimiter? then '"' else outs[i].c)
  }

  /** The next place from `j` on that is not white space. */
  function SkipSpace(s: string, j: nat): (r: nat)
    requires j <= |s|
    ensures j <= r <= |s|
    decreases |s| - j
  {
    if j < |s| && IsWhitespace(s[j]) then SkipSpace(s, j + 1) else j
  }

  predicate Trailing(s: string, i: nat)
    requires i < |s|
  {
    var j := SkipSpace(s, i + 1);
    j < |s| && (s[j] == ']' || s[j] == '}')
  }

  predicate Closes(s: string, i: nat, quote: char)
    requires i < |s|
  {
    s[i] == quote && (i == 0 || s[i - 1] != '\\')
  }

  /** What one character emits; `quote` is the quote that opened the current string. */
  function Emit(s: string, i: nat, quote: Option<char>): seq<Out>
    requires i < |s|
  {
    var c := s[i];
    match quote
    case Some(q) => if Closes(s, i, q) then [Delimiter] else [Plain(c)]
    case None =>
      if c == '"' || c == '\'' then [Delimiter]
      else if c == ',' then (if Trailing(s, i) then [] else [Plain(c)])
      else if IsControl(c) && !IsWhitespace(c) then []
      else [Plain(c)]
  }

  function QuoteAfter(s: string, i: nat, quote: Option<char>): Option<char>
    requires i < |s|
  {
    match quote
    case Some(q) => if Closes(s, i, q) then None else quote
    case None => if s[i] == '"' || s[i] == '\'' then Some(s[i]) else None
  }

  function ScanFrom(s: string, i: nat, quote: Option<char>): seq<Out>
    requires i <= |s|
    decreases |s| - i
  {
    if i == |s| then (if quote.Some? then [Delimiter] else [])
    else Emit(s, i, quote) + ScanFrom(s, i + 1, QuoteAfter(s, i, quote))
  }

  // ---- The bracket machine ----

  function Push(stack: string, c: char): string {
    if c == '[' || c == '{' then stack + [c]
    else if c == ']' && stack != "" && stack[|stack| - 1] == '[' then stack[..|stack| - 1]
    else if c == '}' && stack != "" && stack[|stack| - 1] == '{' then stack[..|stack| - 1]
    else stack
  }

  function Machine(text: string): string {
    if text == "" then "" else Push(Machine(text[..|text| - 1]), text[|text| - 1])
  }

  function Closer(open: char): char { if open == '[' then ']' else '}' }

  /** The closers of a stack, innermost first. */
  function Closers(stack: string): (r: string)
    ensures |r| == |stack|
  {
    if stack == "" then "" else [Closer(stack[|stack| - 1])] + Closers(stack[..|stack| - 1])
  }

  predicate OnlyOpeners(stack: string) { forall i | 0 <= i < |stack| :: stack[i] == '[' || stack[i] == '{' }

  function Balanced(text: string): string { text + Closers(Machine(text)) }

  function Scanned(s: string): string { Text(ScanFrom(s, 0, None)) }

  /** `valid` says which texts the JSON parser takes. */
  function Repaired(s: string, valid: string -> bool): string {
    var t := TrimEnd(TrimStart(s));
    if valid(t) then t else Balanced(Scanned(t))
  }

  lemma TextOfConcat(a: seq<Out>, b: seq<Out>)
    ensures Text(a + b) == Text(a) + Text(b)
  {
  }

  /** Text emitted so far, then what is still to come. */
  lemma ScanSplits(s: string, i: nat, quote: Option<char>, r: string)
    requires i < |s|
    ensures r + Text(ScanFrom(s, i, quote))
            == (r + Text(Emit(s, i, quote))) + Text(ScanFrom(s, i + 1, QuoteAfter(s, i, quote)))
  {
    TextOfConcat(Emit(s, i, quote), ScanFrom(s, i + 1, QuoteAfter(s, i, quote)));
  }

  method IsTrailing(s: string, i: nat) returns (b: bool)
    requires i < |s|
    ensures b == Trailing(s, i)
  {
    var j := i + 1;
    while j < |s| && IsWhitespace(s[j])
      invariant i < j <= |s| && SkipSpace(s, i + 1) == SkipSpace(s, j)
    {
      j := j + 1;
    }
    b := j < |s| && (s[j] == ']' || s[j] == '}');
  }

  /** One turn of the scan: the text it adds and the quote it is left in. */
  method ScanOne(s: string, i: nat, quote: Option<char>) returns (piece: string, next: Option<char>)
    requires i < |s|
    ensures piece == Text(Emit(s, i, quote)) && next == QuoteAfter(s, i, quote)
  {
    var c := s[i];
    piece, next := [c], quote;
    if quote.Some? {
      if c == quote.value && (i == 0 || s[i - 1] != '\\') {
        piece, next := ['"'], None;
      }
    } else if c == '"' || c == '\'' {
      piece, next := ['"'], Some(c);
    } else if c == ',' {
      var trailing := IsTrailing(s, i);
      if trailing {
        piece := "";
      }
    } else if IsControl(c) && !IsWhitespace(c) && c != '\n' && c != '\r' && c != '\t' {
      piece := "";
    }
  }

  method Scan(s: string) returns (r: string)
    ensures r == Scanned(s)
  {
    r := "";
    var quote: Option<char> := None;
    var i := 0;
    while i < |s|
      invariant i <= |s|
      invariant r + Text(ScanFrom(s, i, quote)) == Scanned(s)
    {
      ScanSplits(s, i, quote, r);
      var piece, next := ScanOne(s, i, quote);
      r, quote, i := r + piece, next, i + 1;
    }
    if quote.Some? {
      r := r + ['"'];
    }
  }

  method Balance(text: string) returns (r: string)
    ensures r == Balanced(text)
  {
    var stack := "";
    for i := 0 to |text|
      invariant stack == Machine(text[..i])
    {
      assert text[..i + 1][..i] == text[..i];
      match text[i] {
        case '[' => stack := stack + ['['];
        case '{' => stack := stack + ['{'];
        case ']' =>
          if stack != "" && stack[|stack| - 1] == '[' {
            stack := stack[..|stack| - 1];
          }
        case '}' =>
          if stack != "" && stack[|stack| - 1] == '{' {
            stack := stack[..|stack| - 1];
          }
        case _ =>
      }
    }
    assert text[..|text|] == text;
    MachineHoldsOpeners(text);
    r := text;
    while stack != ""
      invariant r + Closers(stack) == Balanced(text)
      decreases |stack|
    {
      var open := stack[|stack| - 1];
      stack := stack[..|stack| - 1];
      r := r + [if open == '[' then ']' else '}'];
    }
  }

  method RepairJson(s: string, valid: string -> bool) returns (r: string)
    ensures r == Repaired(s, valid)
  {
    var t := TrimEnd(TrimStart(s));
    if valid(t) {
      return t;
    }
    var scanned := Scan(t);
    r := Balance(scanned);
  }

  // ---- Streaming ----

  function Parsed<V>(s: string, parse: string -> Option<V>): Option<V> {
    parse(Repaired(s, t => parse(t).Some?))
  }

  /** Fragments of a tool call's arguments as they arrive. The JSON parser is a parameter. */
  class StreamingJsonParser<V> {
    const parse: string -> Option<V>
    var buffer: string

    constructor (parse: string -> Option<V>)
      ensures this.parse == parse && buffer == ""
    {
      this.parse := parse;
      buffer := "";
    }

    /** The answer is that for the whole text fed so far, the new fragment at its end. */
    method Feed(delta: string) returns (r: Option<V>)
      modifies this
      ensures buffer == old(buffer) + delta
      ensures r == Parsed(buffer, parse)
    {
      buffer := buffer + delta;
      r := ParseWithRepair();
    }

    method ParseWithRepair() returns (r: Option<V>)
      ensures r == Parsed(buffer, parse)
    {
      var repaired := RepairJson(buffer, t => parse(t).Some?);
      r := parse(repaired);
    }

    /** Before anything has been fed there is no value, even where the parser would take "". */
    method PeekValue() returns (r: Option<V>)
      ensures r == if buffer == "" then None else Parsed(buffer, parse)
    {
      if buffer == "" {
        return None;
      }
      r := ParseWithRepair();
    }
  }

  // ---- What the balancer achieves ----

  lemma {:induction false} MachineHoldsOpeners(text: string)
    ensures OnlyOpeners(Machine(text))
  {
    if text != "" {
      MachineHoldsOpeners(text[..|text| - 1]);
    }
  }

  lemma MachineSnoc(text: string, c: char)
    ensures Machine(text + [c]) == Push(Machine(text), c)
  {
    assert (text + [c])[..|text|] == text;
  }

  lemma {:induction false} ClosersEmptyTheStack(text: string, stack: string)
    requires Machine(text) == stack && OnlyOpeners(stack)
    ensures Machine(text + Closers(stack)) == ""
    decreases |stack|
  {
    if stack == "" {
      assert text + "" == text;
    } else {
      var front, c := stack[..|stack| - 1], Closer(stack[|stack| - 1]);
      MachineSnoc(text, c);
      assert Push(stack, c) == front;
      ClosersEmptyTheStack(text + [c], front);
      Reassociate(text, [c], Closers(front));
    }
  }

  /** Unless it was valid already, the repaired text leaves the bracket machine empty, and
      balancing it again appends nothing. */
  lemma RepairedIsBalanced(s: string, valid: string -> bool)
    requires !valid(TrimEnd(TrimStart(s)))
    ensures Machine(Repaired(s, valid)) == "" && Balanced(Repaired(s, valid)) == Repaired(s, valid)
    ensures Scanned(TrimEnd(TrimStart(s))) <= Repaired(s, valid)
  {
    var text := Scanned(TrimEnd(TrimStart(s)));
    MachineHoldsOpeners(text);
    ClosersEmptyTheStack(text, Machine(text));
  }

  // ---- Against proper nesting ----

  /** The open brackets of a properly nested text so far; None once a closer does not match. */
  function Nesting(text: string): Option<string> {
    if text == "" then Some("")
    else
      match Nesting(text[..|text| - 1])
      case None => None
      case Some(stack) =>
        var c := text[|text| - 1];
        if (c == ']' || c == '}') && (stack == "" || Closer(stack[|stack| - 1]) != c) then None
        else Some(Push(stack, c))
  }

  predicate ClosersOnly(text: string) { forall i | 0 <= i < |text| :: text[i] == ']' || text[i] == '}' }

  predicate Completes(text: string, tail: string) { ClosersOnly(tail) && Nesting(text + tail) == Some("") }

  lemma NestingSnoc(text: string, c: char)
    ensures Nesting(text + [c]) ==
            match Nesting(text)
            case None => None
            case Some(stack) =>
              if (c == ']' || c == '}') && (stack == "" || Closer(stack[|stack| - 1]) != c) then None
              else Some(Push(stack, c))
  {
    assert (text + [c])[..|text|] == text;
  }

  lemma {:induction false} NestingIsMachine(text: string)
    ensures Nesting(text).Some? ==> Nesting(text) == Some(Machine(text))
  {
    if text != "" {
      NestingIsMachine(text[..|text| - 1]);
    }
  }

  lemma {:induction false} BrokenStaysBroken(text: string, tail: string)
    requires Nesting(text).None?
    ensures Nesting(text + tail).None?
  {
    if tail == "" {
      assert text + tail == text;
    } else {
      BrokenStaysBroken(text, tail[..|tail| - 1]);
      NestingSnoc(text + tail[..|tail| - 1], tail[|tail| - 1]);
      assert text + tail == text + tail[..|tail| - 1] + [tail[|tail| - 1]];
    }
  }

  lemma {:induction false} ClosersComplete(text: string, stack: string)
    requires Nesting(text) == Some(stack) && OnlyOpeners(stack)
    ensures Nesting(text + Closers(stack)) == Some("") && ClosersOnly(Closers(stack))
    decreases |stack|
  {
    if stack == "" {
      assert text + "" == text;
    } else {
      var c := Closer(stack[|stack| - 1]);
      NestingSnoc(text, c);
      ClosersComplete(text + [c], stack[..|stack| - 1]);
      Reassociate(text, [c], Closers(stack[..|stack| - 1]));
    }
  }

  lemma {:induction false} CompletionIsClosers(text: string, stack: string, tail: string)
    requires Nesting(text) == Some(stack) && OnlyOpeners(stack) && Completes(text, tail)
    ensures tail == Closers(stack)
    decreases |tail|
  {
    if tail == "" {
      assert text + tail == text;
    } else {
      var c := tail[0];
      NestingSnoc(text, c);
      assert text + tail == text + [c] + tail[1..];
      if stack == "" || Closer(stack[|stack| - 1]) != c {
        BrokenStaysBroken(text + [c], tail[1..]);
      } else {
        CompletionIsClosers(text + [c], stack[..|stack| - 1], tail[1..]);
      }
    }
  }

  /** A text that some closers can complete to a properly nested one is completed by
      balancing, in the only way there is; and balancing gives a properly nested text in no
      other case. */
  lemma BalanceIsTheCompletion(text: string)
    ensures Nesting(Balanced(text)) == Some("") <==> exists tail :: Completes(text, tail)
    ensures forall tail :: Completes(text, tail) ==> Balanced(text) == text + tail
  {
    NestingIsMachine(text);
    MachineHoldsOpeners(text);
    if Nesting(text).Some? {
      ClosersComplete(text, Machine(text));
      assert Completes(text, Closers(Machine(text)));
      forall tail | Completes(text, tail)
        ensures tail == Closers(Machine(text))
      {
        CompletionIsClosers(text, Machine(text), tail);
      }
    } else {
      forall tail: string
        ensures Nesting(text + tail).None?
      {
        BrokenStaysBroken(text, tail);
      }
    }
  }

  // ---- What the scan achieves ----

  function Delimiters(outs: seq<Out>): nat {
    if outs == [] then 0 else (if outs[0].Delimiter? then 1 else 0) + Delimiters(outs[1..])
  }

  /** Reading the output with its own delimiters: no quote, no stray control character
      outside a string, and no string left open. */
  predicate WellQuoted(outs: seq<Out>, inString: bool)
    decreases |outs|
  {
    if outs == [] then !inString
    else if outs[0].Delimiter? then WellQuoted(outs[1..], !inString)
    else (!inString ==> Clean(outs[0].c)) && WellQuoted(outs[1..], inString)
  }

  predicate Clean(c: char) { c != '"' && c != '\'' && (IsControl(c) ==> IsWhitespace(c)) }

  /** One character emits nothing, or one thing; a delimiter exactly when a string begins or ends. */
  lemma EmitsAtMostOne(s: string, i: nat, quote: Option<char>)
    requires i < |s|
    ensures var next, emitted := QuoteAfter(s, i, quote), Emit(s, i, quote);
            if emitted == [] then quote.None? && next.None?
            else
              && emitted == [emitted[0]]
              && next.Some? == (if emitted[0].Delimiter? then quote.None? else quote.Some?)
              && (quote.None? && emitted[0].Plain? ==> Clean(emitted[0].c))
  {}

  /** Outside strings the scan leaves no quote and no control character, and it leaves no
      string open. */
  lemma {:induction false} ScanIsWellQuoted(s: string, i: nat, quote: Option<char>)
    requires i <= |s|
    ensures WellQuoted(ScanFrom(s, i, quote), quote.Some?)
    decreases |s| - i
  {
    if i < |s| {
      var next, emitted := QuoteAfter(s, i, quote), Emit(s, i, quote);
      var rest := ScanFrom(s, i + 1, next);
      ScanIsWellQuoted(s, i + 1, next);
      EmitsAtMostOne(s, i, quote);
      assert ScanFrom(s, i, quote) == emitted + rest;
      WellQuotedCons(emitted, rest, quote.Some?, next.Some?);
    }
  }

  lemma WellQuotedCons(emitted: seq<Out>, rest: seq<Out>, inString: bool, after: bool)
    requires WellQuoted(rest, after)
    requires if emitted == [] then after == inString
             else emitted == [emitted[0]] && after == (if emitted[0].Delimiter? then !inString else inString)
                  && (!inString && emitted[0].Plain? ==> Clean(emitted[0].c))
    ensures WellQuoted(emitted + rest, inString)
  {
    if emitted == [] {
      assert emitted + rest == rest;
    } else {
      assert (emitted + rest)[1..] == rest;
    }
  }

  /** The string delimiters of a well quoted output come in pairs. */
  lemma {:induction false} DelimitersPair(outs: seq<Out>, inString: bool)
    requires WellQuoted(outs, inString)
    ensures Delimiters(outs) % 2 == if inString then 1 else 0
    decreases |outs|
  {
    if outs != [] {
      DelimitersPair(outs[1..], if outs[0].Delimiter? then !inString else inString);
    }
  }

  /** The quote, if any, of the string that the text from `i` on leaves open. */
  function LeftOpen(s: string, i: nat, quote: Option<char>): Option<char>
    requires i <= |s|
    decreases |s| - i
  {
    if i == |s| then quote else LeftOpen(s, i + 1, QuoteAfter(s, i, quote))
  }

  /** Outside its double-quoted strings, the text from `i` on has no single quote, no comma
      before a closing bracket and no control character. */
  predicate NothingToRepair(s: string, i: nat, inString: bool)
    requires i <= |s|
    decreases |s| - i
  {
    i == |s|
    || if inString then NothingToRepair(s, i + 1, !Closes(s, i, '"'))
       else s[i] != '\'' && !(s[i] == ',' && Trailing(s, i)) && (IsControl(s[i]) ==> IsWhitespace(s[i]))
            && NothingToRepair(s, i + 1, s[i] == '"')
  }

  function Unfinished(s: string, i: nat, quote: Option<char>): string
    requires i <= |s|
  {
    s[i..] + if LeftOpen(s, i, quote).Some? then ['"'] else ""
  }

  lemma {:induction false} ScanIsNoLonger(s: string, i: nat, quote: Option<char>)
    requires i <= |s|
    ensures |ScanFrom(s, i, quote)| <= |Unfinished(s, i, quote)|
    decreases |s| - i
  {
    if i < |s| {
      ScanIsNoLonger(s, i + 1, QuoteAfter(s, i, quote));
    }
  }

  /** The scan leaves a text as it is, but for closing an open string, exactly when there
      is nothing to repair in it. */
  lemma {:induction false} ScanKeepsExactly(s: string, i: nat, inString: bool)
    requires i <= |s|
    ensures var quote := if inString then Some('"') else None;
            Text(ScanFrom(s, i, quote)) == Unfinished(s, i, quote) <==> NothingToRepair(s, i, inString)
    decreases |s| - i
  {
    var quote := if inString then Some('"') else None;
    if i < |s| {
      var next := QuoteAfter(s, i, quote);
      var rest, unread := Text(ScanFrom(s, i + 1, next)), Unfinished(s, i + 1, next);
      var piece := Text(Emit(s, i, quote));
      assert Text(ScanFrom(s, i, quote)) == piece + rest by { ScanSplits(s, i, quote, ""); }
      assert Unfinished(s, i, quote) == [s[i]] + unread;
      if piece == "" {
        assert |rest| <= |unread| by { ScanIsNoLonger(s, i + 1, next); }
        assert |piece + rest| < |[s[i]] + unread|;
      } else {
        assert piece == [piece[0]];
        SameHeadAndTail(piece[0], rest, s[i], unread);
        if next != Some('\'') {
          ScanKeepsExactly(s, i + 1, next.Some?);
        }
      }
    }
  }

  lemma SameHeadAndTail<T>(x: T, a: seq<T>, y: T, b: seq<T>)
    ensures [x] + a == [y] + b <==> x == y && a == b
  {
    assert ([x] + a)[0] == x && ([x] + a)[1..] == a;
    assert ([y] + b)[0] == y && ([y] + b)[1..] == b;
  }

  lemma {:induction false} ClosersAreClosers(stack: string)
    ensures ClosersOnly(Closers(stack))
  {
    if stack != "" {
      ClosersAreClosers(stack[..|stack| - 1]);
    }
  }

  /** Outside a string, the first character still to come is no control character. */
  lemma {:induction false} NextIsClean(s: string, i: nat, tail: string)
    requires i <= |s| && ClosersOnly(tail)
    ensures var text := Text(ScanFrom(s, i, None)) + tail; text != "" && IsControl(text[0]) ==> IsWhitespace(text[0])
    decreases |s| - i
  {
    if i < |s| {
      ScanSplits(s, i, None, "");
      if Emit(s, i, None) == [] {
        NextIsClean(s, i + 1, tail);
      }
    }
  }

  /** Where a character is dropped or changed, the output has another one. */
  lemma MarkHere(s: string, i: nat, tail: string)
    requires i < |s| && ClosersOnly(tail)
    requires s[i] == '\'' || (s[i] == ',' && Trailing(s, i)) || (IsControl(s[i]) && !IsWhitespace(s[i]))
    ensures var text := Text(ScanFrom(s, i, None)) + tail; text != "" ==> text[0] != s[i]
  {
    ScanSplits(s, i, None, "");
    if s[i] != '\'' {
      assert Emit(s, i, None) == [];
      NextIsClean(s, i + 1, tail);
      if s[i] == ',' {
        ScanSplits(s, i + 1, None, "");
      }
    }
  }

  lemma {:induction false} RepairLeavesAMark(s: string, i: nat, inString: bool, tail: string)
    requires i <= |s| && ClosersOnly(tail) && !NothingToRepair(s, i, inString)
    ensures !(s[i..] <= Text(ScanFrom(s, i, if inString then Some('"') else None)) + tail)
    decreases |s| - i
  {
    var quote := if inString then Some('"') else None;
    var c := s[i];
    if !inString && (c == '\'' || (c == ',' && Trailing(s, i)) || (IsControl(c) && !IsWhitespace(c))) {
      MarkHere(s, i, tail);
    } else {
      var next := QuoteAfter(s, i, quote);
      var rest := Text(ScanFrom(s, i + 1, next)) + tail;
      RepairLeavesAMark(s, i + 1, next.Some?, tail);
      ScanSplits(s, i, quote, "");
      assert Text(Emit(s, i, quote)) == [c];
      NotAPrefix(c, s[i + 1..], rest);
      assert s[i..] == [c] + s[i + 1..];
      assert Text(ScanFrom(s, i, quote)) + tail == [c] + rest;
    }
  }

  lemma NotAPrefix<T>(x: T, a: seq<T>, b: seq<T>)
    requires !(a <= b)
    ensures !([x] + a <= [x] + b)
  {
    assert ([x] + a)[1..] == a && ([x] + b)[1..] == b;
  }

  /** `repair_json` keeps the trimmed text whole, and at most appends to it, exactly when it is
      valid or there is nothing in it to repair; it then appends the quote of an open string
      and the closers of the open brackets. */
  lemma RepairOnlyAppendsExactlyWhen(s: string, valid: string -> bool)
    ensures var t := TrimEnd(TrimStart(s));
            t <= Repaired(s, valid) <==> valid(t) || NothingToRepair(t, 0, false)
    ensures var t := TrimEnd(TrimStart(s));
            NothingToRepair(t, 0, false) && !valid(t) ==> Repaired(s, valid) == Balanced(Unfinished(t, 0, None))
  {
    var t := TrimEnd(TrimStart(s));
    ScanKeepsExactly(t, 0, false);
    if !valid(t) && !NothingToRepair(t, 0, false) {
      var tail := Closers(Machine(Scanned(t)));
      ClosersAreClosers(Machine(Scanned(t)));
      RepairLeavesAMark(t, 0, false, tail);
      assert t[0..] == t;
    }
  }

  // ---- Strings and brackets together ----

  /** What the scan emits outside strings. */
  function Outside(outs: seq<Out>, inString: bool): string
    decreases |outs|
  {
    if outs == [] then ""
    else if outs[0].Delimiter? then Outside(outs[1..], !inString)
    else (if inString then "" else [outs[0].c]) + Outside(outs[1..], inString)
  }

  /** The scanned text outside its strings, with the closers that the balancer appends. */
  function RepairedOutside(t: string): string { Outside(ScanFrom(t, 0, None), false) + Closers(Machine(Scanned(t))) }

  lemma {:induction false} ClosersTellStack(a: string, b: string)
    requires OnlyOpeners(a) && OnlyOpeners(b) && Closers(a) == Closers(b)
    ensures a == b
  {
    if a != "" {
      assert |b| == |Closers(b)| == |a|;
      var m, n := |a| - 1, |b| - 1;
      assert Closers(a)[0] == Closer(a[m]) && Closers(b)[0] == Closer(b[n]);
      assert Closers(a)[1..] == Closers(a[..m]) && Closers(b)[1..] == Closers(b[..n]);
      ClosersTellStack(a[..m], b[..n]);
      assert a == a[..m] + [a[m]] && b == b[..n] + [b[n]];
    }
  }

  /** What is repaired is properly nested outside its strings exactly when the scanned text was
      so far, and the bracket machine ends as if there were no brackets in strings. */
  lemma RepairedNestsExactlyWhen(t: string)
    ensures var outside := Outside(ScanFrom(t, 0, None), false);
            Nesting(RepairedOutside(t)) == Some("") <==> Nesting(outside).Some? && Machine(outside) == Machine(Scanned(t))
  {
    var outside, stack := Outside(ScanFrom(t, 0, None), false), Machine(Scanned(t));
    MachineHoldsOpeners(outside);
    MachineHoldsOpeners(Scanned(t));
    ClosersAreClosers(stack);
    NestingIsMachine(outside);
    if Nesting(outside).None? {
      BrokenStaysBroken(outside, Closers(stack));
    } else if Machine(outside) == stack {
      ClosersComplete(outside, stack);
    } else if Nesting(RepairedOutside(t)) == Some("") {
      CompletionIsClosers(outside, Machine(outside), Closers(stack));
      ClosersTellStack(Machine(outside), stack);
    }
  }

  predicate IsBracket(c: char) { c == '[' || c == ']' || c == '{' || c == '}' }

  predicate NoBracketInside(outs: seq<Out>, inString: bool)
    decreases |outs|
  {
    outs == []
    || if outs[0].Delimiter? then NoBracketInside(outs[1..], !inString)
       else (inString ==> !IsBracket(outs[0].c)) && NoBracketInside(outs[1..], inString)
  }

  function MachineFrom(stack: string, text: string): string
    decreases |text|
  {
    if text == "" then stack else MachineFrom(Push(stack, text[0]), text[1..])
  }

  lemma {:induction false} MachineGoesOn(a: string, b: string)
    ensures Machine(a + b) == MachineFrom(Machine(a), b)
    decreases |b|
  {
    if b == "" {
      assert a + b == a;
    } else {
      MachineSnoc(a, b[0]);
      MachineGoesOn(a + [b[0]], b[1..]);
      assert a + b == a + [b[0]] + b[1..];
    }
  }

  lemma {:induction false} MachineSkipsStrings(stack: string, outs: seq<Out>, inString: bool)
    requires NoBracketInside(outs, inString)
    ensures MachineFrom(stack, Text(outs)) == MachineFrom(stack, Outside(outs, inString))
    decreases |outs|
  {
    if outs != [] {
      var c, rest := Text(outs)[0], outs[1..];
      assert Text(outs)[1..] == Text(rest);
      if outs[0].Delimiter? {
        MachineSkipsStrings(stack, rest, !inString);
      } else if inString {
        assert Outside(outs, true) == Outside(rest, true);
        MachineSkipsStrings(stack, rest, true);
      } else {
        assert Outside(outs, false)[0] == c && Outside(outs, false)[1..] == Outside(rest, false);
        MachineSkipsStrings(Push(stack, c), rest, false);
      }
    }
  }

  /** Without brackets in strings the machine does end so: the closers appended are the right
      ones whenever there are any. */
  lemma NoBracketInsideNests(t: string)
    requires NoBracketInside(ScanFrom(t, 0, None), false)
    ensures Nesting(RepairedOutside(t)) == Some("") <==> Nesting(Outside(ScanFrom(t, 0, None), false)).Some?
  {
    var outs := ScanFrom(t, 0, None);
    MachineSkipsStrings("", outs, false);
    MachineGoesOn("", Text(outs));
    MachineGoesOn("", Outside(outs, false));
    assert "" + Text(outs) == Text(outs) && "" + Outside(outs, false) == Outside(outs, false);
    RepairedNestsExactlyWhen(t);
  }

  lemma ScanOfBracketInString()
    ensures ScanFrom("[\"[", 0, None) == [Plain('['), Delimiter, Plain('['), Delimiter]
  {
    var s := "[\"[";
    assert ScanFrom(s, 3, Some('"')) == [Delimiter];
    assert Emit(s, 2, Some('"')) == [Plain('[')] && QuoteAfter(s, 2, Some('"')) == Some('"');
    assert Emit(s, 1, None) == [Delimiter] && QuoteAfter(s, 1, None) == Some('"');
    assert Emit(s, 0, None) == [Plain('[')] && QuoteAfter(s, 0, None) == None;
    assert ScanFrom(s, 2, Some('"')) == [Plain('['), Delimiter];
    assert ScanFrom(s, 1, None) == [Delimiter, Plain('['), Delimiter];
  }

  lemma MachineOfBracketInString()
    ensures Machine("[\"[\"") == "[["
  {
    MachineSnoc("", '[');
    MachineSnoc("[", '"');
    MachineSnoc("[\"", '[');
    MachineSnoc("[\"[", '"');
    assert "" + "[" == "[" && "[" + "\"" == "[\"" && "[\"" + "[" == "[\"[" && "[\"[" + "\"" == "[\"[\"";
  }

  /** The bracket machine does not know about strings: a bracket inside one is closed outside it. */
  lemma BracketInStringIsCounted(valid: string -> bool)
    requires !valid("[\"[")
    ensures Repaired("[\"[", valid) == "[\"[\"]]"
  {
    var s := "[\"[";
    assert TrimStart(s) == s && TrimEnd(s) == s;
    ScanOfBracketInString();
    assert Scanned(s) == "[\"[\"";
    MachineOfBracketInString();
    assert "[["[..1] == "[" && "["[..0] == "";
    assert Closers("[") == "]" && Closers("[[") == "]]";
  }
}
