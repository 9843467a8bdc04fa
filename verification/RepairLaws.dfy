/** What the repair of JSON text does to each part of it, told from the text alone. */
module RepairLaws {
  import opened Wrappers
  import opened JsonRepair

  // ---- Outside strings ----

  /** Only white space lies between this place and a closing bracket. */
  ghost predicate BeforeCloser(s: string, i: nat) {
    exists j: nat :: i < j < |s| && (s[j] == ']' || s[j] == '}') && forall k | i < k < j :: IsWhitespace(s[k])
  }

  lemma {:induction false} SkipsSpace(s: string, j: nat)
    requires j <= |s|
    ensures var r := SkipSpace(s, j);
            (forall k | j <= k < r :: IsWhitespace(s[k])) && (r < |s| ==> !IsWhitespace(s[r]))
    decreases |s| - j
  {
    if j < |s| && IsWhitespace(s[j]) {
      SkipsSpace(s, j + 1);
    }
  }

  lemma {:induction false} SkipsTo(s: string, i: nat, j: nat)
    requires i <= j < |s| && !IsWhitespace(s[j]) && forall k | i <= k < j :: IsWhitespace(s[k])
    ensures SkipSpace(s, i) == j
    decreases j - i
  {
    if i < j {
      SkipsTo(s, i + 1, j);
    }
  }

  lemma TrailingMeans(s: string, i: nat)
    requires i < |s|
    ensures Trailing(s, i) <==> BeforeCloser(s, i)
  {
    SkipsSpace(s, i + 1);
    if BeforeCloser(s, i) {
      var j: nat :| i < j < |s| && (s[j] == ']' || s[j] == '}') && forall k | i < k < j :: IsWhitespace(s[k]);
      SkipsTo(s, i + 1, j);
    }
  }

  /** A control character that is no white space. */
  predicate Stray(c: char) {
    var n := c as int;
    n < 9 || 13 < n < 0x20 || (0x7F <= n < 0xA0 && n != 0x85)
  }

  /** Outside strings a character is dropped if it is a comma with only white space before a
      closing bracket, or a stray control character; every other one stays. */
  lemma OutsideStrings(s: string, i: nat)
    requires i < |s| && s[i] != '"' && s[i] != '\''
    ensures ScanFrom(s, i, None)
            == (if (s[i] == ',' && BeforeCloser(s, i)) || Stray(s[i]) then [] else [Plain(s[i])]) + ScanFrom(s, i + 1, None)
  {
    TrailingMeans(s, i);
  }

  // ---- Strings ----

  function Plains(s: string): (r: seq<Out>)
    ensures |r| == |s|
  {
    seq(|s|, i requires 0 <= i < |s| => Plain(s[i]))
  }

  /** The string that begins at `a` is ended at `b`: by its own quote, the first that no backslash
      comes before. */
  ghost predicate EndsAt(s: string, a: nat, b: nat) {
    a < b < |s| && s[b] == s[a] && s[b - 1] != '\\' && forall k | a < k < b :: !(s[k] == s[a] && s[k - 1] != '\\')
  }

  ghost predicate NeverEnds(s: string, a: nat) {
    a < |s| && forall k | a < k < |s| :: !(s[k] == s[a] && s[k - 1] != '\\')
  }

  lemma PlainsFrom(s: string, k: nat, b: nat)
    requires k < b <= |s|
    ensures Plains(s[k..b]) == [Plain(s[k])] + Plains(s[k + 1..b])
  {}

  lemma {:induction false} InsideString(s: string, a: nat, k: nat, b: nat)
    requires EndsAt(s, a, b) && a < k <= b
    ensures ScanFrom(s, k, Some(s[a])) == Plains(s[k..b]) + ([Delimiter] + ScanFrom(s, b + 1, None))
    decreases b - k
  {
    var rest := [Delimiter] + ScanFrom(s, b + 1, None);
    if k == b {
      assert Plains(s[k..b]) + rest == rest;
    } else {
      var more := Plains(s[k + 1..b]);
      assert ScanFrom(s, k, Some(s[a])) == [Plain(s[k])] + ScanFrom(s, k + 1, Some(s[a])) by {
        assert !Closes(s, k, s[a]);
      }
      assert ScanFrom(s, k + 1, Some(s[a])) == more + rest by {
        InsideString(s, a, k + 1, b);
      }
      PlainsFrom(s, k, b);
      assert [Plain(s[k])] + (more + rest) == [Plain(s[k])] + more + rest;
    }
  }

  /** A string, in whichever quotes, becomes the same text in double quotes. */
  lemma QuotedText(s: string, a: nat, b: nat)
    requires EndsAt(s, a, b) && (s[a] == '"' || s[a] == '\'')
    ensures ScanFrom(s, a, None) == [Delimiter] + (Plains(s[a + 1..b]) + ([Delimiter] + ScanFrom(s, b + 1, None)))
  {
    InsideString(s, a, a + 1, b);
  }

  lemma {:induction false} InsideOpenString(s: string, a: nat, k: nat)
    requires NeverEnds(s, a) && a < k <= |s|
    ensures ScanFrom(s, k, Some(s[a])) == Plains(s[k..]) + [Delimiter]
    decreases |s| - k
  {
    if k < |s| {
      InsideOpenString(s, a, k + 1);
      assert s[k..] == s[k..|s|] && s[k + 1..] == s[k + 1..|s|];
      PlainsFrom(s, k, |s|);
      assert !Closes(s, k, s[a]);
    }
  }

  /** One that never ends is closed at the end of the text. */
  lemma OpenText(s: string, a: nat)
    requires NeverEnds(s, a) && (s[a] == '"' || s[a] == '\'')
    ensures ScanFrom(s, a, None) == [Delimiter] + (Plains(s[a + 1..]) + [Delimiter])
  {
    InsideOpenString(s, a, a + 1);
  }

  /** Delimiters are written as double quotes, and everything else as it is. */
  lemma TextSays(outs: seq<Out>, i: nat)
    requires i < |outs|
    ensures Text(outs)[i] == if outs[i].Delimiter? then '"' else outs[i].c
  {}

  // ---- Trimming ----

  lemma {:induction false} TrimStartIs(s: string) returns (a: nat)
    ensures a <= |s| && TrimStart(s) == s[a..] && (forall i | 0 <= i < a :: IsWhitespace(s[i]))
    ensures a < |s| ==> !IsWhitespace(s[a])
    decreases |s|
  {
    a := 0;
    if s != "" && IsWhitespace(s[0]) {
      var b := TrimStartIs(s[1..]);
      a := b + 1;
      assert forall i | 0 < i < a :: s[i] == s[1..][i - 1];
    }
  }

  lemma {:induction false} TrimEndIs(s: string) returns (b: nat)
    ensures b <= |s| && TrimEnd(s) == s[..b] && (forall i | b <= i < |s| :: IsWhitespace(s[i]))
    ensures b > 0 ==> !IsWhitespace(s[b - 1])
    decreases |s|
  {
    b := |s|;
    if s != "" && IsWhitespace(s[|s| - 1]) {
      b := TrimEndIs(s[..|s| - 1]);
    }
  }

  /** Trimming takes off white space at both ends, all of it, and nothing else. */
  lemma TrimIs(s: string) returns (a: nat, b: nat)
    ensures a <= b <= |s| && TrimEnd(TrimStart(s)) == s[a..b]
    ensures forall i | 0 <= i < |s| && (i < a || b <= i) :: IsWhitespace(s[i])
    ensures a < b ==> !IsWhitespace(s[a]) && !IsWhitespace(s[b - 1])
  {
    a := TrimStartIs(s);
    var n := TrimEndIs(s[a..]);
    b := a + n;
    assert s[a..][..n] == s[a..b];
    assert forall i | b <= i < |s| :: s[i] == s[a..][i - a];
    if n > 0 {
      assert s[a..][n - 1] == s[b - 1];
    }
  }

  // ---- Brackets ----

  function Occurrences(text: string, c: char): nat {
    if text == "" then 0 else Occurrences(text[..|text| - 1], c) + (if text[|text| - 1] == c then 1 else 0)
  }

  lemma OccurrencesSnoc(text: string, c: char, d: char)
    ensures Occurrences(text + [d], c) == Occurrences(text, c) + (if d == c then 1 else 0)
  {
    assert (text + [d])[..|text|] == text;
  }

  /** In a properly nested text each kind of bracket is opened as often as it is closed, but for
      those on the stack. */
  lemma {:induction false} NestingCounts(text: string)
    ensures var n := Nesting(text);
            n.Some? ==>
              && Occurrences(text, '[') == Occurrences(text, ']') + Occurrences(n.value, '[')
              && Occurrences(text, '{') == Occurrences(text, '}') + Occurrences(n.value, '{')
              && OnlyOpeners(n.value)
  {
    if text != "" {
      var front, c := text[..|text| - 1], text[|text| - 1];
      NestingCounts(front);
      if Nesting(front).Some? {
        var stack := Nesting(front).value;
        OccurrencesSnoc(stack, '[', c);
        OccurrencesSnoc(stack, '{', c);
        if stack != "" {
          var below, top := stack[..|stack| - 1], stack[|stack| - 1];
          assert stack == below + [top];
        }
      }
    }
  }
}
