/** The two scanners of Markdown text: the one that refuses escaped line breaks
    when a text is written, and the one that restores them when it is shown. */
module Markdown {
  import opened Text

  // ---- Runs and searches ----

  /** How many characters of `s` from `i` on belong to `cs`. */
  function Leading(s: string, i: nat, cs: set<char>): (n: nat)
    ensures i <= |s| ==> i + n <= |s|
    decreases |s| - i
  {
    if i < |s| && s[i] in cs then 1 + Leading(s, i + 1, cs) else 0
  }

  /** The run is of `cs` only, and it is all of it. */
  lemma {:induction false} LeadingRun(s: string, i: nat, cs: set<char>)
    requires i <= |s|
    ensures forall k :: i <= k < i + Leading(s, i, cs) ==> s[k] in cs
    ensures i + Leading(s, i, cs) < |s| ==> s[i + Leading(s, i, cs)] !in cs
    decreases |s| - i
  {
    if i < |s| && s[i] in cs {
      LeadingRun(s, i + 1, cs);
    }
  }

  lemma {:induction false} LeadingSuffix(s: string, i: nat, j: nat, cs: set<char>)
    requires i + j <= |s|
    ensures Leading(s[i..], j, cs) == Leading(s, i + j, cs)
    decreases |s| - j
  {
    if i + j < |s| {
      LeadingSuffix(s, i, j + 1, cs);
    }
  }

  /** A run, its end included, needs only the text it is in. */
  lemma {:induction false} LeadingPrefix(s: string, i: nat, n: nat, u: string, cs: set<char>)
    requires i + Leading(s, i, cs) < n <= |s| && n <= |u|
    requires forall k :: 0 <= k < n ==> u[k] == s[k]
    ensures Leading(u, i, cs) == Leading(s, i, cs)
    decreases |s| - i
  {
    if s[i] in cs {
      LeadingPrefix(s, i + 1, n, u, cs);
    }
  }

  /** `s.indexOf(pat, i)`. */
  function Find(s: string, i: nat, pat: string): (r: Option<nat>)
    ensures r.Some? ==> i <= r.value && r.value + |pat| <= |s|
    decreases |s| - i
  {
    if |s| < i + |pat| then None
    else if s[i..i + |pat|] == pat then Some(i)
    else if i == |s| then None
    else Find(s, i + 1, pat)
  }

  /** A test of the text that follows a line break. Everything below holds
      whatever counts as the start of a block; the source's own test is
      `BlockStart`. */
  type Pattern = string -> bool

  const TICK: set<char> := {'`'}
  const BLANK: set<char> := {' ', '\t'}
  const DIGIT: set<char> := {'0', '1', '2', '3', '4', '5', '6', '7', '8', '9'}

  /** The length of the code span that starts `s`, when its run of backticks is
      found again. */
  function SpanLength(s: string): (r: Option<nat>)
    requires s != "" && s[0] == '`'
    ensures r.Some? ==> 2 <= r.value <= |s|
  {
    var n := Leading(s, 0, TICK);
    match Find(s, n, s[..n])
    case None => None
    case Some(i) => Some(i + n)
  }

  /** There is a backslash and `c` at `i`. */
  predicate Escape(s: string, i: nat, c: char) { i + 2 <= |s| && s[i] == '\\' && s[i + 1] == c }

  function BreakLength(s: string, i: nat): (n: nat)
    ensures n > 0 ==> i + n <= |s|
  {
    if Escape(s, i, 'r') && Escape(s, i + 2, 'n') then 4
    else if Escape(s, i, 'n') || Escape(s, i, 'r') then 2
    else 0
  }

  /** What `BLOCK_START` matches: a heading, a bullet, a quotation, an ordered item. */
  predicate BlockStart(s: string) {
    var hashes, digits := Leading(s, 0, {'#'}), Leading(s, 0, DIGIT);
    (1 <= hashes <= 6 && hashes < |s| && IsSpace(s[hashes]))
    || (|s| >= 2 && s[0] in {'-', '*', '+', '>'} && IsSpace(s[1]))
    || (digits >= 1 && digits + 1 < |s| && s[digits] in {'.', ')'} && IsSpace(s[digits + 1]))
  }

  /** How much of `s` one real line break replaces, when it starts with an
      escaped break that stands before another one or before a block. */
  function Structural(s: string, block: Pattern): (r: Option<nat>)
    ensures r.Some? ==> 0 < r.value <= |s|
  {
    var b := BreakLength(s, 0);
    if b == 0 then None
    else
      var n := b + Leading(s, b, BLANK);
      if BreakLength(s, n) > 0 || block(s[n..]) then Some(n) else None
  }

  // ---- The renderer ----

  function Normalize(s: string, block: Pattern): string
    decreases |s|
  {
    if s == "" then ""
    else if s[0] == '`' then
      match SpanLength(s)
      case None => s
      case Some(n) => s[..n] + Normalize(s[n..], block)
    else
      match Structural(s, block)
      case Some(n) => ['\n'] + Normalize(s[n..], block)
      case None => [s[0]] + Normalize(s[1..], block)
  }

  /** `output` is what the renderer has made of the text before `index`. */
  ghost predicate Rendered(content: string, index: nat, output: string, block: Pattern) {
    index <= |content| && output + Normalize(content[index..], block) == Normalize(content, block)
  }

  lemma Advance(content: string, index: nat, output: string, piece: string, next: nat, block: Pattern)
    requires Rendered(content, index, output, block) && index <= next <= |content|
    requires Normalize(content[index..], block) == piece + Normalize(content[next..], block)
    ensures Rendered(content, next, output + piece, block)
  {
    var rest, after := Normalize(content[index..], block), Normalize(content[next..], block);
    assert output + (piece + after) == (output + piece) + after;
  }

  lemma SpanStep(content: string, index: nat, n: nat, output: string, block: Pattern)
    requires index < |content| && content[index] == '`' && SpanLength(content[index..]) == Some(n)
    requires Rendered(content, index, output, block)
    ensures Rendered(content, index + n, output + content[index..index + n], block)
  {
    assert content[index..][..n] == content[index..index + n] && content[index..][n..] == content[index + n..];
    Advance(content, index, output, content[index..index + n], index + n, block);
  }

  lemma BreakStep(content: string, index: nat, n: nat, output: string, block: Pattern)
    requires index < |content| && Structural(content[index..], block) == Some(n)
    requires Rendered(content, index, output, block)
    ensures 0 < n <= |content| - index && Rendered(content, index + n, output + ['\n'], block)
  {
    assert content[index..][n..] == content[index + n..];
    Advance(content, index, output, ['\n'], index + n, block);
  }

  lemma PlainStep(content: string, index: nat, output: string, block: Pattern)
    requires index < |content| && content[index] != '`' && Structural(content[index..], block).None?
    requires Rendered(content, index, output, block)
    ensures Rendered(content, index + 1, output + [content[index]], block)
  {
    assert content[index..][1..] == content[index + 1..];
    Advance(content, index, output, [content[index]], index + 1, block);
  }

  /** `normalizeMarkdownSource`. */
  method NormalizeMarkdownSource(content: string) returns (output: string)
    ensures output == Normalize(content, BlockStart)
  {
    output := Restore(content, BlockStart);
  }

  method Restore(content: string, block: Pattern) returns (output: string)
    ensures output == Normalize(content, block)
  {
    output := "";
    var index := 0;
    Started(content, block);
    while index < |content|
      invariant 0 <= index <= |content| && Rendered(content, index, output, block)
    {
      if content[index] == '`' {
        output, index := RestoreCode(content, index, output, block);
      } else {
        output, index := RestoreText(content, index, output, block);
      }
    }
    Finished(content, output, block);
  }

  lemma Started(content: string, block: Pattern)
    ensures Rendered(content, 0, "", block)
  {
    assert content[0..] == content;
  }

  lemma Finished(content: string, output: string, block: Pattern)
    requires Rendered(content, |content|, output, block)
    ensures output == Normalize(content, block)
  {
  }

  /** A code span is copied; without a closing run, so is all the rest. */
  method RestoreCode(content: string, index: nat, output: string, block: Pattern) returns (output': string, next: nat)
    requires index < |content| && content[index] == '`' && Rendered(content, index, output, block)
    ensures index < next <= |content| && Rendered(content, next, output', block)
  {
    var length := SpanAt(content, index);
    if length.None? {
      TailStep(content, index, output, block);
      return output + content[index..], |content|;
    }
    SpanStep(content, index, length.value, output, block);
    return output + content[index..index + length.value], index + length.value;
  }

  /** Outside code a character is copied, or a break restored. */
  method RestoreText(content: string, index: nat, output: string, block: Pattern) returns (output': string, next: nat)
    requires index < |content| && content[index] != '`' && Rendered(content, index, output, block)
    ensures index < next <= |content| && Rendered(content, next, output', block)
  {
    var breakLength := StructuralAt(content, index, block);
    if breakLength.Some? {
      BreakStep(content, index, breakLength.value, output, block);
      output', next := output + ['\n'], index + breakLength.value;
    } else {
      PlainStep(content, index, output, block);
      output', next := output + [content[index]], index + 1;
    }
  }

  lemma TailStep(content: string, index: nat, output: string, block: Pattern)
    requires index < |content| && content[index] == '`' && SpanLength(content[index..]).None?
    requires Rendered(content, index, output, block)
    ensures Rendered(content, |content|, output + content[index..], block)
  {
    assert content[|content|..] == "" && content[index..] + "" == content[index..];
    Advance(content, index, output, content[index..], |content|, block);
  }

  /** The part of the loop that looks at an escaped break. */
  method StructuralAt(content: string, index: nat, block: Pattern) returns (length: Option<nat>)
    requires index < |content|
    ensures length == Structural(content[index..], block)
  {
    ghost var rest := content[index..];
    var breakLength := BreakLength(content, index);
    if breakLength > 0 {
      LeadingSuffix(content, index, breakLength, BLANK);
      var whitespace := Leading(content, index + breakLength, BLANK);
      var next := index + breakLength + whitespace;
      assert content[next..] == rest[breakLength + whitespace..];
      if BreakLength(content, next) > 0 || block(content[next..]) {
        return Some(breakLength + whitespace);
      }
    }
    length := None;
  }

  /** The part of both loops that looks for the end of a code span. */
  method SpanAt(content: string, index: nat) returns (length: Option<nat>)
    requires index < |content| && content[index] == '`'
    ensures length == SpanLength(content[index..])
  {
    ghost var rest := content[index..];
    var end := index;
    while end < |content| && content[end] == '`'
      invariant index <= end <= |content|
      invariant Leading(content, index, TICK) == end - index + Leading(content, end, TICK)
    {
      end := end + 1;
    }
    var delimiter := content[index..end];
    var closing := Find(content, end, delimiter);
    SpanFound(content, index, end - index);
    if closing.None? { return None; }
    length := Some(closing.value + |delimiter| - index);
  }

  lemma SpanFound(content: string, index: nat, run: nat)
    requires index < |content| && content[index] == '`' && run == Leading(content, index, TICK)
    ensures SpanLength(content[index..])
         == (match Find(content, index + run, content[index..index + run])
             case None => None
             case Some(j) => Some(j + run - index))
  {
    LeadingSuffix(content, index, 0, TICK);
    assert content[index..][..run] == content[index..index + run];
    FindShift(content, index, run, content[index..index + run]);
  }

  lemma {:induction false} FindShift(s: string, i: nat, k: nat, pat: string)
    requires i + k <= |s|
    ensures Find(s[i..], k, pat) == (match Find(s, i + k, pat) case None => None case Some(j) => Some(j - i))
    decreases |s| - k
  {
    if i + k + |pat| <= |s| {
      assert s[i..][k..k + |pat|] == s[i + k..i + k + |pat|];
      if i + k < |s| {
        FindShift(s, i, k + 1, pat);
      }
    }
  }

  // ---- The check on write ----

  predicate HasBreak(s: string)
    decreases |s|
  {
    s != ""
    && if s[0] == '`' then SpanLength(s).Some? && HasBreak(s[SpanLength(s).value..])
       else BreakLength(s, 0) > 0 || HasBreak(s[1..])
  }

  /** `hasEscapedBreakOutsideCode`. */
  method HasEscapedBreakOutsideCode(content: string) returns (found: bool)
    ensures found == HasBreak(content)
  {
    var index := 0;
    while index < |content|
      invariant 0 <= index <= |content|
      invariant HasBreak(content) == HasBreak(content[index..])
    {
      ghost var rest := content[index..];
      if content[index] == '`' {
        var length := SpanAt(content, index);
        if length.None? { return false; }
        assert content[index + length.value..] == rest[length.value..];
        index := index + length.value;
        continue;
      }
      if BreakLength(content, index) > 0 { return true; }
      assert content[index + 1..] == rest[1..];
      index := index + 1;
    }
    found := false;
  }

  // ---- The scanners agree ----

  /** What the writer's check lets through is shown exactly as it was written. */
  lemma {:induction false} AcceptedIsUnchanged(s: string, block: Pattern)
    requires !HasBreak(s)
    ensures Normalize(s, block) == s
    decreases |s|
  {
    if s == "" {
    } else if s[0] == '`' {
      if SpanLength(s).Some? {
        AcceptedIsUnchanged(s[SpanLength(s).value..], block);
      }
    } else {
      AcceptedIsUnchanged(s[1..], block);
    }
  }

  /** What stands for `head`, followed by what stands for the rest. */
  lemma NoLonger(s: string, n: nat, head: string, rest: string)
    requires n <= |s| && |rest| <= |s[n..]| && (|rest| == |s[n..]| ==> rest == s[n..])
    requires head == s[..n] || |head| < n
    ensures |head + rest| <= |s| && (|head + rest| == |s| ==> head + rest == s)
  {
    assert s[..n] + s[n..] == s;
  }

  lemma {:induction false} NeverLonger(s: string, block: Pattern)
    ensures |Normalize(s, block)| <= |s|
    ensures |Normalize(s, block)| == |s| ==> Normalize(s, block) == s
    decreases |s|
  {
    if s == "" {
    } else if s[0] == '`' {
      if SpanLength(s).Some? {
        var n := SpanLength(s).value;
        NeverLonger(s[n..], block);
        NoLonger(s, n, s[..n], Normalize(s[n..], block));
      }
    } else if Structural(s, block).Some? {
      var n := Structural(s, block).value;
      NeverLonger(s[n..], block);
      NoLonger(s, n, ['\n'], Normalize(s[n..], block));
    } else {
      NeverLonger(s[1..], block);
      NoLonger(s, 1, [s[0]], Normalize(s[1..], block));
    }
  }

  lemma UnitsFrom(s: string, n: nat)
    requires n <= |s|
    ensures Units(s) == Units(s[..n]) + Units(s[n..])
    ensures n > 0 ==> Units(s[..n]) >= 1
  {
    UnitsAppend(s[..n], s[n..]);
    assert s[..n] + s[n..] == s;
  }

  /** Nor is it longer as JavaScript counts. */
  lemma {:induction false} NeverLongerInUnits(s: string, block: Pattern)
    ensures Units(Normalize(s, block)) <= Units(s)
    decreases |s|
  {
    if s == "" {
    } else if s[0] == '`' {
      if SpanLength(s).Some? {
        var n := SpanLength(s).value;
        NeverLongerInUnits(s[n..], block);
        UnitsFrom(s, n);
        UnitsAppend(s[..n], Normalize(s[n..], block));
      }
    } else if Structural(s, block).Some? {
      var n := Structural(s, block).value;
      NeverLongerInUnits(s[n..], block);
      UnitsFrom(s, n);
      UnitsAppend(['\n'], Normalize(s[n..], block));
    } else {
      NeverLongerInUnits(s[1..], block);
      UnitsAppend([s[0]], Normalize(s[1..], block));
    }
  }

  // ---- Code is preserved ----

  datatype Code = Code(spans: seq<string>, tail: string)

  /** The code of a text: its spans in order and the unclosed tail, if any. */
  function CodeOf(s: string): Code
    decreases |s|
  {
    if s == "" then Code([], "")
    else if s[0] == '`' then
      match SpanLength(s)
      case None => Code([], s)
      case Some(n) => var c := CodeOf(s[n..]); Code([s[..n]] + c.spans, c.tail)
    else CodeOf(s[1..])
  }

  /** A search that succeeds needs only the text up to the end of its find. */
  lemma {:induction false} FindPrefix(s: string, i: nat, pat: string, u: string)
    requires Find(s, i, pat).Some? && Find(s, i, pat).value + |pat| <= |u|
    requires forall j :: 0 <= j < Find(s, i, pat).value + |pat| ==> u[j] == s[j]
    ensures Find(u, i, pat) == Find(s, i, pat)
    decreases |s| - i
  {
    assert u[i..i + |pat|] == s[i..i + |pat|];
    if s[i..i + |pat|] != pat {
      FindPrefix(s, i + 1, pat, u);
    }
  }

  /** A code span is found the same whatever follows it. */
  lemma SpanPrefix(s: string, t: string)
    requires s != "" && s[0] == '`' && SpanLength(s).Some?
    ensures var n := SpanLength(s).value; SpanLength(s[..n] + t) == Some(n)
  {
    var k, n := Leading(s, 0, TICK), SpanLength(s).value;
    var u := s[..n] + t;
    LeadingPrefix(s, 0, n, u, TICK);
    assert u[..k] == s[..k];
    FindPrefix(s, k, s[..k], u);
  }

  lemma {:induction false} CodeSkips(s: string, n: nat)
    requires n <= |s| && forall i :: 0 <= i < n ==> s[i] != '`'
    ensures CodeOf(s) == CodeOf(s[n..])
  {
    if n > 0 {
      CodeSkips(s[1..], n - 1);
      assert s[1..][n - 1..] == s[n..];
    }
  }

  lemma BreakHasNoTick(s: string, n: nat, block: Pattern)
    requires Structural(s, block) == Some(n)
    ensures forall i :: 0 <= i < n ==> s[i] != '`'
  {
    LeadingRun(s, BreakLength(s, 0), BLANK);
  }

  /** Rendering keeps every code span, and an unclosed tail, as they are. */
  lemma {:induction false} CodeIsPreserved(s: string, block: Pattern)
    ensures CodeOf(Normalize(s, block)) == CodeOf(s)
    decreases |s|
  {
    var out := Normalize(s, block);
    if s == "" {
    } else if s[0] == '`' {
      if SpanLength(s).Some? {
        var n := SpanLength(s).value;
        CodeIsPreserved(s[n..], block);
        SpanPrefix(s, Normalize(s[n..], block));
        assert out[..n] == s[..n] && out[n..] == Normalize(s[n..], block);
      }
    } else if Structural(s, block).Some? {
      var n := Structural(s, block).value;
      CodeIsPreserved(s[n..], block);
      BreakHasNoTick(s, n, block);
      CodeSkips(s, n);
      assert out[1..] == Normalize(s[n..], block);
    } else {
      CodeIsPreserved(s[1..], block);
      assert out[1..] == Normalize(s[1..], block);
    }
  }

  // ---- Prose is preserved ----

  /** A text without its line breaks, real or escaped, and its blanks, outside code. */
  function Words(s: string): string
    decreases |s|
  {
    if s == "" then ""
    else if s[0] == '`' then
      match SpanLength(s)
      case None => s
      case Some(n) => s[..n] + Words(s[n..])
    else if BreakLength(s, 0) > 0 then Words(s[BreakLength(s, 0)..])
    else if s[0] in BLANK || s[0] == '\n' then Words(s[1..])
    else [s[0]] + Words(s[1..])
  }

  /** Dropping one character and then the rest. */
  lemma DropOneMore(s: string, i: nat)
    requires i < |s|
    ensures s[i..] != "" && s[i..][0] == s[i] && s[i..][1..] == s[i + 1..]
  {
  }

  lemma {:induction false} WordsSkipTo(s: string, i: nat, n: nat)
    requires i <= n <= |s| && forall j :: i <= j < n ==> s[j] in BLANK
    ensures Words(s[i..]) == Words(s[n..])
    decreases n - i
  {
    if i < n {
      DropOneMore(s, i);
      WordsAfterBlank(s[i..]);
      WordsSkipTo(s, i + 1, n);
    }
  }

  lemma {:induction false} LeadingIsBlank(s: string, i: nat)
    requires i <= |s|
    ensures i + Leading(s, i, BLANK) <= |s|
    ensures forall j :: i <= j < i + Leading(s, i, BLANK) ==> s[j] in BLANK
    decreases |s| - i
  {
    if i < |s| && s[i] in BLANK {
      LeadingIsBlank(s, i + 1);
    }
  }

  lemma WordsSkipBlanks(s: string, i: nat)
    requires i <= |s|
    ensures Words(s[i..]) == Words(s[i + Leading(s, i, BLANK)..])
  {
    LeadingIsBlank(s, i);
    WordsSkipTo(s, i, i + Leading(s, i, BLANK));
  }

  lemma WordsAfterBlank(s: string)
    requires s != "" && s[0] in BLANK
    ensures Words(s) == Words(s[1..])
  {
  }

  /** The first character of the output is that of the input, or a line break
      in place of a backslash. */
  lemma FirstShown(s: string, block: Pattern)
    ensures Normalize(s, block) == "" <==> s == ""
    ensures s != "" ==> (Normalize(s, block)[0] == s[0] || (Normalize(s, block)[0] == '\n' && s[0] == '\\'))
  {
  }

  /** Rendering makes no escaped break that was not there. */
  lemma NoNewEscape(s: string, c: char, block: Pattern)
    requires c == 'n' || c == 'r'
    requires Escape(Normalize(s, block), 0, c)
    ensures Escape(s, 0, c)
  {
    FirstShown(s, block);
    FirstShown(s[1..], block);
    assert Normalize(s, block)[0] == '\\' && Normalize(s, block)[1] == c;
    assert Normalize(s, block) == [s[0]] + Normalize(s[1..], block);
  }

  lemma KeptTwo(s: string, block: Pattern)
    requires BreakLength(s, 0) > 0 && Structural(s, block).None?
    ensures Normalize(s, block) == s[..2] + Normalize(s[2..], block)
  {
    assert s[1..][1..] == s[2..];
    assert Normalize(s, block) == [s[0]] + Normalize(s[1..], block);
    assert Normalize(s[1..], block) == [s[1]] + Normalize(s[2..], block);
    Pair(s, Normalize(s[2..], block));
  }

  lemma Pair(s: string, t: string)
    requires |s| >= 2
    ensures [s[0]] + ([s[1]] + t) == s[..2] + t
  {
  }

  lemma HalfIsKept(s: string, block: Pattern)
    requires BreakLength(s, 0) == 4 && Structural(s, block).None?
    ensures BreakLength(s[2..], 0) == 2 && Structural(s[2..], block).None?
  {
    var t, n := s[2..], 4 + Leading(s, 4, BLANK);
    LeadingSuffix(s, 2, 2, BLANK);
    assert t[n - 2..] == s[n..];
  }

  lemma KeptFour(s: string, block: Pattern)
    requires BreakLength(s, 0) == 4 && Structural(s, block).None?
    ensures Normalize(s, block) == s[..4] + Normalize(s[4..], block)
  {
    HalfIsKept(s, block);
    KeptTwo(s, block);
    KeptTwo(s[2..], block);
    Halves(s, Normalize(s[4..], block));
  }

  lemma Halves(s: string, t: string)
    requires |s| >= 4
    ensures s[2..][2..] == s[4..] && s[..2] + (s[2..][..2] + t) == s[..4] + t
  {
  }

  /** An escaped break that is kept is kept whole. */
  lemma KeptWhole(s: string, block: Pattern)
    requires BreakLength(s, 0) > 0 && Structural(s, block).None?
    ensures var b := BreakLength(s, 0);
      Normalize(s, block) == s[..b] + Normalize(s[b..], block) && BreakLength(Normalize(s, block), 0) == b
  {
    if BreakLength(s, 0) == 4 {
      KeptFour(s, block);
    } else {
      KeptTwo(s, block);
      NoFour(s, Normalize(s[2..], block), block);
    }
  }

  lemma NoFour(s: string, t: string, block: Pattern)
    requires BreakLength(s, 0) == 2 && t == Normalize(s[2..], block)
    ensures BreakLength(s[..2] + t, 0) == 2
  {
    if Escape(t, 0, 'n') {
      NoNewEscape(s[2..], 'n', block);
    }
  }

  lemma WordsOfBreak(s: string, block: Pattern)
    requires Structural(s, block).Some?
    ensures var n := Structural(s, block).value;
      Words(s) == Words(s[n..]) && Words(Normalize(s, block)) == Words(Normalize(s[n..], block))
  {
    WordsSkipBlanks(s, BreakLength(s, 0));
    assert Normalize(s, block)[1..] == Normalize(s[Structural(s, block).value..], block);
  }

  /** Rendering changes line breaks and the blanks after them, and nothing else. */
  lemma {:induction false} WordsArePreserved(s: string, block: Pattern)
    ensures Words(Normalize(s, block)) == Words(s)
    decreases |s|
  {
    var out := Normalize(s, block);
    if s == "" {
    } else if s[0] == '`' {
      if SpanLength(s).Some? {
        var n := SpanLength(s).value;
        WordsArePreserved(s[n..], block);
        SpanPrefix(s, Normalize(s[n..], block));
        assert out[..n] == s[..n] && out[n..] == Normalize(s[n..], block);
      }
    } else if Structural(s, block).Some? {
      WordsArePreserved(s[Structural(s, block).value..], block);
      WordsOfBreak(s, block);
    } else if BreakLength(s, 0) > 0 {
      var b := BreakLength(s, 0);
      KeptWhole(s, block);
      WordsArePreserved(s[b..], block);
      assert out[b..] == Normalize(s[b..], block);
    } else {
      WordsArePreserved(s[1..], block);
      FirstShown(s[1..], block);
      assert out[1..] == Normalize(s[1..], block);
    }
  }

  // ---- Surrounding white space ----

  predicate AllSpace(s: string) { forall i :: 0 <= i < |s| ==> IsSpace(s[i]) }

  lemma {:induction false} LeadingSpaceIgnored(w: string, s: string)
    requires AllSpace(w)
    ensures HasBreak(w + s) == HasBreak(s)
  {
    if w == "" {
      assert w + s == s;
    } else {
      assert (w + s)[1..] == w[1..] + s;
      LeadingSpaceIgnored(w[1..], s);
    }
  }

  lemma {:induction false} FindIgnoresTail(s: string, w: string, i: nat, pat: string)
    requires AllSpace(w) && pat != "" && i <= |s| && forall k :: 0 <= k < |pat| ==> pat[k] == '`'
    ensures Find(s + w, i, pat) == Find(s, i, pat)
    decreases |s| - i
  {
    var t := s + w;
    if i + |pat| <= |t| {
      var piece := t[i..i + |pat|];
      if i + |pat| <= |s| {
        assert piece == s[i..i + |pat|];
      } else {
        assert piece[|pat| - 1] == w[i + |pat| - 1 - |s|];
      }
      if i < |s| {
        FindIgnoresTail(s, w, i + 1, pat);
      } else {
        FindNoTick(t, i, pat);
      }
    }
  }

  lemma {:induction false} FindNoTick(s: string, i: nat, pat: string)
    requires pat != "" && pat[0] == '`' && i <= |s| && forall k :: i <= k < |s| ==> s[k] != '`'
    ensures Find(s, i, pat).None?
    decreases |s| - i
  {
    if i + |pat| <= |s| {
      assert s[i..i + |pat|][0] == s[i];
      FindNoTick(s, i + 1, pat);
    }
  }

  lemma {:induction false} TicksIgnoreTail(s: string, w: string, i: nat)
    requires AllSpace(w) && i <= |s|
    ensures Leading(s + w, i, TICK) == Leading(s, i, TICK)
    decreases |s| - i
  {
    if i < |s| {
      TicksIgnoreTail(s, w, i + 1);
    }
  }

  lemma SpanIgnoresTail(s: string, w: string)
    requires AllSpace(w) && s != "" && s[0] == '`'
    ensures SpanLength(s + w) == SpanLength(s)
  {
    var n := Leading(s, 0, TICK);
    TicksIgnoreTail(s, w, 0);
    LeadingRun(s, 0, TICK);
    assert (s + w)[..n] == s[..n];
    FindIgnoresTail(s, w, n, s[..n]);
  }

  lemma {:induction false} TrailingSpaceIgnored(s: string, w: string)
    requires AllSpace(w)
    ensures HasBreak(s + w) == HasBreak(s)
    decreases |s|
  {
    if s == "" {
      LeadingSpaceIgnored(w, "");
      assert w + "" == w && s + w == w;
    } else if s[0] == '`' {
      SpanIgnoresTail(s, w);
      if SpanLength(s).Some? {
        var n := SpanLength(s).value;
        assert (s + w)[n..] == s[n..] + w;
        TrailingSpaceIgnored(s[n..], w);
      }
    } else {
      assert (s + w)[1..] == s[1..] + w;
      TrailingSpaceIgnored(s[1..], w);
    }
  }

  lemma {:induction false} TrimStartTakesSpace(s: string) returns (w: string)
    ensures AllSpace(w) && s == w + TrimStart(s)
  {
    w := "";
    if s != "" && IsSpace(s[0]) {
      var v := TrimStartTakesSpace(s[1..]);
      w := [s[0]] + v;
      assert s == [s[0]] + s[1..];
    }
  }

  lemma {:induction false} TrimEndTakesSpace(s: string) returns (w: string)
    ensures AllSpace(w) && s == TrimEnd(s) + w
  {
    w := "";
    if s != "" && IsSpace(s[|s| - 1]) {
      var v := TrimEndTakesSpace(s[..|s| - 1]);
      w := v + [s[|s| - 1]];
      assert s == s[..|s| - 1] + [s[|s| - 1]];
    }
  }

  /** Judging the trimmed text is judging the text. */
  lemma TrimmingChangesNothing(s: string)
    ensures HasBreak(Trim(s)) == HasBreak(s)
  {
    var w := TrimStartTakesSpace(s);
    LeadingSpaceIgnored(w, TrimStart(s));
    var v := TrimEndTakesSpace(TrimStart(s));
    TrailingSpaceIgnored(Trim(s), v);
  }

  // ---- What is accepted ----

  const DESCRIPTION_STRUCTURE_THRESHOLD: nat := 600
  const MESSAGE_STRUCTURE_THRESHOLD: nat := 400
  const PROSE_KEYS: seq<string> := ["text", "markdown", "message", "summary"]

  /** A value of a request body, as far as these checks tell values apart. */
  datatype Input = Absent | Text(text: string) | NotText

  datatype Check<T> = Accepted(value: T) | Refused(code: string)

  /** `validateContractDescription`. */
  function ValidateDescription(input: Input): Check<Option<string>> {
    match input
    case Absent => Accepted(None)
    case NotText => Refused("CONTRACT_DESCRIPTION_INVALID")
    case Text(text) =>
      var value := Trim(text);
      if |value| == 0 then Accepted(None)
      else if HasBreak(value) then Refused("CONTRACT_DESCRIPTION_ESCAPED_BREAKS")
      else if Units(value) > DESCRIPTION_STRUCTURE_THRESHOLD && Free(value, '\n') then
        Refused("CONTRACT_DESCRIPTION_UNSTRUCTURED")
      else Accepted(Some(value))
  }

  /** `validateMessageStructure`, from the first of the remaining keys on. */
  function ValidateMessage(content: map<string, Input>, keys: seq<string>): Check<()> {
    if keys == [] then Accepted(())
    else if keys[0] !in content || !content[keys[0]].Text? then ValidateMessage(content, keys[1..])
    else
      var prose := Trim(content[keys[0]].text);
      if HasBreak(prose) then Refused("MESSAGE_ESCAPED_BREAKS")
      else if Units(prose) > MESSAGE_STRUCTURE_THRESHOLD && Free(prose, '\n') then Refused("MESSAGE_UNSTRUCTURED")
      else ValidateMessage(content, keys[1..])
  }

  /** What is stored of an accepted description is shown as it is, and reads as
      it was sent: trimming it first hid no escaped break. */
  lemma DescriptionIsShownAsWritten(text: string, value: string)
    requires ValidateDescription(Text(text)) == Accepted(Some(value))
    ensures Normalize(value, BlockStart) == value && Normalize(text, BlockStart) == text
  {
    TrimmingChangesNothing(text);
    AcceptedIsUnchanged(value, BlockStart);
    AcceptedIsUnchanged(text, BlockStart);
  }

  /** A body of a message that its structure check can refuse. */
  predicate Unfit(s: string) {
    HasBreak(s) || (Units(Trim(s)) > MESSAGE_STRUCTURE_THRESHOLD && Free(Trim(s), '\n'))
  }

  /** A message is accepted exactly when none of its prose bodies, as sent, is
      unfit. */
  lemma {:induction false} MessageAcceptedExactly(content: map<string, Input>, keys: seq<string>)
    ensures ValidateMessage(content, keys).Accepted?
       <==> forall k :: k in keys && k in content && content[k].Text? ==> !Unfit(content[k].text)
  {
    if keys != [] {
      assert forall k :: k in keys <==> k == keys[0] || k in keys[1..];
      MessageAcceptedExactly(content, keys[1..]);
      if keys[0] in content && content[keys[0]].Text? {
        TrimmingChangesNothing(content[keys[0]].text);
      }
    }
  }

  /** Every body of an accepted message is shown exactly as it was sent. */
  lemma MessageIsShownAsWritten(content: map<string, Input>, key: string)
    requires ValidateMessage(content, PROSE_KEYS).Accepted?
    requires key in PROSE_KEYS && key in content && content[key].Text?
    ensures Normalize(content[key].text, BlockStart) == content[key].text
  {
    MessageAcceptedExactly(content, PROSE_KEYS);
    AcceptedIsUnchanged(content[key].text, BlockStart);
  }
}
