/** What the renderer does to a text, piece by piece: which escaped breaks it
    restores, what counts as the start of a block, where code ends. */
module MarkdownBreaks {
  import opened Text
  import opened Markdown

  /** The escaped breaks: a backslash and a letter, or two such pairs. */
  const ESCAPED_RN: string := ['\\', 'r', '\\', 'n']
  const ESCAPED_N: string := ['\\', 'n']
  const ESCAPED_R: string := ['\\', 'r']

  predicate Starts(s: string, w: string) { |w| <= |s| && s[..|w|] == w }

  predicate StartsWithBreak(s: string) { Starts(s, ESCAPED_N) || Starts(s, ESCAPED_R) }

  lemma StartsPair(s: string, w: string)
    requires |w| == 2
    ensures Starts(s, w) <==> |s| >= 2 && s[0] == w[0] && s[1] == w[1]
  {
    if |s| >= 2 {
      assert s[..2] == [s[0], s[1]];
      assert w == [w[0], w[1]];
    }
  }

  lemma BreakLengthExactly(s: string)
    ensures BreakLength(s, 0) == if Starts(s, ESCAPED_RN) then 4 else if StartsWithBreak(s) then 2 else 0
  {
    StartsPair(s, ESCAPED_N);
    StartsPair(s, ESCAPED_R);
    if |s| >= 4 {
      assert s[..4] == [s[0], s[1], s[2], s[3]];
    }
  }

  predicate Blanks(s: string) { forall i :: 0 <= i < |s| ==> s[i] == ' ' || s[i] == '\t' }

  predicate NoBlankFirst(s: string) { s == "" || (s[0] != ' ' && s[0] != '\t') }

  lemma {:induction false} LeadingBlanks(head: string, blanks: string, rest: string)
    requires Blanks(blanks) && NoBlankFirst(rest)
    ensures Leading(head + blanks + rest, |head|, BLANK) == |blanks|
    decreases |blanks|
  {
    var s := head + blanks + rest;
    if blanks == "" {
      assert rest != "" ==> s[|head|] == rest[0];
    } else {
      var more := head + [blanks[0]];
      assert s[|head|] == blanks[0];
      assert s == more + blanks[1..] + rest;
      LeadingBlanks(more, blanks[1..], rest);
    }
  }

  /** The text at a place is that of the text from there on. */
  lemma BreakLengthAt(s: string, i: nat)
    requires i <= |s|
    ensures BreakLength(s, i) == BreakLength(s[i..], 0)
  {
  }

  lemma Behind(a: string, b: string, c: string)
    ensures var s := a + b + c; s == a + (b + c) && s[..|a|] == a && s[|a|..] == b + c && s[|a| + |b|..] == c
  {
  }

  lemma BreakBehind(s: string, n: nat, rest: string)
    requires n <= |s| && s[n..] == rest
    ensures BreakLength(s, n) > 0 <==> StartsWithBreak(rest)
  {
    BreakLengthAt(s, n);
    RestStartsWithBreak(rest);
  }

  lemma BreakLengthBehind(escaped: string, blanks: string, rest: string)
    requires escaped in {ESCAPED_RN, ESCAPED_N, ESCAPED_R} && Blanks(blanks) && NoBlankFirst(rest)
    requires escaped == ESCAPED_R ==> !Starts(blanks + rest, ESCAPED_N)
    ensures var s := escaped + blanks + rest;
      BreakLength(s, 0) == |escaped| && Leading(s, |escaped|, BLANK) == |blanks|
      && s[|escaped| + |blanks|..] == rest && (BreakLength(s, |escaped| + |blanks|) > 0 <==> StartsWithBreak(rest))
  {
    Behind(escaped, blanks, rest);
    BreakOf(escaped, blanks + rest);
    LeadingBlanks(escaped, blanks, rest);
    BreakBehind(escaped + blanks + rest, |escaped| + |blanks|, rest);
  }

  /** An escaped break before another one or before a block becomes one real line
      break, and the blanks behind it go; any other stays as it is written. */
  lemma BreakExactly(escaped: string, blanks: string, rest: string, block: Pattern)
    requires escaped in {ESCAPED_RN, ESCAPED_N, ESCAPED_R} && Blanks(blanks) && NoBlankFirst(rest)
    requires escaped == ESCAPED_R ==> !Starts(blanks + rest, ESCAPED_N)
    ensures var s := escaped + blanks + rest; var restored := StartsWithBreak(rest) || block(rest);
      Structural(s, block) == (if restored then Some(|escaped| + |blanks|) else None)
      && Normalize(s, block)
         == if restored then "\n" + Normalize(rest, block) else escaped + Normalize(blanks + rest, block)
  {
    var s := escaped + blanks + rest;
    BreakLengthBehind(escaped, blanks, rest);
    if !(StartsWithBreak(rest) || block(rest)) {
      KeptWhole(s, block);
      Behind(escaped, blanks, rest);
    }
  }

  lemma RestStartsWithBreak(rest: string)
    ensures BreakLength(rest, 0) > 0 <==> StartsWithBreak(rest)
  {
    BreakLengthExactly(rest);
    StartsPair(rest, ESCAPED_R);
    if Starts(rest, ESCAPED_RN) {
      assert rest[..4][0] == '\\' && rest[..4][1] == 'r';
    }
  }

  lemma BreakOf(escaped: string, after: string)
    requires escaped in {ESCAPED_RN, ESCAPED_N, ESCAPED_R}
    requires escaped == ESCAPED_R ==> !Starts(after, ESCAPED_N)
    ensures BreakLength(escaped + after, 0) == |escaped|
  {
    StartsPair(after, ESCAPED_N);
  }

  /** Everything else outside code is copied. */
  lemma CopiedExactly(c: char, rest: string, block: Pattern)
    requires c != '`' && !StartsWithBreak([c] + rest)
    ensures Normalize([c] + rest, block) == [c] + Normalize(rest, block)
  {
    RestStartsWithBreak([c] + rest);
    assert ([c] + rest)[1..] == rest;
  }

  predicate Prose(s: string) { forall i :: 0 <= i < |s| ==> s[i] != '`' && s[i] != '\\' }

  lemma NoBackslashNoBreak(c: char, rest: string)
    requires c != '\\'
    ensures !StartsWithBreak([c] + rest)
  {
    StartsPair([c] + rest, ESCAPED_N);
    StartsPair([c] + rest, ESCAPED_R);
  }

  lemma OneThenMore(c: char, a: string, b: string)
    ensures ([c] + a) + b == [c] + (a + b)
  {
  }

  lemma {:induction false} ProseIsCopied(s: string, rest: string, block: Pattern)
    requires Prose(s)
    ensures Normalize(s + rest, block) == s + Normalize(rest, block)
  {
    if s == "" {
      assert s + rest == rest;
    } else {
      var c, t := s[0], s[1..];
      assert s == [c] + t;
      ProseIsCopied(t, rest, block);
      OneThenMore(c, t, rest);
      OneThenMore(c, t, Normalize(rest, block));
      NoBackslashNoBreak(c, t + rest);
      CopiedExactly(c, t + rest, block);
    }
  }

  /** Prose, an escaped break and a block: the block gets its own line. Prose
      before something that is no block keeps what was written. */
  lemma BlockGetsItsLine(prose: string, escaped: string, blanks: string, rest: string, block: Pattern)
    requires Prose(prose) && Prose(rest) && rest != "" && Blanks(blanks) && NoBlankFirst(rest)
    requires escaped in {ESCAPED_RN, ESCAPED_N, ESCAPED_R}
    ensures Normalize(prose + (escaped + blanks + rest), block)
         == prose + if block(rest) then "\n" + rest else escaped + (blanks + rest)
  {
    ProseIsCopied(prose, escaped + blanks + rest, block);
    assert Prose(blanks + rest);
    StartsPair(rest, ESCAPED_N);
    StartsPair(rest, ESCAPED_R);
    StartsPair(blanks + rest, ESCAPED_N);
    BreakExactly(escaped, blanks, rest, block);
    ProseIsCopied(rest, "", block);
    ProseIsCopied(blanks + rest, "", block);
    assert rest + "" == rest && (blanks + rest) + "" == blanks + rest;
  }

  // ---- What starts a block ----

  /** `n` characters of a kind, and no more. */
  predicate Run(s: string, n: nat, cs: set<char>) {
    n <= |s| && (forall i :: 0 <= i < n ==> s[i] in cs) && (n < |s| ==> s[n] !in cs)
  }

  lemma {:induction false} LeadingIsRun(s: string, i: nat, n: nat, cs: set<char>)
    requires i <= n && Run(s, n, cs)
    ensures Leading(s, i, cs) == n - i
    decreases n - i
  {
    if i < n {
      LeadingIsRun(s, i + 1, n, cs);
    }
  }

  const DIGITS: set<char> := {'0', '1', '2', '3', '4', '5', '6', '7', '8', '9'}

  /** A heading of up to six levels, a bullet, a quotation, an ordered item: each
      with white space behind its mark. */
  lemma BlockStartExactly(s: string, hashes: nat, digits: nat)
    requires Run(s, hashes, {'#'}) && Run(s, digits, DIGITS)
    ensures BlockStart(s)
       <==> (1 <= hashes <= 6 && |s| > hashes && IsSpace(s[hashes]))
            || (|s| > 1 && (s[0] == '-' || s[0] == '*' || s[0] == '+' || s[0] == '>') && IsSpace(s[1]))
            || (1 <= digits && |s| > digits + 1 && (s[digits] == '.' || s[digits] == ')') && IsSpace(s[digits + 1]))
  {
    LeadingIsRun(s, 0, hashes, {'#'});
    LeadingIsRun(s, 0, digits, DIGITS);
  }

  // ---- Where code ends ----

  predicate At(s: string, i: int, w: string) { 0 <= i && i + |w| <= |s| && s[i..i + |w|] == w }

  /** The first place from `i` on, and none before it. */
  predicate FirstAt(s: string, i: nat, j: nat, w: string) {
    i <= j && At(s, j, w) && forall k :: i <= k < j ==> !At(s, k, w)
  }

  ghost predicate NowhereAt(s: string, i: nat, w: string) { forall k :: i <= k ==> !At(s, k, w) }

  lemma {:induction false} FindExactly(s: string, i: nat, w: string)
    requires i <= |s|
    ensures match Find(s, i, w) case Some(j) => FirstAt(s, i, j, w) case None => NowhereAt(s, i, w)
    decreases |s| - i
  {
    if i + |w| <= |s| && s[i..i + |w|] != w && i < |s| {
      FindExactly(s, i + 1, w);
      assert !At(s, i, w);
    }
  }

  lemma OneFirst(s: string, i: nat, j: nat, k: nat, w: string)
    requires FirstAt(s, i, j, w)
    ensures FirstAt(s, i, k, w) <==> k == j
    ensures !NowhereAt(s, i, w)
  {
  }

  /** A code span is a run of backticks, and ends behind the first place after it
      where as many follow one another; without one there is no span. */
  lemma SpanExactly(s: string, n: nat, j: nat)
    requires s != "" && s[0] == '`' && Run(s, n, {'`'})
    ensures SpanLength(s) == Some(j + n) <==> FirstAt(s, n, j, s[..n])
    ensures SpanLength(s).None? <==> NowhereAt(s, n, s[..n])
  {
    LeadingIsRun(s, 0, n, {'`'});
    var found := Find(s, n, s[..n]);
    FindExactly(s, n, s[..n]);
    SpanIsFound(s, n, found);
    if found.Some? {
      OneFirst(s, n, found.value, j, s[..n]);
    }
  }

  lemma SpanIsFound(s: string, n: nat, found: Option<nat>)
    requires s != "" && s[0] == '`' && n == Leading(s, 0, TICK) && found == Find(s, n, s[..n])
    ensures SpanLength(s) == match found case None => None case Some(j) => Some(j + n)
  {
  }

  /** A span is copied, and what follows it rendered; what no run closes is code
      to the end. */
  lemma CodeExactly(s: string, block: Pattern)
    requires s != "" && s[0] == '`'
    ensures Normalize(s, block) == match SpanLength(s) case None => s case Some(n) => s[..n] + Normalize(s[n..], block)
  {
  }

  // ---- What the writer's check refuses ----

  /** An escaped break in prose is found, whatever comes after, and prose alone
      has none. */
  lemma {:induction false} BreakIsFound(prose: string, rest: string)
    requires Prose(prose)
    ensures StartsWithBreak(rest) ==> HasBreak(prose + rest)
    ensures HasBreak(prose + rest) <==> HasBreak(rest)
  {
    if prose == "" {
      assert prose + rest == rest;
      RestStartsWithBreak(rest);
      StartsPair(rest, ESCAPED_N);
      StartsPair(rest, ESCAPED_R);
    } else {
      var s := prose + rest;
      assert s[1..] == prose[1..] + rest;
      BreakIsFound(prose[1..], rest);
      RestStartsWithBreak(s);
      StartsPair(s, ESCAPED_N);
      StartsPair(s, ESCAPED_R);
    }
  }

  /** In code it is not looked for: the search goes on behind the span, and ends
      where no run closes one. */
  lemma CodeIsSkipped(s: string)
    requires s != "" && s[0] == '`'
    ensures HasBreak(s) <==> SpanLength(s).Some? && HasBreak(s[SpanLength(s).value..])
  {
  }

  /** A description is refused for an escaped break, or for being longer than 600
      UTF-16 units on one line; blank, it counts as none; accepted, it is trimmed. */
  lemma DescriptionExactly(text: string)
    ensures ValidateDescription(Absent) == Accepted(None)
    ensures ValidateDescription(NotText) == Refused("CONTRACT_DESCRIPTION_INVALID")
    ensures var value := Trim(text);
      ValidateDescription(Text(text))
      == (if value == "" then Accepted(None)
          else if HasBreak(value) then Refused("CONTRACT_DESCRIPTION_ESCAPED_BREAKS")
          else if Units(value) > 600 && '\n' !in value then Refused("CONTRACT_DESCRIPTION_UNSTRUCTURED")
          else Accepted(Some(value)))
  {
  }

  /** And a body of a message is unfit for the first, or beyond 400. */
  lemma UnfitExactly(s: string)
    ensures Unfit(s) <==> HasBreak(s) || (Units(Trim(s)) > 400 && '\n' !in Trim(s))
    ensures PROSE_KEYS == ["text", "markdown", "message", "summary"]
  {
  }

  /** The bodies of a message are looked at in turn, and the first that is unfit
      says why. */
  lemma MessageExactly(content: map<string, Input>, key: string, rest: seq<string>)
    ensures ValidateMessage(content, []) == Accepted(())
    ensures ValidateMessage(content, [key] + rest)
         == if key !in content || !content[key].Text? then ValidateMessage(content, rest)
            else if HasBreak(Trim(content[key].text)) then Refused("MESSAGE_ESCAPED_BREAKS")
            else if Unfit(content[key].text) then Refused("MESSAGE_UNSTRUCTURED")
            else ValidateMessage(content, rest)
  {
    assert ([key] + rest)[1..] == rest;
    if key in content && content[key].Text? {
      TrimmingChangesNothing(content[key].text);
    }
  }
}
