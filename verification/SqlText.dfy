/** The text of a clause read back character by character: no two clauses that
    can be sent are written alike, and each has one reading under SQL's
    precedence. */
module SqlText {
  import opened Text
  import opened Sql
  import opened Renumber

  // ---- Splitting text into tokens ----

  const STOPS: set<char> := {' ', '.', '(', ')', ',', '"', '$'}

  /** How much of a text is free of these characters. */
  function Span(s: string, stops: set<char>): (n: nat)
    ensures n <= |s|
  {
    if s == "" || s[0] in stops then 0 else 1 + Span(s[1..], stops)
  }

  predicate StartsWith(s: string, w: string) { |w| <= |s| && s[..|w|] == w }

  /** A token and how much text it takes. */
  datatype Lexed = Lexed(token: Token, length: nat)

  function ReadAlias(w: string): Option<Alias> {
    if w == "b" then Some(Base)
    else if |w| < 2 || !AllDigits(w[1..]) then None
    else if w[0] == 'f' then Some(FilterAlias(ReadDec(w[1..])))
    else if w[0] == 'r' then Some(RelationAlias(ReadDec(w[1..])))
    else None
  }

  function LexOne(s: string): Option<Lexed> {
    if s == "" then None
    else if s[0] == '(' then Some(Lexed(Open, 1))
    else if s[0] == ')' then Some(Lexed(Close, 1))
    else if s[0] == ',' then (if StartsWith(s, ", ") then Some(Lexed(Comma, 2)) else None)
    else if s[0] == '$' then LexParam(s)
    else if s[0] == '"' then LexSource(s)
    else if s[0] == ' ' then LexSpaced(s)
    else LexWord(s)
  }

  function LexParam(s: string): Option<Lexed>
    requires s != ""
  {
    var n := DigitRun(s[1..]);
    if n == 0 then None else Some(Lexed(Param(ReadDec(s[1..][..n])), 1 + n))
  }

  /** A quoted name from here, and what follows it. */
  function LexQuoted(s: string): Option<(string, string)> {
    if s == "" || s[0] != '"' then None
    else
      var k := Span(s[1..], {'"'});
      if k == |s[1..]| then None else Some((s[1..][..k], s[1..][k + 1..]))
  }

  function LexSource(s: string): Option<Lexed> {
    var name := LexQuoted(s);
    if name.None? || !StartsWith(name.value.1, " ") then None
    else
      var rest := name.value.1[1..];
      var w := rest[..Span(rest, STOPS)];
      var alias := ReadAlias(w);
      if alias.None? then None else Some(Lexed(Source(name.value.0, alias.value), |name.value.0| + 3 + |w|))
  }

  /** Words and operators between blanks. */
  function LexSpaced(s: string): Option<Lexed>
    requires s != ""
  {
    var k := Span(s[1..], {' '});
    var w, rest := s[1..][..k], s[1..][k..];
    if rest == "" then None
    else Between(w, rest[1..])
  }

  function Between(w: string, after: string): Option<Lexed> {
    if w == "and" then Some(Lexed(AndWord, 5))
    else if w == "or" then Some(Lexed(OrWord, 4))
    else if w == "where" then Some(Lexed(WhereWord, 7))
    else if w == "in" then Some(Lexed(InWord, 4))
    else if w == "is" then Some(if StartsWith(after, "not ") then Lexed(IsNotWord, 8) else Lexed(IsWord, 4))
    else if w == "not" then (if StartsWith(after, "in ") then Some(Lexed(NotInWord, 8)) else None)
    else if w == "" then None
    else Some(Lexed(Operator(w), |w| + 2))
  }

  function LexWord(s: string): Option<Lexed> {
    var m := Span(s, STOPS);
    var w, rest := s[..m], s[m..];
    if StartsWith(rest, ".") then LexColumn(w, rest[1..])
    else if w == "null" then Some(Lexed(Word(LNull), 4))
    else if w == "true" then Some(Lexed(Word(LTrue), 4))
    else if w == "false" then Some(Lexed(Word(LFalse), 5))
    else if w == "not" && StartsWith(rest, " ") then Some(Lexed(NotWord, 4))
    else if w == "exists" && StartsWith(rest, " (select 1 from ") then Some(Lexed(ExistsWord, 22))
    else None
  }

  function LexColumn(w: string, rest: string): Option<Lexed> {
    var alias, name := ReadAlias(w), LexQuoted(rest);
    if alias.None? || name.None? then None
    else Some(Lexed(Column(ColumnRef(alias.value, name.value.0)), |w| + |name.value.0| + 3))
  }

  function Lex(s: string): Option<seq<Token>>
    decreases |s|
  {
    if s == "" then Some([])
    else
      var first := LexOne(s);
      if first.None? || first.value.length == 0 || first.value.length > |s| then None
      else
        var rest := Lex(s[first.value.length..]);
        if rest.None? then None else Some([first.value.token] + rest.value)
  }

  /** The clause a text stands for. */
  function ReadText(s: string): Read<Disj> {
    match Lex(s) case None => Fail case Some(ts) => ReadDisj(ts)
  }

  // ---- What can be told apart ----

  const KEYWORDS: set<string> := {"and", "or", "where", "in", "is", "not"}

  /** An operator is one word that is no keyword. */
  predicate PlainOperator(operator: string) {
    operator != "" && operator !in KEYWORDS && forall i :: 0 <= i < |operator| ==> operator[i] != ' '
  }

  predicate PlainName(name: string) { forall i :: 0 <= i < |name| ==> name[i] != '"' }

  predicate PlainToken(t: Token) {
    match t
    case Column(c) => PlainName(c.name)
    case Source(table, _) => PlainName(table)
    case Operator(operator) => PlainOperator(operator)
    case _ => true
  }

  predicate Stopped(s: string) { s == "" || s[0] in STOPS }

  /** What must follow a token for its end to be seen. */
  predicate Ended(t: Token, rest: string) {
    match t
    case Param(_) => NonDigitStart(rest)
    case Word(_) => Stopped(rest) && !StartsWith(rest, ".")
    case Source(_, _) => Stopped(rest)
    case IsWord => !StartsWith(rest, "not ")
    case _ => true
  }

  // ---- Each token is read back ----

  lemma {:induction false} SpanOf(a: string, b: string, stops: set<char>)
    requires forall i :: 0 <= i < |a| ==> a[i] !in stops
    requires b == "" || b[0] in stops
    ensures Span(a + b, stops) == |a| && (a + b)[..|a|] == a && (a + b)[|a|..] == b
  {
    if a == "" {
      assert a + b == b;
    } else {
      assert (a + b)[1..] == a[1..] + b;
      SpanOf(a[1..], b, stops);
    }
  }

  lemma QuotedBack(name: string, rest: string)
    requires PlainName(name)
    ensures LexQuoted(Quote(name) + rest) == Some((name, rest))
  {
    var s := Quote(name) + rest;
    assert s[1..] == name + ("\"" + rest);
    SpanOf(name, "\"" + rest, {'"'});
    assert ("\"" + rest)[1..] == rest;
    assert s[1..][|name| + 1..] == rest;
  }

  lemma AliasBack(a: Alias)
    ensures ReadAlias(AliasText(a)) == Some(a)
    ensures forall i :: 0 <= i < |AliasText(a)| ==> AliasText(a)[i] !in STOPS
  {
    match a
    case Base =>
    case FilterAlias(n) =>
      ReadDecDec(n);
      assert AliasText(a)[1..] == Dec(n);
    case RelationAlias(n) =>
      ReadDecDec(n);
      assert AliasText(a)[1..] == Dec(n);
  }

  lemma ParamBack(n: nat, rest: string)
    requires NonDigitStart(rest)
    ensures LexOne(TokenText(Param(n)) + rest) == Some(Lexed(Param(n), |TokenText(Param(n))|))
  {
    var s := TokenText(Param(n)) + rest;
    assert s[1..] == Dec(n) + rest;
    DigitRunAppend(Dec(n), rest);
    DigitRunAll(Dec(n));
    ReadDecDec(n);
    assert (Dec(n) + rest)[..|Dec(n)|] == Dec(n);
  }

  lemma Regrouped(a: string, b: string, c: string, d: string)
    ensures a + b + c + d == a + (b + (c + d)) && |a + b + c| == |a| + |b| + |c|
  {
  }

  lemma SourceText(table: string, alias: Alias, rest: string)
    ensures TokenText(Source(table, alias)) + rest == Quote(table) + (" " + (AliasText(alias) + rest))
    ensures |TokenText(Source(table, alias))| == |table| + 3 + |AliasText(alias)|
  {
    Regrouped(Quote(table), " ", AliasText(alias), rest);
  }

  lemma AliasAfter(alias: Alias, rest: string)
    requires Stopped(rest)
    ensures var s, w := AliasText(alias) + rest, AliasText(alias);
      Span(s, STOPS) == |w| && s[..|w|] == w && ReadAlias(s[..|w|]) == Some(alias)
  {
    AliasBack(alias);
    SpanOf(AliasText(alias), rest, STOPS);
  }

  lemma AfterBlank(s: string)
    ensures StartsWith(" " + s, " ") && (" " + s)[1..] == s
    ensures StartsWith("." + s, ".") && ("." + s)[1..] == s
  {
  }

  lemma SourceIs(s: string, name: string, after: string, x: string, w: string, alias: Alias)
    requires LexQuoted(s) == Some((name, after)) && StartsWith(after, " ") && after[1..] == x
    requires x[..Span(x, STOPS)] == w && ReadAlias(w) == Some(alias)
    ensures LexSource(s) == Some(Lexed(Source(name, alias), |name| + 3 + |w|))
  {
  }

  lemma SourceLexed(table: string, alias: Alias, rest: string)
    requires PlainName(table) && Stopped(rest)
    ensures LexSource(Quote(table) + (" " + (AliasText(alias) + rest)))
         == Some(Lexed(Source(table, alias), |table| + 3 + |AliasText(alias)|))
  {
    var w := AliasText(alias);
    var after := " " + (w + rest);
    QuotedBack(table, after);
    AfterBlank(w + rest);
    AliasAfter(alias, rest);
    SourceIs(Quote(table) + after, table, after, w + rest, w, alias);
  }

  lemma SourceFirst(s: string, lexed: Option<Lexed>)
    requires s != "" && s[0] == '"' && LexSource(s) == lexed
    ensures LexOne(s) == lexed
  {
  }

  lemma SourceRegrouped(table: string, alias: Alias, rest: string, length: nat)
    requires PlainName(table) && Stopped(rest) && length == |table| + 3 + |AliasText(alias)|
    ensures LexOne(Quote(table) + (" " + (AliasText(alias) + rest))) == Some(Lexed(Source(table, alias), length))
  {
    var s := Quote(table) + (" " + (AliasText(alias) + rest));
    SourceLexed(table, alias, rest);
    assert s[0] == '"';
    SourceFirst(s, Some(Lexed(Source(table, alias), length)));
  }

  lemma SourceBack(table: string, alias: Alias, rest: string)
    requires PlainName(table) && Stopped(rest)
    ensures LexOne(TokenText(Source(table, alias)) + rest)
         == Some(Lexed(Source(table, alias), |TokenText(Source(table, alias))|))
  {
    SourceText(table, alias, rest);
    SourceRegrouped(table, alias, rest, |TokenText(Source(table, alias))|);
  }

  lemma ColumnText(c: ColumnRef, rest: string)
    ensures TokenText(Column(c)) + rest == AliasText(c.alias) + ("." + (Quote(c.name) + rest))
    ensures |TokenText(Column(c))| == |AliasText(c.alias)| + |c.name| + 3
  {
    Regrouped(AliasText(c.alias), ".", Quote(c.name), rest);
  }

  lemma ColumnWord(alias: Alias, rest: string)
    requires Stopped(rest)
    ensures var s, w := AliasText(alias) + rest, AliasText(alias);
      LexOne(s) == LexWord(s) && s[..Span(s, STOPS)] == w && s[Span(s, STOPS)..] == rest
  {
    AliasBack(alias);
    LetterSpan(AliasText(alias), rest);
  }

  lemma ColumnIs(s: string, w: string, after: string, x: string, alias: Alias, name: string, rest: string)
    requires s[..Span(s, STOPS)] == w && s[Span(s, STOPS)..] == after && StartsWith(after, ".") && after[1..] == x
    requires ReadAlias(w) == Some(alias) && LexQuoted(x) == Some((name, rest))
    ensures LexWord(s) == Some(Lexed(Column(ColumnRef(alias, name)), |w| + |name| + 3))
  {
  }

  lemma ColumnLexed(c: ColumnRef, rest: string)
    requires PlainName(c.name)
    ensures LexWord(AliasText(c.alias) + ("." + (Quote(c.name) + rest)))
         == Some(Lexed(Column(c), |AliasText(c.alias)| + |c.name| + 3))
  {
    var w, x := AliasText(c.alias), Quote(c.name) + rest;
    ColumnWord(c.alias, "." + x);
    QuotedBack(c.name, rest);
    AfterBlank(x);
    AliasReads(c.alias);
    ColumnIs(w + ("." + x), w, "." + x, x, c.alias, c.name, rest);
  }

  lemma AliasReads(a: Alias)
    ensures ReadAlias(AliasText(a)) == Some(a)
  {
    AliasBack(a);
  }

  lemma ColumnRegrouped(c: ColumnRef, rest: string, length: nat)
    requires PlainName(c.name) && length == |AliasText(c.alias)| + |c.name| + 3
    ensures LexOne(AliasText(c.alias) + ("." + (Quote(c.name) + rest))) == Some(Lexed(Column(c), length))
  {
    ColumnLexed(c, rest);
    ColumnWord(c.alias, "." + (Quote(c.name) + rest));
  }

  lemma ColumnBack(c: ColumnRef, rest: string)
    requires PlainName(c.name)
    ensures LexOne(TokenText(Column(c)) + rest) == Some(Lexed(Column(c), |TokenText(Column(c))|))
  {
    ColumnText(c, rest);
    ColumnRegrouped(c, rest, |TokenText(Column(c))|);
  }

  lemma SpacedBack(w: string, after: string)
    requires forall i :: 0 <= i < |w| ==> w[i] != ' '
    ensures LexOne(" " + w + " " + after) == Between(w, after)
  {
    var s := " " + w + " " + after;
    assert s[1..] == w + (" " + after);
    SpanOf(w, " " + after, {' '});
    assert (" " + after)[1..] == after;
  }

  lemma JoiningWordBack(t: Token, rest: string)
    requires t.AndWord? || t.OrWord? || t.WhereWord? || t.InWord?
    ensures LexOne(TokenText(t) + rest) == Some(Lexed(t, |TokenText(t)|))
  {
    match t
    case AndWord => SpacedBack("and", rest); assert " and " == " " + "and" + " ";
    case OrWord => SpacedBack("or", rest); assert " or " == " " + "or" + " ";
    case WhereWord => SpacedBack("where", rest); assert " where " == " " + "where" + " ";
    case InWord => SpacedBack("in", rest); assert " in " == " " + "in" + " ";
  }

  lemma IsBack(rest: string)
    requires !StartsWith(rest, "not ")
    ensures LexOne(" is " + rest) == Some(Lexed(IsWord, 4))
  {
    SpacedBack("is", rest);
    assert " is " == " " + "is" + " ";
  }

  lemma IsNotBack(rest: string)
    ensures LexOne(" is not " + rest) == Some(Lexed(IsNotWord, 8))
  {
    SpacedBack("is", "not " + rest);
    assert " is not " + rest == " " + "is" + " " + ("not " + rest);
  }

  lemma NotInBack(rest: string)
    ensures LexOne(" not in " + rest) == Some(Lexed(NotInWord, 8))
  {
    SpacedBack("not", "in " + rest);
    assert " not in " + rest == " " + "not" + " " + ("in " + rest);
  }

  lemma OperatorBack(operator: string, rest: string)
    requires PlainOperator(operator)
    ensures LexOne(TokenText(Operator(operator)) + rest) == Some(Lexed(Operator(operator), |operator| + 2))
  {
    SpacedBack(operator, rest);
  }

  lemma LetterSpan(w: string, rest: string)
    requires Stopped(rest) && w != "" && forall i :: 0 <= i < |w| ==> w[i] !in STOPS
    ensures LexOne(w + rest) == LexWord(w + rest)
    ensures Span(w + rest, STOPS) == |w| && (w + rest)[..|w|] == w && (w + rest)[|w|..] == rest
  {
    SpanOf(w, rest, STOPS);
    assert (w + rest)[0] == w[0];
  }

  lemma LiteralBack(lit: Literal, rest: string)
    requires Stopped(rest) && !StartsWith(rest, ".")
    ensures LexOne(LiteralText(lit) + rest) == Some(Lexed(Word(lit), |LiteralText(lit)|))
  {
    LetterSpan(LiteralText(lit), rest);
  }

  lemma NotBack(rest: string)
    ensures LexOne("not " + rest) == Some(Lexed(NotWord, 4))
  {
    assert "not " + rest == "not" + (" " + rest);
    LetterSpan("not", " " + rest);
  }

  lemma Grouped(a: string, b: string, c: string)
    ensures a + b + c == a + (b + c) && (b + c)[..|b|] == b
  {
  }

  lemma AfterExists(s: string, tail: string)
    requires Span(s, STOPS) == 6 && s[..6] == "exists" && s[6..] == tail
    requires !StartsWith(tail, ".") && StartsWith(tail, " (select 1 from ")
    ensures LexWord(s) == Some(Lexed(ExistsWord, 22))
  {
  }

  lemma ExistsTail(tail: string, rest: string)
    requires tail == " (select 1 from "
    ensures Stopped(tail + rest) && !StartsWith(tail + rest, ".") && StartsWith(tail + rest, tail)
  {
    Grouped("", tail, rest);
    assert (tail + rest)[0] == ' ';
  }

  lemma ExistsSpan(w: string, tail: string, rest: string)
    requires w == "exists" && tail == " (select 1 from "
    ensures LexOne(w + tail + rest) == Some(Lexed(ExistsWord, 22))
  {
    Grouped(w, tail, rest);
    ExistsTail(tail, rest);
    LetterSpan(w, tail + rest);
    AfterExists(w + (tail + rest), tail + rest);
  }

  lemma ExistsBack(rest: string)
    ensures LexOne("exists (select 1 from " + rest) == Some(Lexed(ExistsWord, 22))
  {
    var w, tail := "exists", " (select 1 from ";
    assert w + tail == "exists (select 1 from ";
    ExistsSpan(w, tail, rest);
  }

  lemma TokenBack(t: Token, rest: string)
    requires PlainToken(t) && Ended(t, rest)
    ensures LexOne(TokenText(t) + rest) == Some(Lexed(t, |TokenText(t)|))
  {
    match t
    case Open =>
    case Close =>
    case Comma =>
    case Param(n) => ParamBack(n, rest);
    case Source(table, alias) => SourceBack(table, alias, rest);
    case Column(c) => ColumnBack(c, rest);
    case Operator(operator) => OperatorBack(operator, rest);
    case Word(lit) => LiteralBack(lit, rest);
    case IsWord => IsBack(rest);
    case IsNotWord => IsNotBack(rest);
    case NotInWord => NotInBack(rest);
    case NotWord => NotBack(rest);
    case ExistsWord => ExistsBack(rest);
    case _ => JoiningWordBack(t, rest);
  }

  // ---- Sequences of tokens ----

  predicate Closes(t: Token) { t == Close || t == Comma || t == AndWord || t == OrWord || t == WhereWord }

  /** A token and the one after it, as clauses put them. */
  predicate Fits(t: Token, next: Option<Token>) {
    match t
    case Word(_) => next.Some? ==> Closes(next.value)
    case Source(_, _) => next.Some? ==> Closes(next.value)
    case IsWord => next.Some? && next.value.Word?
    case _ => true
  }

  function Next(ts: seq<Token>): Option<Token> { if ts == [] then None else Some(ts[0]) }

  predicate Fine(ts: seq<Token>) {
    ts == [] || (PlainToken(ts[0]) && Fits(ts[0], Next(ts[1..])) && Fine(ts[1..]))
  }

  lemma LiteralIsNoNot(lit: Literal, rest: string)
    ensures !StartsWith(LiteralText(lit) + rest, "not ")
  {
    var s := LiteralText(lit) + rest;
    assert s[1] == LiteralText(lit)[1] && s[1] != 'o';
    assert |s| >= 4 ==> s[..4][1] == s[1];
  }

  lemma ClosesStops(t: Token, rest: string)
    requires Closes(t)
    ensures Stopped(TokenText(t) + rest) && !StartsWith(TokenText(t) + rest, ".")
  {
    var s := TokenText(t) + rest;
    assert s[0] == TokenText(t)[0];
    assert s[..1][0] == s[0];
  }

  lemma FitsEnded(t: Token, ts: seq<Token>)
    requires Fits(t, Next(ts))
    ensures Ended(t, TextOf(ts))
  {
    TextStart(ts);
    if ts != [] {
      if Closes(ts[0]) {
        ClosesStops(ts[0], TextOf(ts[1..]));
      } else if ts[0].Word? {
        LiteralIsNoNot(ts[0].lit, TextOf(ts[1..]));
      }
    }
  }

  /** The text of such tokens splits into them and no others. */
  lemma {:induction false} LexBack(ts: seq<Token>)
    requires Fine(ts)
    ensures Lex(TextOf(ts)) == Some(ts)
  {
    if ts != [] {
      var t, rest := ts[0], TextOf(ts[1..]);
      FitsEnded(t, ts[1..]);
      TokenBack(t, rest);
      TokenStart(t);
      LexBack(ts[1..]);
      assert (TokenText(t) + rest)[|TokenText(t)|..] == rest;
      assert ts == [t] + ts[1..];
    }
  }

  lemma {:induction false} FineAppend(a: seq<Token>, b: seq<Token>)
    requires Fine(a) && Fine(b) && (a != [] ==> Fits(a[|a| - 1], Next(b)))
    ensures Fine(a + b)
  {
    if a == [] {
      assert a + b == b;
    } else {
      assert (a + b)[1..] == a[1..] + b;
      if |a| == 1 {
        assert a[1..] == [];
        FineAppend([], b);
      } else {
        assert a[1..][|a| - 2] == a[|a| - 1];
        FineAppend(a[1..], b);
      }
    }
  }

  // ---- Clauses ----

  predicate PlainDisj(c: Disj)
    decreases c
  {
    match c
    case OneOf(a) => PlainConj(a)
    case OrElse(a, rest) => PlainConj(a) && PlainDisj(rest)
  }

  predicate PlainConj(c: Conj)
    decreases c
  {
    match c
    case Just(u) => PlainUnary(u)
    case AndAlso(u, rest) => PlainUnary(u) && PlainConj(rest)
  }

  /** Names without quotes, operators that are one word and no keyword. */
  predicate PlainUnary(u: Unary)
    decreases u
  {
    match u
    case Negated(inner) => PlainUnary(inner)
    case Group(body) => PlainDisj(body)
    case Constant(_) => true
    case IsTest(c, _, _) => PlainName(c.name)
    case InList(c, _, _) => PlainName(c.name)
    case Test(c, operator, _) => PlainName(c.name) && PlainOperator(operator)
    case Match(l, operator, r) => PlainName(l.name) && PlainOperator(operator) && PlainName(r.name)
    case Exists(table, _, where) => PlainName(table) && PlainConj(where)
  }

  /** The last token of a clause bears anything that can follow a clause. */
  predicate Tail(ts: seq<Token>) {
    ts != [] && (var t := ts[|ts| - 1]; t == Close || t.Word? || t.Param? || t.Column?)
  }

  lemma TailFits(ts: seq<Token>, next: Option<Token>)
    requires Tail(ts) && (next.Some? ==> Closes(next.value))
    ensures Fits(ts[|ts| - 1], next)
  {
  }

  lemma FineOne(t: Token)
    requires PlainToken(t) && Fits(t, None)
    ensures Fine([t])
  {
    assert [t][1..] == [];
  }

  lemma FineCons(t: Token, ts: seq<Token>)
    requires PlainToken(t) && Fits(t, Next(ts)) && Fine(ts)
    ensures Fine([t] + ts)
  {
    assert ([t] + ts)[1..] == ts;
  }

  /** A clause, a word that joins, and another clause. */
  lemma FineJoined(a: seq<Token>, word: Token, b: seq<Token>)
    requires Fine(a) && Tail(a) && Fine(b) && Tail(b) && (word == AndWord || word == OrWord)
    ensures Fine(a + [word] + b) && Tail(a + [word] + b)
  {
    FineCons(word, b);
    TailFits(a, Some(word));
    FineAppend(a, [word] + b);
    assert a + ([word] + b) == a + [word] + b;
  }

  lemma FineClosed(pre: seq<Token>, body: seq<Token>)
    requires Fine(pre) && Fine(body) && Tail(body) && (pre != [] ==> Fits(pre[|pre| - 1], Next(body)))
    ensures Fine(pre + body + [Close]) && Tail(pre + body + [Close])
  {
    FineOne(Close);
    TailFits(body, Some(Close));
    FineAppend(body, [Close]);
    FineAppend(pre, body + [Close]);
    assert pre + (body + [Close]) == pre + body + [Close];
  }

  lemma FineThree(a: Token, b: Token, c: Token)
    requires PlainToken(a) && PlainToken(b) && PlainToken(c) && Fits(a, Some(b)) && Fits(b, Some(c)) && Fits(c, None)
    ensures Fine([a, b, c])
  {
    FineOne(c);
    FineCons(b, [c]);
    FineCons(a, [b, c]);
    assert [b] + [c] == [b, c] && [a] + [b, c] == [a, b, c];
  }

  lemma FineListed(n: nat, ts: seq<Token>)
    requires Fine(ts) && Tail(ts)
    ensures Fine([Param(n), Comma] + ts) && Tail([Param(n), Comma] + ts)
  {
    FineCons(Comma, ts);
    FineCons(Param(n), [Comma] + ts);
    assert [Param(n)] + ([Comma] + ts) == [Param(n), Comma] + ts;
  }

  lemma {:induction false} FineParams(ns: seq<nat>)
    requires ns != []
    ensures Fine(ParamTokens(ns)) && Tail(ParamTokens(ns))
  {
    if |ns| == 1 {
      FineOne(Param(ns[0]));
    } else {
      FineParams(ns[1..]);
      FineListed(ns[0], ParamTokens(ns[1..]));
    }
  }

  lemma {:induction false} FineDisj(c: Disj)
    requires PlainDisj(c) && ReadableDisj(c)
    ensures Fine(DisjTokens(c)) && Tail(DisjTokens(c))
    decreases c
  {
    match c
    case OneOf(a) => FineConj(a);
    case OrElse(a, rest) =>
      FineConj(a);
      FineDisj(rest);
      FineJoined(ConjTokens(a), OrWord, DisjTokens(rest));
  }

  lemma {:induction false} FineConj(c: Conj)
    requires PlainConj(c) && ReadableConj(c)
    ensures Fine(ConjTokens(c)) && Tail(ConjTokens(c))
    decreases c
  {
    match c
    case Just(u) => FineUnary(u);
    case AndAlso(u, rest) =>
      FineUnary(u);
      FineConj(rest);
      FineJoined(Tokens(u), AndWord, ConjTokens(rest));
  }

  lemma {:induction false} FineUnary(u: Unary)
    requires PlainUnary(u) && Readable(u)
    ensures Fine(Tokens(u)) && Tail(Tokens(u))
    decreases u
  {
    match u
    case Negated(inner) =>
      FineUnary(inner);
      FineCons(NotWord, Tokens(inner));
    case Group(body) =>
      FineDisj(body);
      FineOne(Open);
      FineClosed([Open], DisjTokens(body));
    case Constant(lit) => FineOne(Word(lit));
    case IsTest(c, negate, lit) => FineThree(Column(c), if negate then IsNotWord else IsWord, Word(lit));
    case InList(c, negate, ns) =>
      FineParams(ns);
      FineThree(Column(c), if negate then NotInWord else InWord, Open);
      FineClosed([Column(c), if negate then NotInWord else InWord, Open], ParamTokens(ns));
    case Test(c, operator, n) => FineThree(Column(c), Operator(operator), Param(n));
    case Match(l, operator, r) => FineThree(Column(l), Operator(operator), Column(r));
    case Exists(table, alias, where) =>
      FineConj(where);
      FineThree(ExistsWord, Source(table, alias), WhereWord);
      FineClosed([ExistsWord, Source(table, alias), WhereWord], ConjTokens(where));
  }

  /** The text of a clause has one reading: the clause. */
  lemma TextReadsBack(c: Disj)
    requires PlainDisj(c) && ReadableDisj(c)
    ensures Lex(TextOf(DisjTokens(c))) == Some(DisjTokens(c)) && ReadText(TextOf(DisjTokens(c))) == Got(c, [])
  {
    FineDisj(c);
    LexBack(DisjTokens(c));
    ReadDisjBack(c, []);
    assert DisjTokens(c) + [] == DisjTokens(c);
  }

  /** No two clauses are written alike. */
  lemma TextInjective(c: Disj, e: Disj)
    requires PlainDisj(c) && ReadableDisj(c) && PlainDisj(e) && ReadableDisj(e)
    ensures TextOf(DisjTokens(c)) == TextOf(DisjTokens(e)) <==> c == e
  {
    TextReadsBack(c);
    TextReadsBack(e);
  }

  // ---- And only then ----

  predicate PlainOperators(ts: seq<Token>) {
    forall i :: 0 <= i < |ts| ==> (ts[i].Operator? ==> PlainOperator(ts[i].operator))
  }

  lemma {:induction false} SpanFree(s: string, stops: set<char>)
    ensures forall i :: 0 <= i < Span(s, stops) ==> s[i] !in stops
  {
    if s != "" && s[0] !in stops {
      SpanFree(s[1..], stops);
      assert forall i :: 1 <= i < Span(s, stops) ==> s[i] == s[1..][i - 1];
    }
  }

  lemma LexedOperator(s: string)
    requires LexOne(s).Some? && LexOne(s).value.token.Operator?
    ensures PlainOperator(LexOne(s).value.token.operator)
  {
    SpanFree(s[1..], {' '});
  }

  /** What is split off a text has plain operators only. */
  lemma {:induction false} LexedOperators(s: string)
    requires Lex(s).Some?
    ensures PlainOperators(Lex(s).value)
    decreases |s|
  {
    if s != "" {
      var first := LexOne(s).value;
      LexedOperators(s[first.length..]);
      if first.token.Operator? {
        LexedOperator(s);
      }
    }
  }

  predicate OperatorsOfDisj(c: Disj)
    decreases c
  {
    match c
    case OneOf(a) => OperatorsOfConj(a)
    case OrElse(a, rest) => OperatorsOfConj(a) && OperatorsOfDisj(rest)
  }

  predicate OperatorsOfConj(c: Conj)
    decreases c
  {
    match c
    case Just(u) => OperatorsOf(u)
    case AndAlso(u, rest) => OperatorsOf(u) && OperatorsOfConj(rest)
  }

  /** Its operators are plain, whatever its names. */
  predicate OperatorsOf(u: Unary)
    decreases u
  {
    match u
    case Negated(inner) => OperatorsOf(inner)
    case Group(body) => OperatorsOfDisj(body)
    case Test(_, operator, _) => PlainOperator(operator)
    case Match(_, operator, _) => PlainOperator(operator)
    case Exists(_, _, where) => OperatorsOfConj(where)
    case _ => true
  }

  lemma DropPlain(ts: seq<Token>, n: nat)
    requires PlainOperators(ts) && n <= |ts|
    ensures PlainOperators(ts[n..])
  {
  }

  lemma {:induction false} ReadParamsPlain(ts: seq<Token>)
    requires PlainOperators(ts) && ReadParams(ts).Got?
    ensures PlainOperators(ReadParams(ts).rest)
    decreases |ts|
  {
    if |ts| > 1 && ts[1] == Comma {
      DropPlain(ts, 2);
      ReadParamsPlain(ts[2..]);
    } else {
      DropPlain(ts, 1);
    }
  }

  lemma {:induction false} ReadDisjPlain(ts: seq<Token>)
    requires PlainOperators(ts) && ReadDisj(ts).Got?
    ensures OperatorsOfDisj(ReadDisj(ts).value) && PlainOperators(ReadDisj(ts).rest)
    decreases |ts|, 2
  {
    var a := ReadConj(ts);
    ReadConjPlain(ts);
    if a.rest != [] && a.rest[0] == OrWord {
      DropPlain(a.rest, 1);
      ReadDisjPlain(a.rest[1..]);
    }
  }

  lemma {:induction false} ReadConjPlain(ts: seq<Token>)
    requires PlainOperators(ts) && ReadConj(ts).Got?
    ensures OperatorsOfConj(ReadConj(ts).value) && PlainOperators(ReadConj(ts).rest)
    decreases |ts|, 1
  {
    var u := ReadUnary(ts);
    ReadUnaryPlain(ts);
    if u.rest != [] && u.rest[0] == AndWord {
      DropPlain(u.rest, 1);
      ReadConjPlain(u.rest[1..]);
    }
  }

  lemma {:induction false} ReadUnaryPlain(ts: seq<Token>)
    requires PlainOperators(ts) && ReadUnary(ts).Got?
    ensures OperatorsOf(ReadUnary(ts).value) && PlainOperators(ReadUnary(ts).rest)
    decreases |ts|, 0
  {
    DropPlain(ts, 1);
    match ts[0]
    case NotWord => ReadUnaryPlain(ts[1..]);
    case Open =>
      ReadDisjPlain(ts[1..]);
      DropPlain(ReadDisj(ts[1..]).rest, 1);
    case Word(_) =>
    case ExistsWord =>
      DropPlain(ts, 3);
      ReadConjPlain(ts[3..]);
      DropPlain(ReadConj(ts[3..]).rest, 1);
    case Column(_) =>
      DropPlain(ts, 3);
      if ts[1].InWord? || ts[1].NotInWord? {
        ReadParamsPlain(ts[3..]);
        DropPlain(ReadParams(ts[3..]).rest, 1);
      }
    case _ =>
  }

  predicate NamesOfDisj(c: Disj)
    decreases c
  {
    match c
    case OneOf(a) => NamesOfConj(a)
    case OrElse(a, rest) => NamesOfConj(a) && NamesOfDisj(rest)
  }

  predicate NamesOfConj(c: Conj)
    decreases c
  {
    match c
    case Just(u) => NamesOf(u)
    case AndAlso(u, rest) => NamesOf(u) && NamesOfConj(rest)
  }

  /** Its names hold no quotes, whatever its operators. */
  predicate NamesOf(u: Unary)
    decreases u
  {
    match u
    case Negated(inner) => NamesOf(inner)
    case Group(body) => NamesOfDisj(body)
    case Constant(_) => true
    case IsTest(c, _, _) => PlainName(c.name)
    case InList(c, _, _) => PlainName(c.name)
    case Test(c, _, _) => PlainName(c.name)
    case Match(l, _, r) => PlainName(l.name) && PlainName(r.name)
    case Exists(table, _, where) => PlainName(table) && NamesOfConj(where)
  }

  lemma {:induction false} PlainDisjParts(c: Disj)
    ensures PlainDisj(c) <==> NamesOfDisj(c) && OperatorsOfDisj(c)
    decreases c
  {
    match c
    case OneOf(a) => PlainConjParts(a);
    case OrElse(a, rest) =>
      PlainConjParts(a);
      PlainDisjParts(rest);
  }

  lemma {:induction false} PlainConjParts(c: Conj)
    ensures PlainConj(c) <==> NamesOfConj(c) && OperatorsOfConj(c)
    decreases c
  {
    match c
    case Just(u) => PlainParts(u);
    case AndAlso(u, rest) =>
      PlainParts(u);
      PlainConjParts(rest);
  }

  lemma {:induction false} PlainParts(u: Unary)
    ensures PlainUnary(u) <==> NamesOf(u) && OperatorsOf(u)
    decreases u
  {
    match u
    case Negated(inner) => PlainParts(inner);
    case Group(body) => PlainDisjParts(body);
    case Exists(_, _, where) => PlainConjParts(where);
    case _ =>
  }

  /** A clause with safe names is read back from its text exactly when each of its
      operators is one word that is no keyword. */
  lemma ReadsBackExactly(c: Disj)
    requires NamesOfDisj(c) && ReadableDisj(c)
    ensures ReadText(TextOf(DisjTokens(c))) == Got(c, []) <==> OperatorsOfDisj(c)
  {
    var s := TextOf(DisjTokens(c));
    PlainDisjParts(c);
    if OperatorsOfDisj(c) {
      TextReadsBack(c);
    } else if Lex(s).Some? && ReadDisj(Lex(s).value).Got? {
      LexedOperators(s);
      ReadDisjPlain(Lex(s).value);
    }
  }
}
