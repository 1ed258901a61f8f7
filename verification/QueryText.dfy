/** The exact text of compiled clauses, and which tokens it is made of. */
module QueryText {
  import opened Text
  import opened Sql
  import opened QueryFilters
  import opened Renumber

  // ---- Text of short clauses ----

  lemma TextOfOne(t: Token)
    ensures TextOf([t]) == TokenText(t)
  {
    assert TextOf([t][1..]) == "";
  }

  lemma TextOfCons(t: Token, ts: seq<Token>)
    ensures TextOf([t] + ts) == TokenText(t) + TextOf(ts)
  {
    assert ([t] + ts)[1..] == ts;
  }

  lemma TextOfTwo(a: Token, b: Token)
    ensures TextOf([a, b]) == TokenText(a) + TokenText(b)
  {
    TextOfCons(a, [b]);
    TextOfOne(b);
    assert [a] + [b] == [a, b];
  }

  lemma TextOfThree(a: Token, b: Token, c: Token)
    ensures TextOf([a, b, c]) == TokenText(a) + TokenText(b) + TokenText(c)
  {
    TextOfCons(a, [b, c]);
    TextOfTwo(b, c);
    Assoc(TokenText(a), TokenText(b), TokenText(c));
    assert [a] + [b, c] == [a, b, c];
  }

  lemma TextOfWrapped(open: Token, body: seq<Token>, close: Token)
    ensures TextOf([open] + body + [close]) == TokenText(open) + TextOf(body) + TokenText(close)
  {
    TextOfAppend([open] + body, [close]);
    TextOfCons(open, body);
    TextOfOne(close);
  }

  function RefText(n: nat): string { "$" + Dec(n) }

  function RefTexts(n: nat, k: nat): (refs: seq<string>)
    ensures |refs| == k
    ensures forall i :: 0 <= i < k ==> refs[i] == RefText(n + 1 + i)
    decreases k
  {
    if k == 0 then [] else [RefText(n + 1)] + RefTexts(n + 1, k - 1)
  }

  lemma CommaText(t: Token, rest: seq<Token>)
    ensures TextOf([t, Comma] + rest) == TokenText(t) + ", " + TextOf(rest)
  {
    TextOfCons(Comma, rest);
    TextOfCons(t, [Comma] + rest);
    assert [t, Comma] + rest == [t] + ([Comma] + rest);
  }

  lemma {:induction false} ParamTokensText(n: nat, k: nat)
    ensures TextOf(ParamTokens(Consecutive(n, k))) == Join(RefTexts(n, k), ", ")
    decreases k
  {
    if k == 1 {
      TextOfOne(Param(n + 1));
    } else if k > 1 {
      var rest := ParamTokens(Consecutive(n + 1, k - 1));
      ParamTokensText(n + 1, k - 1);
      assert ParamTokens(Consecutive(n, k)) == [Param(n + 1), Comma] + rest by {
        assert Consecutive(n, k)[1..] == Consecutive(n + 1, k - 1);
      }
      CommaText(Param(n + 1), rest);
      assert Join(RefTexts(n, k), ", ") == RefText(n + 1) + ", " + Join(RefTexts(n + 1, k - 1), ", ") by {
        assert RefTexts(n, k)[1..] == RefTexts(n + 1, k - 1);
      }
    }
  }

  function InListString(column: string, negate: bool, refs: seq<string>): string {
    column + ((if negate then " not in " else " in ") + ("(" + Join(refs, ", ") + ")"))
  }

  lemma InListText(c: ColumnRef, negate: bool, n: nat, k: nat)
    ensures TextOf(Tokens(InList(c, negate, Consecutive(n, k))))
      == InListString(TokenText(Column(c)), negate, RefTexts(n, k))
  {
    var word := if negate then NotInWord else InWord;
    var params := ParamTokens(Consecutive(n, k));
    ParamTokensText(n, k);
    InListTokens(c, negate, Consecutive(n, k));
    ListTextOf(Column(c), word, params);
  }

  lemma InListTokens(c: ColumnRef, negate: bool, ns: seq<nat>)
    ensures Tokens(InList(c, negate, ns))
         == [Column(c)] + ([if negate then NotInWord else InWord] + ([Open] + ParamTokens(ns) + [Close]))
  {
  }

  lemma ListTextOf(column: Token, word: Token, params: seq<Token>)
    ensures TextOf([column] + ([word] + ([Open] + params + [Close])))
         == TokenText(column) + (TokenText(word) + (TokenText(Open) + TextOf(params) + TokenText(Close)))
  {
    var list := [Open] + params + [Close];
    TextOfWrapped(Open, params, Close);
    TextOfCons(word, list);
    TextOfCons(column, [word] + list);
  }

  lemma ParenthesisedText(u: Unary)
    ensures TextOf(Tokens(Parenthesised(u))) == "not (" + TextOf(Tokens(u)) + ")"
  {
    GroupTokens(u);
    TextOfWrapped(Open, Tokens(u), Close);
    TextOfCons(NotWord, [Open] + Tokens(u) + [Close]);
  }

  lemma GroupTokens(u: Unary)
    ensures Tokens(Parenthesised(u)) == [NotWord] + ([Open] + Tokens(u) + [Close])
  {
    assert ConjTokens(Just(u)) == Tokens(u);
    assert DisjTokens(OneOf(Just(u))) == Tokens(u);
    assert Tokens(Group(OneOf(Just(u)))) == [Open] + Tokens(u) + [Close];
  }

  lemma IsTestText(c: ColumnRef, negate: bool, lit: Literal)
    ensures TextOf(Tokens(IsTest(c, negate, lit)))
         == TokenText(Column(c)) + (if negate then " is not " else " is ") + LiteralText(lit)
  {
    TextOfThree(Column(c), if negate then IsNotWord else IsWord, Word(lit));
  }

  lemma TestText(c: ColumnRef, operator: string, n: nat)
    ensures TextOf(Tokens(Test(c, operator, n))) == TokenText(Column(c)) + (" " + operator + " ") + RefText(n)
  {
    TextOfThree(Column(c), Operator(operator), Param(n));
  }

  /** The column a filter carries is read only through its path. */
  lemma {:induction false} ColumnIsPath(catalogue: seq<ForeignKey>, table: string, alias: Alias, counter: nat,
                                        path: seq<string>, f: Filter, column: string, n: nat)
    requires path != [] && Plain(f)
    ensures Plain(f.(column := column))
    ensures FilterSql(catalogue, table, alias, counter, path, f.(column := column), n)
         == FilterSql(catalogue, table, alias, counter, path, f, n)
    decreases |path|
  {
    if |path| > 1 {
      ColumnIsPath(catalogue, path[0], FilterAlias(counter), counter + 1, path[1..], f, column, n);
    }
  }

  function AroundString(table: string, alias: Alias, inside: string): string {
    ("exists (select 1 from " + (Quote(table) + " " + AliasText(alias)) + " where ") + inside + ")"
  }

  function ExistsString(table: string, alias: Alias, join: string, nested: string): string {
    AroundString(table, alias, join + " and " + nested)
  }

  function JoinString(fk: ForeignKey, table: string, alias: Alias, child: Alias): string {
    if fk.sourceTable == table
    then AliasText(child) + "." + Quote(fk.targetColumn) + " = " + (AliasText(alias) + "." + Quote(fk.sourceColumn))
    else AliasText(child) + "." + Quote(fk.sourceColumn) + " = " + (AliasText(alias) + "." + Quote(fk.targetColumn))
  }

  lemma JoinText(fk: ForeignKey, table: string, alias: Alias, child: Alias)
    ensures TextOf(Tokens(JoinSql(fk, table, alias, child))) == JoinString(fk, table, alias, child)
  {
    var j := JoinSql(fk, table, alias, child);
    TextOfThree(Column(j.left), Operator("="), Column(j.right));
    assert TokenText(Operator("=")) == " = ";
  }

  lemma ConjText(first: Unary, rest: Conj)
    ensures TextOf(ConjTokens(AndAlso(first, rest))) == TextOf(Tokens(first)) + " and " + TextOf(ConjTokens(rest))
  {
    TextOfAppend(Tokens(first) + [AndWord], ConjTokens(rest));
    TextOfAppend(Tokens(first), [AndWord]);
    TextOfOne(AndWord);
  }

  lemma ExistsHeadText(table: string, alias: Alias, where: Conj)
    ensures TextOf(Tokens(Exists(table, alias, where))) == AroundString(table, alias, TextOf(ConjTokens(where)))
  {
    var head := [ExistsWord, Source(table, alias), WhereWord];
    TextOfAppend(head + ConjTokens(where), [Close]);
    TextOfAppend(head, ConjTokens(where));
    TextOfThree(ExistsWord, Source(table, alias), WhereWord);
    TextOfOne(Close);
  }

  lemma InsideText(join: Unary, nested: Unary)
    ensures TextOf(ConjTokens(AndAlso(join, Just(nested)))) == TextOf(Tokens(join)) + " and " + TextOf(Tokens(nested))
  {
    ConjText(join, Just(nested));
  }

  lemma ExistsText(table: string, alias: Alias, join: Unary, nested: Unary)
    ensures TextOf(Tokens(Exists(table, alias, AndAlso(join, Just(nested)))))
         == ExistsString(table, alias, TextOf(Tokens(join)), TextOf(Tokens(nested)))
  {
    ExistsHeadText(table, alias, AndAlso(join, Just(nested)));
    InsideText(join, nested);
  }

  /** One step along a path: the text around the text of the rest. */
  lemma StepText(catalogue: seq<ForeignKey>, from: string, alias: Alias, counter: nat, path: seq<string>, f: Filter,
                 column: string, n: nat, fk: ForeignKey, nested: Option<string>)
    requires |path| > 1 && Plain(f) && Resolve(catalogue, from, path[0], None) == Some(fk)
    requires Spells(nested,
      FilterSql(catalogue, path[0], FilterAlias(counter), counter + 1, path[1..], f.(column := column), n))
    requires Identifier(fk.sourceColumn) && Identifier(fk.targetColumn)
    ensures var child := FilterAlias(counter);
      Spells(if nested.None? || !Identifier(path[0]) then None
             else Some(ExistsString(path[0], child, JoinString(fk, from, alias, child), nested.value)),
             FilterSql(catalogue, from, alias, counter, path, f, n))
  {
    var child := FilterAlias(counter);
    ColumnIsPath(catalogue, path[0], child, counter + 1, path[1..], f, column, n);
    if nested.None? || !Identifier(path[0]) { return; }
    var inner := FilterSql(catalogue, path[0], child, counter + 1, path[1..], f, n).value;
    JoinText(fk, from, alias, child);
    ExistsText(path[0], child, JoinSql(fk, from, alias, child), inner);
  }

  /** A text, or its absence, is that of a compiled clause. */
  predicate Spells(text: Option<string>, u: Option<Unary>) {
    match u
    case None => text.None?
    case Some(u) => text == Some(TextOf(Tokens(u)))
  }

  // ---- The UPDATE statement ----

  function NewValues(entries: seq<(string, Value)>): (vs: seq<Value>)
    ensures |vs| == |entries|
  {
    if entries == [] then [] else NewValues(entries[..|entries| - 1]) + [entries[|entries| - 1].1]
  }

  function SetClauses(entries: seq<(string, Value)>): (cs: seq<string>)
    ensures |cs| == |entries|
  {
    if entries == [] then []
    else SetClauses(entries[..|entries| - 1]) + [Quote(entries[|entries| - 1].0) + " = " + RefText(|entries|)]
  }

  function UpdateText(table: string, entries: seq<(string, Value)>, where: Conj): string {
    SetText(table, entries) + (" where " + TextOf(ConjTokens(where)))
  }

  /** The start of the statement, up to its WHERE. */
  function SetText(table: string, entries: seq<(string, Value)>): string {
    "update " + Quote(table) + " b set " + Join(SetClauses(entries), ", ")
  }

  lemma SamePrefix(a: string, x: string, y: string)
    ensures a + x == a + y <==> x == y
  {
    assert (a + x)[|a|..] == x && (a + y)[|a|..] == y;
  }

  predicate AllSafe(ts: seq<Token>) {
    forall i :: 0 <= i < |ts| ==> SafeToken(ts[i])
  }

  predicate AllClean(ts: seq<Token>) {
    forall i :: 0 <= i < |ts| ==> CleanToken(ts[i])
  }

  lemma AllAppend(a: seq<Token>, b: seq<Token>)
    ensures AllSafe(a + b) <==> AllSafe(a) && AllSafe(b)
    ensures AllClean(a + b) <==> AllClean(a) && AllClean(b)
  {
    assert forall i :: 0 <= i < |b| ==> (a + b)[|a| + i] == b[i];
    assert forall i :: 0 <= i < |a| ==> (a + b)[i] == a[i];
  }

  /** The operator text a filter sends carries no `$` before a digit. */
  predicate CleanFilter(f: Filter) {
    f.operator == "is" || f.operator == "not" || IsIn(f) || Clean(f.operator)
  }

  predicate CleanItem(item: Item) {
    match item
    case Single(f) => CleanFilter(f)
    case AnyOf(fs) => forall i :: 0 <= i < |fs| ==> CleanFilter(fs[i])
  }

  predicate CleanItems(items: seq<Item>) {
    forall i :: 0 <= i < |items| ==> CleanItem(items[i])
  }

  lemma IdentifierIsSafe(s: string)
    requires Identifier(s)
    ensures SafeName(s)
  {
  }

  lemma ParamTokensPlain(ns: seq<nat>)
    ensures AllSafe(ParamTokens(ns)) && AllClean(ParamTokens(ns))
  {
  }

  lemma ParenthesisedAll(u: Unary)
    ensures AllSafe(Tokens(Parenthesised(u))) <==> AllSafe(Tokens(u))
    ensures AllClean(Tokens(Parenthesised(u))) <==> AllClean(Tokens(u))
  {
    assert DisjTokens(OneOf(Just(u))) == Tokens(u);
    assert Tokens(Group(OneOf(Just(u)))) == [Open] + Tokens(u) + [Close];
    assert Tokens(Parenthesised(u)) == [NotWord, Open] + Tokens(u) + [Close];
    AllAppend([NotWord, Open] + Tokens(u), [Close]);
    AllAppend([NotWord, Open], Tokens(u));
  }

  lemma CoreTokens(f: Filter, c: ColumnRef, n: nat)
    requires Plain(f) && SafeName(c.name) && f.operator != "is" && !IsIn(f)
    ensures var ts := Tokens(Core(f, c, n)); AllSafe(ts) && (AllClean(ts) <==> CleanFilter(f))
  {
    if f.operator != "not" {
      assert Tokens(Core(f, c, n))[1] == Operator(f.operator);
    }
  }

  lemma ListTokens(c: ColumnRef, negate: bool, ns: seq<nat>)
    requires SafeName(c.name)
    ensures AllSafe(Tokens(InList(c, negate, ns))) && AllClean(Tokens(InList(c, negate, ns)))
  {
    var head := [Column(c), if negate then NotInWord else InWord, Open];
    ParamTokensPlain(ns);
    AllAppend(head + ParamTokens(ns), [Close]);
    AllAppend(head, ParamTokens(ns));
  }

  lemma ScalarTokens(f: Filter, c: ColumnRef, n: nat)
    requires Plain(f) && SafeName(c.name)
    ensures var ts := Tokens(ScalarSql(f, c, n)); AllSafe(ts) && (AllClean(ts) <==> CleanFilter(f))
  {
    if IsIn(f) && InMembers(f.value) != [] {
      ListTokens(c, f.operator == "not.in" || f.negate, Consecutive(n, |InMembers(f.value)|));
    } else if !IsIn(f) && f.operator != "is" {
      CoreTokens(f, c, n);
      ParenthesisedAll(Core(f, c, n));
    }
  }

  lemma JoinTokens(fk: ForeignKey, table: string, alias: Alias, child: Alias)
    requires Identifier(fk.sourceColumn) && Identifier(fk.targetColumn)
    ensures AllSafe(Tokens(JoinSql(fk, table, alias, child))) && AllClean(Tokens(JoinSql(fk, table, alias, child)))
  {
    IdentifierIsSafe(fk.sourceColumn);
    IdentifierIsSafe(fk.targetColumn);
  }

  lemma InsideTokens(join: Unary, nested: Unary)
    requires AllSafe(Tokens(join)) && AllClean(Tokens(join)) && AllSafe(Tokens(nested))
    ensures var ts := ConjTokens(AndAlso(join, Just(nested)));
      AllSafe(ts) && (AllClean(ts) <==> AllClean(Tokens(nested)))
  {
    assert ConjTokens(AndAlso(join, Just(nested))) == Tokens(join) + [AndWord] + Tokens(nested);
    AllAppend(Tokens(join) + [AndWord], Tokens(nested));
    AllAppend(Tokens(join), [AndWord]);
  }

  lemma StepTokens(table: string, child: Alias, join: Unary, nested: Unary)
    requires SafeName(table) && AllSafe(Tokens(join)) && AllClean(Tokens(join)) && AllSafe(Tokens(nested))
    ensures var ts := Tokens(Exists(table, child, AndAlso(join, Just(nested))));
      AllSafe(ts) && (AllClean(ts) <==> AllClean(Tokens(nested)))
  {
    var inside := ConjTokens(AndAlso(join, Just(nested)));
    var head := [ExistsWord, Source(table, child), WhereWord];
    InsideTokens(join, nested);
    AllAppend(head + inside, [Close]);
    AllAppend(head, inside);
  }

  lemma {:induction false} FilterTokens(catalogue: seq<ForeignKey>, table: string, alias: Alias, counter: nat,
                                        path: seq<string>, f: Filter, n: nat)
    requires path != [] && Plain(f) && FilterSql(catalogue, table, alias, counter, path, f, n).Some?
    ensures var ts := Tokens(FilterSql(catalogue, table, alias, counter, path, f, n).value);
      AllSafe(ts) && (AllClean(ts) <==> CleanFilter(f))
    decreases |path|
  {
    IdentifierIsSafe(path[0]);
    if |path| == 1 {
      ScalarTokens(f, ColumnRef(alias, path[0]), n);
    } else {
      var fk := Resolve(catalogue, table, path[0], None).value;
      var child := FilterAlias(counter);
      JoinTokens(fk, table, alias, child);
      FilterTokens(catalogue, path[0], child, counter + 1, path[1..], f, n);
      var nested := FilterSql(catalogue, path[0], child, counter + 1, path[1..], f, n).value;
      StepTokens(path[0], child, JoinSql(fk, table, alias, child), nested);
    }
  }

  lemma CompiledFilterTokens(catalogue: seq<ForeignKey>, table: string, f: Filter, u: Unary, params: seq<Value>)
    requires CompiledFilter(catalogue, table, f, u, params)
    ensures AllSafe(Tokens(u)) && (AllClean(Tokens(u)) <==> CleanFilter(f))
  {
    var n: nat :| Window(params, n, ScalarValues(f)) && FilterSql(catalogue, table, Base, 0, Path(f), f, n) == Some(u);
    FilterTokens(catalogue, table, Base, 0, Path(f), f, n);
  }

  lemma {:induction false} DisjAll(us: seq<Unary>)
    requires us != [] && forall i :: 0 <= i < |us| ==> AllSafe(Tokens(us[i]))
    ensures AllSafe(DisjTokens(DisjOf(us)))
    ensures AllClean(DisjTokens(DisjOf(us))) <==> forall i :: 0 <= i < |us| ==> AllClean(Tokens(us[i]))
  {
    assert ConjTokens(Just(us[0])) == Tokens(us[0]);
    if |us| > 1 {
      var rest := DisjTokens(DisjOf(us[1..]));
      DisjAll(us[1..]);
      AllAppend(Tokens(us[0]) + [OrWord], rest);
      AllAppend(Tokens(us[0]), [OrWord]);
      assert forall i :: 1 <= i < |us| ==> us[i] == us[1..][i - 1];
    }
  }

  lemma {:induction false} ConjAll(us: seq<Unary>)
    requires us != [] && forall i :: 0 <= i < |us| ==> AllSafe(Tokens(us[i]))
    ensures AllSafe(ConjTokens(ConjOf(us)))
    ensures AllClean(ConjTokens(ConjOf(us))) <==> forall i :: 0 <= i < |us| ==> AllClean(Tokens(us[i]))
  {
    if |us| > 1 {
      var rest := ConjTokens(ConjOf(us[1..]));
      ConjAll(us[1..]);
      AllAppend(Tokens(us[0]) + [AndWord], rest);
      AllAppend(Tokens(us[0]), [AndWord]);
      assert forall i :: 1 <= i < |us| ==> us[i] == us[1..][i - 1];
    }
  }

  lemma CompiledItemTokens(catalogue: seq<ForeignKey>, table: string, item: Item, u: Unary, params: seq<Value>)
    requires CompiledItem(catalogue, table, item, u, params)
    ensures AllSafe(Tokens(u)) && (AllClean(Tokens(u)) <==> CleanItem(item))
  {
    match item
    case Single(f) => CompiledFilterTokens(catalogue, table, f, u, params);
    case AnyOf(fs) =>
      var us: seq<Unary> :| CompiledGroup(catalogue, table, fs, us, params) && u == Group(DisjOf(us));
      forall i | 0 <= i < |fs| ensures AllSafe(Tokens(us[i])) && (AllClean(Tokens(us[i])) <==> CleanFilter(fs[i])) {
        CompiledFilterTokens(catalogue, table, fs[i], us[i], params);
      }
      DisjAll(us);
      var body := DisjTokens(DisjOf(us));
      AllAppend([Open] + body, [Close]);
      AllAppend([Open], body);
  }

  lemma CompiledTokens(catalogue: seq<ForeignKey>, table: string, items: seq<Item>, us: seq<Unary>,
                       params: seq<Value>)
    requires items != [] && CompiledAll(catalogue, table, items, us, params)
    ensures var ts := ConjTokens(ConjOf(us)); AllSafe(ts) && (AllClean(ts) <==> CleanItems(items))
  {
    forall i | 0 <= i < |us| ensures AllSafe(Tokens(us[i])) && (AllClean(Tokens(us[i])) <==> CleanItem(items[i])) {
      CompiledItemTokens(catalogue, table, items[i], us[i], params);
    }
    ConjAll(us);
  }

  /** Renumbering a clause behind its WHERE renumbers the clause alone. */
  lemma ShiftedClause(ts: seq<Token>, k: nat)
    requires AllSafe(ts) && k > 0
    ensures (ShiftText(" where " + TextOf(ts), k) == " where " + TextOf(ShiftTokens(ts, k))) <==> AllClean(ts)
  {
    ShiftTextIsShift(ts, k);
    TextStart(ts);
    ShiftTextAppend(" where ", TextOf(ts), k);
    SafeIsClean(" where ");
    ShiftTextClean(" where ", k);
    SamePrefix(" where ", ShiftText(TextOf(ts), k), TextOf(ShiftTokens(ts, k)));
  }

  /** Renumbering the WHERE text is right exactly when no filter sends an
      operator with a `$` before a digit. */
  lemma ShiftedWhere(catalogue: seq<ForeignKey>, table: string, items: seq<Item>, us: seq<Unary>, params: seq<Value>,
                     k: nat)
    requires items != [] && CompiledAll(catalogue, table, items, us, params) && k > 0
    ensures (ShiftText(" where " + TextOf(ConjTokens(ConjOf(us))), k)
             == " where " + TextOf(ConjTokens(ShiftConj(ConjOf(us), k))))
       <==> CleanItems(items)
  {
    CompiledTokens(catalogue, table, items, us, params);
    ShiftedClause(ConjTokens(ConjOf(us)), k);
    ShiftConjTokens(ConjOf(us), k);
  }

  lemma {:induction false} ConjOfText(us: seq<Unary>, clauses: seq<string>)
    requires us != [] && |us| == |clauses| && forall i :: 0 <= i < |us| ==> clauses[i] == TextOf(Tokens(us[i]))
    ensures TextOf(ConjTokens(ConjOf(us))) == Join(clauses, " and ")
  {
    if |us| > 1 {
      ConjText(us[0], ConjOf(us[1..]));
      ConjOfText(us[1..], clauses[1..]);
    }
  }

  lemma {:induction false} DisjOfText(us: seq<Unary>, clauses: seq<string>)
    requires us != [] && |us| == |clauses| && forall i :: 0 <= i < |us| ==> clauses[i] == TextOf(Tokens(us[i]))
    ensures TextOf(DisjTokens(DisjOf(us))) == Join(clauses, " or ")
  {
    assert ConjTokens(Just(us[0])) == Tokens(us[0]);
    if |us| > 1 {
      var rest := DisjTokens(DisjOf(us[1..]));
      DisjOfText(us[1..], clauses[1..]);
      TextOfAppend(Tokens(us[0]) + [OrWord], rest);
      TextOfAppend(Tokens(us[0]), [OrWord]);
      TextOfOne(OrWord);
    }
  }

  lemma GroupText(us: seq<Unary>, clauses: seq<string>)
    requires us != [] && |us| == |clauses| && forall i :: 0 <= i < |us| ==> clauses[i] == TextOf(Tokens(us[i]))
    ensures TextOf(Tokens(Group(DisjOf(us)))) == "(" + Join(clauses, " or ") + ")"
  {
    DisjOfText(us, clauses);
    TextOfWrapped(Open, DisjTokens(DisjOf(us)), Close);
  }
}
