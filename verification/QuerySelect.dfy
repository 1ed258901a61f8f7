/** Relations marked `inner` in a select list: each becomes an `exists` clause
    that follows the WHERE, with its own aliases, nested as deep as the list. */
module QuerySelect {
  import opened Text
  import opened Sql
  import opened QueryFilters
  import opened QueryText
  import opened Renumber
  import SelectParser

  type SelectList = seq<SelectParser.Item>

  predicate Starred(items: SelectList) {
    exists i :: 0 <= i < |items| && items[i].Column? && items[i].column == "*"
  }

  predicate Named(item: SelectParser.Item)
    requires item.Column?
  {
    item.name.Some? && item.name.value != ""
  }

  /** The names a list of columns quotes are safe: none is when it holds `*`. */
  predicate Quotable(items: SelectList) {
    Starred(items)
    || forall i :: 0 <= i < |items| && items[i].Column? ==>
         Identifier(items[i].column) && (Named(items[i]) ==> Identifier(items[i].name.value))
  }

  /** The names a relation quotes are safe. */
  predicate Joinable(fk: ForeignKey, item: SelectParser.Item)
    requires item.Relation?
  {
    Quotable(item.columns) && Identifier(fk.sourceColumn) && Identifier(fk.targetColumn)
    && Identifier(item.table) && Identifier(item.alias)
  }

  datatype Inner = Inner(clauses: seq<Unary>, next: nat)

  /** The clauses of the `inner` relations of a list, and the first unused alias. */
  function InnerSql(catalogue: seq<ForeignKey>, table: string, alias: Alias, counter: nat,
                    items: SelectList)
    : (r: Option<Inner>)
    ensures r.Some? ==> r.value.next >= counter
    decreases items, 1
  {
    if items == [] then Some(Inner([], counter))
    else if items[0].Column? then InnerSql(catalogue, table, alias, counter, items[1..])
    else
      var own := RelationSql(catalogue, table, alias, counter, items[0]);
      if own.None? then None
      else
        var rest := InnerSql(catalogue, table, alias, own.value.next, items[1..]);
        if rest.None? then None else Some(Inner(own.value.clauses + rest.value.clauses, rest.value.next))
  }

  function RelationSql(catalogue: seq<ForeignKey>, table: string, alias: Alias, counter: nat,
                       item: SelectParser.Item)
    : (r: Option<Inner>)
    requires item.Relation?
    ensures r.Some? ==> r.value.next >= counter
    decreases item, 0
  {
    var fk := Resolve(catalogue, table, item.table, item.hint);
    if fk.None? then None
    else
      var child := RelationAlias(counter);
      var nested := InnerSql(catalogue, item.table, child, counter + 1, item.columns);
      if nested.None? || !Joinable(fk.value, item) then None
      else
        var where := [JoinSql(fk.value, table, alias, child)] + nested.value.clauses;
        Some(Inner(if item.inner then [Exists(item.table, child, ConjOf(where))] else [], nested.value.next))
  }

  /** What the list asks of a row: every `inner` relation has a linked row that
      itself satisfies the nested list. */
  ghost predicate Keeps(d: Dialect, db: Database, catalogue: seq<ForeignKey>, table: string, row: Row,
                        items: SelectList)
    decreases items, 1
  {
    forall i :: 0 <= i < |items| && items[i].Relation? && items[i].inner ==>
      KeepsRelation(d, db, catalogue, table, row, items[i])
  }

  ghost predicate KeepsRelation(d: Dialect, db: Database, catalogue: seq<ForeignKey>, table: string, row: Row,
                                item: SelectParser.Item)
    requires item.Relation?
    decreases item, 0
  {
    match Resolve(catalogue, table, item.table, item.hint)
    case None => false
    case Some(fk) =>
      exists i :: 0 <= i < |db(item.table)| && Linked(d, fk, table, row, db(item.table)[i]) == True
               && Keeps(d, db, catalogue, item.table, db(item.table)[i], item.columns)
  }

  ghost predicate AllTrue(d: Dialect, db: Database, env: Env, params: seq<Value>, us: seq<Unary>) {
    forall i :: 0 <= i < |us| ==> Eval(d, db, env, params, us[i]) == True
  }

  lemma {:induction false} ConjOfTrue(d: Dialect, db: Database, env: Env, params: seq<Value>, us: seq<Unary>)
    requires us != []
    ensures EvalConj(d, db, env, params, ConjOf(us)) == True <==> AllTrue(d, db, env, params, us)
  {
    if |us| > 1 {
      ConjOfTrue(d, db, env, params, us[1..]);
      assert forall i :: 1 <= i < |us| ==> us[i] == us[1..][i - 1];
    }
  }

  lemma AllTrueAppend(d: Dialect, db: Database, env: Env, params: seq<Value>, a: seq<Unary>, b: seq<Unary>)
    ensures AllTrue(d, db, env, params, a + b) <==> AllTrue(d, db, env, params, a) && AllTrue(d, db, env, params, b)
  {
    assert forall i :: 0 <= i < |a| ==> (a + b)[i] == a[i];
    assert forall i :: 0 <= i < |b| ==> (a + b)[|a| + i] == b[i];
  }

  lemma AllTrueOne(d: Dialect, db: Database, env: Env, params: seq<Value>, u: Unary)
    ensures AllTrue(d, db, env, params, [u]) <==> Eval(d, db, env, params, u) == True
  {
    assert [u][0] == u;
  }

  predicate Earlier(alias: Alias, counter: nat) {
    alias.Base? || (alias.RelationAlias? && alias.n < counter)
  }

  /** The clauses of a select list hold of a row exactly when the list keeps it. */
  lemma {:induction false} InnerMeaning(d: Dialect, db: Database, catalogue: seq<ForeignKey>, table: string,
                                        alias: Alias, counter: nat, items: SelectList, env: Env, params: seq<Value>)
    requires Earlier(alias, counter) && alias in env
    requires InnerSql(catalogue, table, alias, counter, items).Some?
    ensures AllTrue(d, db, env, params, InnerSql(catalogue, table, alias, counter, items).value.clauses)
        <==> Keeps(d, db, catalogue, table, env[alias], items)
    decreases items, 1
  {
    if items != [] {
      var rest := items[1..];
      assert forall i :: 1 <= i < |items| ==> items[i] == rest[i - 1];
      if items[0].Column? {
        InnerMeaning(d, db, catalogue, table, alias, counter, rest, env, params);
      } else {
        var own := RelationSql(catalogue, table, alias, counter, items[0]).value;
        RelationMeaning(d, db, catalogue, table, alias, counter, items[0], env, params);
        InnerMeaning(d, db, catalogue, table, alias, own.next, rest, env, params);
        AllTrueAppend(d, db, env, params, own.clauses, InnerSql(catalogue, table, alias, own.next, rest).value.clauses);
      }
    }
  }

  lemma {:induction false} RelationMeaning(d: Dialect, db: Database, catalogue: seq<ForeignKey>, table: string,
      alias: Alias, counter: nat, item: SelectParser.Item, env: Env, params: seq<Value>)
    requires item.Relation? && Earlier(alias, counter) && alias in env
    requires RelationSql(catalogue, table, alias, counter, item).Some?
    ensures AllTrue(d, db, env, params, RelationSql(catalogue, table, alias, counter, item).value.clauses)
        <==> (item.inner ==> KeepsRelation(d, db, catalogue, table, env[alias], item))
    decreases item, 0
  {
    var fk := Resolve(catalogue, table, item.table, item.hint).value;
    var child := RelationAlias(counter);
    var join := JoinSql(fk, table, alias, child);
    var nested := InnerSql(catalogue, item.table, child, counter + 1, item.columns).value.clauses;
    var where := [join] + nested;
    forall i | 0 <= i < |db(item.table)|
      ensures EvalConj(d, db, env[child := db(item.table)[i]], params, ConjOf(where)) == True
         <==> Linked(d, fk, table, env[alias], db(item.table)[i]) == True
              && Keeps(d, db, catalogue, item.table, db(item.table)[i], item.columns)
    {
      var inside := env[child := db(item.table)[i]];
      InnerMeaning(d, db, catalogue, item.table, child, counter + 1, item.columns, inside, params);
      ConjOfTrue(d, db, inside, params, where);
      AllTrueAppend(d, db, inside, params, [join], nested);
      AllTrueOne(d, db, inside, params, join);
    }
    if item.inner {
      var u := Exists(item.table, child, ConjOf(where));
      assert RelationSql(catalogue, table, alias, counter, item).value.clauses == [u];
      AllTrueOne(d, db, env, params, u);
    }
  }

  /** The rows a select returns, before ordering and limits: those on which every
      filter answers true and that the select list keeps. */
  lemma SelectMeaning(d: Dialect, db: Database, catalogue: seq<ForeignKey>, table: string, row: Row, items: seq<Item>,
                      us: seq<Unary>, params: seq<Value>, selection: SelectList)
    requires CompiledAll(catalogue, table, items, us, params)
    requires InnerSql(catalogue, table, Base, 0, selection).Some?
    requires us + InnerSql(catalogue, table, Base, 0, selection).value.clauses != []
    ensures var all := us + InnerSql(catalogue, table, Base, 0, selection).value.clauses;
      EvalConj(d, db, map[Base := row], params, ConjOf(all)) == True
      <==> (AskAll(d, db, catalogue, table, row, UnderstoodAll(items)) == True
            && Keeps(d, db, catalogue, table, row, selection))
    ensures (forall i :: 0 <= i < |items| ==> Faithful(items[i])) ==> UnderstoodAll(items) == items
  {
    if forall i :: 0 <= i < |items| ==> Faithful(items[i]) {
      FaithfulAll(items);
    }
    var env := map[Base := row];
    var inner := InnerSql(catalogue, table, Base, 0, selection).value.clauses;
    ConjOfTrue(d, db, env, params, us + inner);
    AllTrueAppend(d, db, env, params, us, inner);
    InnerMeaning(d, db, catalogue, table, Base, 0, selection, env, params);
    if us != [] {
      ConjOfTrue(d, db, env, params, us);
      WhereMeaning(d, db, catalogue, table, row, items, us, params);
    }
  }

  // ---- The text of the clauses ----

  class Counter {
    var value: nat

    constructor ()
      ensures value == 0
    {
      value := 0;
    }
  }

  predicate SpellsAll(texts: seq<string>, us: seq<Unary>) {
    |texts| == |us| && forall i :: 0 <= i < |us| ==> texts[i] == TextOf(Tokens(us[i]))
  }

  predicate SpellsInner(texts: Option<seq<string>>, next: nat, inner: Option<Inner>) {
    match inner
    case None => texts.None?
    case Some(inner) => texts.Some? && SpellsAll(texts.value, inner.clauses) && next == inner.next
  }

  function RelationString(related: string, child: Alias, join: string, nestedWhere: string): string {
    ("exists (select 1 from " + (Quote(related) + " " + AliasText(child)) + " where ") + (join + nestedWhere) + ")"
  }

  /** `projection`, as far as it decides which rows are kept. */
  method InnerClauses(catalogue: seq<ForeignKey>, table: string, alias: Alias, items: SelectList, counter: Counter)
    returns (r: Option<seq<string>>)
    modifies counter
    ensures SpellsInner(r, counter.value, InnerSql(catalogue, table, alias, old(counter.value), items))
    decreases items, 1
  {
    var innerClauses: seq<string> := [];
    ghost var done: seq<Unary> := [];
    ghost var whole := InnerSql(catalogue, table, alias, counter.value, items);
    assert items[0..] == items;
    ContinuedSteps([], [], whole);
    for i := 0 to |items|
      invariant SpellsAll(innerClauses, done)
      invariant whole == Continued(done, InnerSql(catalogue, table, alias, counter.value, items[i..]))
    {
      assert items[i..][0] == items[i] && items[i..][1..] == items[i + 1..];
      if items[i].Relation? {
        ghost var before := counter.value;
        var own := RelationClauses(catalogue, table, alias, items[i], counter);
        if own.None? { return None; }
        innerClauses := innerClauses + own.value;
        ghost var more := RelationSql(catalogue, table, alias, before, items[i]).value.clauses;
        ContinuedSteps(done, more, InnerSql(catalogue, table, alias, counter.value, items[i + 1..]));
        done := done + more;
      }
    }
    assert items[|items|..] == [];
    r := Some(innerClauses);
  }

  function Continued(done: seq<Unary>, rest: Option<Inner>): Option<Inner> {
    match rest
    case None => None
    case Some(inner) => Some(Inner(done + inner.clauses, inner.next))
  }

  lemma ContinuedSteps(done: seq<Unary>, more: seq<Unary>, rest: Option<Inner>)
    ensures Continued(done, Continued(more, rest)) == Continued(done + more, rest)
    ensures Continued([], rest) == rest
  {
    if rest.Some? {
      assert done + (more + rest.value.clauses) == done + more + rest.value.clauses;
      assert [] + rest.value.clauses == rest.value.clauses;
    }
  }

  method RelationClauses(catalogue: seq<ForeignKey>, table: string, alias: Alias, item: SelectParser.Item,
                         counter: Counter)
    returns (r: Option<seq<string>>)
    requires item.Relation?
    modifies counter
    ensures SpellsInner(r, counter.value, RelationSql(catalogue, table, alias, old(counter.value), item))
    decreases item, 0
  {
    var fk := Resolve(catalogue, table, item.table, item.hint);
    if fk.None? { return None; }
    var child := RelationAlias(counter.value);
    counter.value := counter.value + 1;
    var nested := InnerClauses(catalogue, item.table, child, item.columns, counter);
    if nested.None? || !Joinable(fk.value, item) { return None; }
    if !item.inner { return Some([]); }
    var join := JoinString(fk.value, table, alias, child);
    var nestedWhere := if nested.value != [] then " and " + Join(nested.value, " and ") else "";
    r := Some([RelationString(item.table, child, join, nestedWhere)]);
    RelationSpelt(catalogue, table, alias, old(counter.value), item, nested.value);
  }

  lemma RelationSpelt(catalogue: seq<ForeignKey>, table: string, alias: Alias, counter: nat, item: SelectParser.Item,
                      nested: seq<string>)
    requires item.Relation? && item.inner && Resolve(catalogue, table, item.table, item.hint).Some?
    requires Joinable(Resolve(catalogue, table, item.table, item.hint).value, item)
    requires var inner := InnerSql(catalogue, item.table, RelationAlias(counter), counter + 1, item.columns);
      inner.Some? && SpellsAll(nested, inner.value.clauses)
    ensures var fk, child := Resolve(catalogue, table, item.table, item.hint).value, RelationAlias(counter);
      var text := RelationString(item.table, child, JoinString(fk, table, alias, child),
                                 if nested != [] then " and " + Join(nested, " and ") else "");
      var own := RelationSql(catalogue, table, alias, counter, item);
      own.Some? && SpellsAll([text], own.value.clauses)
      && own.value.next == InnerSql(catalogue, item.table, child, counter + 1, item.columns).value.next
  {
    var fk, child := Resolve(catalogue, table, item.table, item.hint).value, RelationAlias(counter);
    var clauses := InnerSql(catalogue, item.table, child, counter + 1, item.columns).value.clauses;
    JoinText(fk, table, alias, child);
    RelationText(item.table, child, JoinSql(fk, table, alias, child), clauses, nested);
  }

  lemma JoinCons(first: string, rest: seq<string>)
    ensures Join([first] + rest, " and ") == first + (if rest != [] then " and " + Join(rest, " and ") else "")
  {
    assert ([first] + rest)[1..] == rest;
    if rest != [] {
      Assoc(first, " and ", Join(rest, " and "));
    }
  }

  lemma RelationText(related: string, child: Alias, join: Unary, clauses: seq<Unary>, texts: seq<string>)
    requires SpellsAll(texts, clauses)
    ensures TextOf(Tokens(Exists(related, child, ConjOf([join] + clauses))))
         == RelationString(related, child, TextOf(Tokens(join)),
                           if texts != [] then " and " + Join(texts, " and ") else "")
  {
    var all := [TextOf(Tokens(join))] + texts;
    JoinCons(TextOf(Tokens(join)), texts);
    ExistsConjText(related, child, [join] + clauses, all);
  }

  lemma ExistsConjText(related: string, child: Alias, us: seq<Unary>, texts: seq<string>)
    requires us != [] && SpellsAll(texts, us)
    ensures TextOf(Tokens(Exists(related, child, ConjOf(us))))
         == ("exists (select 1 from " + (Quote(related) + " " + AliasText(child)) + " where ")
            + Join(texts, " and ") + ")"
  {
    ExistsHeadText(related, child, ConjOf(us));
    ConjOfText(us, texts);
  }

  // ---- The clause as a whole ----

  function WhereText(us: seq<Unary>): string {
    if us == [] then "" else " where " + TextOf(ConjTokens(ConjOf(us)))
  }

  lemma {:induction false} ConjOfAppend(us: seq<Unary>, more: seq<Unary>)
    requires us != [] && more != []
    ensures TextOf(ConjTokens(ConjOf(us + more)))
      == TextOf(ConjTokens(ConjOf(us))) + " and " + TextOf(ConjTokens(ConjOf(more)))
  {
    if |us| == 1 {
      assert (us + more)[1..] == more;
      ConjText(us[0], ConjOf(more));
    } else {
      assert (us + more)[1..] == us[1..] + more;
      ConjOfAppend(us[1..], more);
      ConjText(us[0], ConjOf(us[1..] + more));
      ConjText(us[0], ConjOf(us[1..]));
    }
  }

  lemma Follows(a: string, word: string, spaced: string, b: string)
    requires word + " " == spaced
    ensures a + word + " " + b == a + spaced + b
  {
    assert a + word + " " == a + spaced;
  }

  lemma OpensWhere(inner: seq<Unary>, texts: seq<string>)
    requires texts != [] && SpellsAll(texts, inner)
    ensures WhereText(inner) == "" + " where" + " " + Join(texts, " and ")
  {
    ConjOfText(inner, texts);
    assert " where" + " " == " where ";
    Follows("", " where", " where ", Join(texts, " and "));
  }

  lemma ExtendsWhere(us: seq<Unary>, inner: seq<Unary>, texts: seq<string>)
    requires us != [] && texts != [] && SpellsAll(texts, inner)
    ensures WhereText(us + inner) == WhereText(us) + " and" + " " + Join(texts, " and ")
  {
    var clause, more := TextOf(ConjTokens(ConjOf(us))), Join(texts, " and ");
    ConjOfText(inner, texts);
    ConjOfAppend(us, inner);
    assert " and" + " " == " and ";
    Follows(WhereText(us), " and", " and ", more);
    Assoc(" where ", clause, " and " + more);
    Assoc(clause, " and ", more);
    Assoc(" where " + clause, " and ", more);
  }

  /** Inner clauses follow the WHERE behind `and`, or open it behind `where`. */
  lemma WhereTextAppend(us: seq<Unary>, inner: seq<Unary>, texts: seq<string>)
    requires SpellsAll(texts, inner)
    ensures WhereText(us + inner) ==
      if texts == [] then WhereText(us)
      else WhereText(us) + (if WhereText(us) != "" then " and" else " where") + " " + Join(texts, " and ")
  {
    if texts == [] {
      assert us + inner == us;
    } else {
      if us == [] {
        assert us + inner == inner;
        OpensWhere(inner, texts);
      } else {
        ExtendsWhere(us, inner, texts);
        assert WhereText(us) != "";
      }
    }
  }

}
