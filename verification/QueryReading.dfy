/** The text that is sent, read back: what a WHERE, an UPDATE and a select list
    compile to has one reading, the compiled one, exactly when every operator is
    one word that is no keyword. */
module QueryReading {
  import opened Text
  import opened Sql
  import opened SqlText
  import opened Renumber
  import opened QueryFilters
  import opened QueryText

  /** The operator is spelt out by the compiler, or sent as one plain word. */
  predicate SentPlainly(f: Filter) {
    f.operator in {"is", "in", "not.in", "not"} || PlainOperator(f.operator)
  }

  predicate SentPlainlyItem(item: Item) {
    match item
    case Single(f) => SentPlainly(f)
    case AnyOf(fs) => forall i :: 0 <= i < |fs| ==> SentPlainly(fs[i])
  }

  predicate SentPlainlyAll(items: seq<Item>) {
    forall i :: 0 <= i < |items| ==> SentPlainlyItem(items[i])
  }

  lemma IdentifierIsPlain(name: string)
    requires Identifier(name)
    ensures PlainName(name)
  {
    forall i | 0 <= i < |name| ensures name[i] != '"' {
      assert IdentStart(name[i]) || IsDigit(name[i]);
    }
  }

  // ---- One filter ----

  lemma ScalarReads(f: Filter, column: ColumnRef, n: nat)
    requires Plain(f) && Identifier(column.name)
    ensures NamesOf(ScalarSql(f, column, n)) && (OperatorsOf(ScalarSql(f, column, n)) <==> SentPlainly(f))
  {
    IdentifierIsPlain(column.name);
    if f.operator != "is" && !IsIn(f) && f.negate {
      var u := Core(f, column, n);
      assert NamesOfDisj(OneOf(Just(u))) == NamesOfConj(Just(u)) == NamesOf(u);
      assert OperatorsOfDisj(OneOf(Just(u))) == OperatorsOfConj(Just(u)) == OperatorsOf(u);
    }
  }

  lemma JoinReads(fk: ForeignKey, table: string, alias: Alias, child: Alias)
    requires Identifier(fk.sourceColumn) && Identifier(fk.targetColumn)
    ensures NamesOf(JoinSql(fk, table, alias, child)) && OperatorsOf(JoinSql(fk, table, alias, child))
  {
    IdentifierIsPlain(fk.sourceColumn);
    IdentifierIsPlain(fk.targetColumn);
  }

  lemma {:induction false} FilterReads(catalogue: seq<ForeignKey>, table: string, alias: Alias, counter: nat,
                                       path: seq<string>, f: Filter, n: nat)
    requires path != [] && Plain(f) && FilterSql(catalogue, table, alias, counter, path, f, n).Some?
    ensures var u := FilterSql(catalogue, table, alias, counter, path, f, n).value;
      NamesOf(u) && (OperatorsOf(u) <==> SentPlainly(f))
    decreases |path|
  {
    if |path| == 1 {
      ScalarReads(f, ColumnRef(alias, path[0]), n);
    } else {
      var fk, child := Resolve(catalogue, table, path[0], None).value, FilterAlias(counter);
      var nested := FilterSql(catalogue, path[0], child, counter + 1, path[1..], f, n).value;
      var join := JoinSql(fk, table, alias, child);
      FilterReads(catalogue, path[0], child, counter + 1, path[1..], f, n);
      JoinReads(fk, table, alias, child);
      IdentifierIsPlain(path[0]);
      assert NamesOfConj(AndAlso(join, Just(nested))) && NamesOfConj(Just(nested));
      assert OperatorsOfConj(AndAlso(join, Just(nested))) <==> OperatorsOfConj(Just(nested));
    }
  }

  lemma CompiledFilterReads(catalogue: seq<ForeignKey>, table: string, f: Filter, u: Unary, params: seq<Value>)
    requires CompiledFilter(catalogue, table, f, u, params)
    ensures NamesOf(u) && (OperatorsOf(u) <==> SentPlainly(f))
  {
    var n: nat :| Window(params, n, ScalarValues(f)) && FilterSql(catalogue, table, Base, 0, Path(f), f, n) == Some(u);
    FilterReads(catalogue, table, Base, 0, Path(f), f, n);
  }

  // ---- The clause ----

  lemma {:induction false} DisjReads(us: seq<Unary>)
    requires us != [] && forall i :: 0 <= i < |us| ==> NamesOf(us[i])
    ensures NamesOfDisj(DisjOf(us))
    ensures OperatorsOfDisj(DisjOf(us)) <==> forall i :: 0 <= i < |us| ==> OperatorsOf(us[i])
  {
    assert NamesOfConj(Just(us[0])) && (OperatorsOfConj(Just(us[0])) <==> OperatorsOf(us[0]));
    if |us| > 1 {
      DisjReads(us[1..]);
      assert forall i :: 1 <= i < |us| ==> us[i] == us[1..][i - 1];
    }
  }

  lemma {:induction false} ConjReads(us: seq<Unary>)
    requires us != [] && forall i :: 0 <= i < |us| ==> NamesOf(us[i])
    ensures NamesOfConj(ConjOf(us))
    ensures OperatorsOfConj(ConjOf(us)) <==> forall i :: 0 <= i < |us| ==> OperatorsOf(us[i])
  {
    if |us| > 1 {
      ConjReads(us[1..]);
      assert forall i :: 1 <= i < |us| ==> us[i] == us[1..][i - 1];
    }
  }

  lemma CompiledItemReads(catalogue: seq<ForeignKey>, table: string, item: Item, u: Unary, params: seq<Value>)
    requires CompiledItem(catalogue, table, item, u, params)
    ensures NamesOf(u) && (OperatorsOf(u) <==> SentPlainlyItem(item))
  {
    match item
    case Single(f) => CompiledFilterReads(catalogue, table, f, u, params);
    case AnyOf(fs) =>
      var us: seq<Unary> :| CompiledGroup(catalogue, table, fs, us, params) && u == Group(DisjOf(us));
      forall i | 0 <= i < |us| ensures NamesOf(us[i]) && (OperatorsOf(us[i]) <==> SentPlainly(fs[i])) {
        CompiledFilterReads(catalogue, table, fs[i], us[i], params);
      }
      DisjReads(us);
  }

  lemma WhereNames(catalogue: seq<ForeignKey>, table: string, items: seq<Item>, us: seq<Unary>, params: seq<Value>)
    requires items != [] && CompiledAll(catalogue, table, items, us, params)
    ensures NamesOfConj(ConjOf(us)) && (OperatorsOfConj(ConjOf(us)) <==> SentPlainlyAll(items))
  {
    forall i | 0 <= i < |us| ensures NamesOf(us[i]) && (OperatorsOf(us[i]) <==> SentPlainlyItem(items[i])) {
      CompiledItemReads(catalogue, table, items[i], us[i], params);
    }
    ConjReads(us);
  }

  /** The text of the WHERE is read back as what was compiled exactly when no
      filter sends an operator that is more than one word, or a keyword. */
  lemma WhereTextExactly(catalogue: seq<ForeignKey>, table: string, items: seq<Item>, us: seq<Unary>,
                         params: seq<Value>)
    requires items != [] && CompiledAll(catalogue, table, items, us, params)
    ensures ReadText(TextOf(ConjTokens(ConjOf(us)))) == Got(OneOf(ConjOf(us)), []) <==> SentPlainlyAll(items)
  {
    WhereShape(catalogue, table, items, us, params);
    WhereNames(catalogue, table, items, us, params);
    ReadsBackExactly(OneOf(ConjOf(us)));
  }

  // ---- Renumbered ----

  lemma {:induction false} ShiftDisjReads(c: Disj, k: nat)
    ensures NamesOfDisj(ShiftDisj(c, k)) <==> NamesOfDisj(c)
    ensures OperatorsOfDisj(ShiftDisj(c, k)) <==> OperatorsOfDisj(c)
    ensures ReadableDisj(ShiftDisj(c, k)) <==> ReadableDisj(c)
    decreases c
  {
    match c
    case OneOf(a) => ShiftConjReads(a, k);
    case OrElse(a, rest) =>
      ShiftConjReads(a, k);
      ShiftDisjReads(rest, k);
  }

  lemma {:induction false} ShiftConjReads(c: Conj, k: nat)
    ensures NamesOfConj(ShiftConj(c, k)) <==> NamesOfConj(c)
    ensures OperatorsOfConj(ShiftConj(c, k)) <==> OperatorsOfConj(c)
    ensures ReadableConj(ShiftConj(c, k)) <==> ReadableConj(c)
    decreases c
  {
    match c
    case Just(u) => ShiftReads(u, k);
    case AndAlso(u, rest) =>
      ShiftReads(u, k);
      ShiftConjReads(rest, k);
  }

  lemma {:induction false} ShiftReads(u: Unary, k: nat)
    ensures NamesOf(Shift(u, k)) <==> NamesOf(u)
    ensures OperatorsOf(Shift(u, k)) <==> OperatorsOf(u)
    ensures Readable(Shift(u, k)) <==> Readable(u)
    decreases u
  {
    match u
    case Negated(inner) => ShiftReads(inner, k);
    case Group(body) => ShiftDisjReads(body, k);
    case Exists(_, _, where) => ShiftConjReads(where, k);
    case _ =>
  }

  /** An UPDATE's WHERE, renumbered as text, is read as the shifted clause exactly
      when no operator is more than a word or a keyword, given that none holds a
      placeholder of its own; so the statement selects the rows asked for. */
  lemma UpdateTextExactly(d: Dialect, db: Database, catalogue: seq<ForeignKey>, table: string, row: Row,
                          items: seq<Item>, us: seq<Unary>, given: seq<Value>, params: seq<Value>)
    requires items != [] && given != [] && CompiledAll(catalogue, table, items, us, params) && CleanItems(items)
    ensures var text := ShiftText(TextOf(ConjTokens(ConjOf(us))), |given|);
      ReadText(text) == Got(OneOf(ShiftConj(ConjOf(us), |given|)), []) <==> SentPlainlyAll(items)
    ensures EvalDisj(d, db, map[Base := row], given + params, OneOf(ShiftConj(ConjOf(us), |given|)))
         == AskAll(d, db, catalogue, table, row, UnderstoodAll(items))
  {
    var c, k := ConjOf(us), |given|;
    ShiftedText(catalogue, table, items, us, params, k);
    WhereShape(catalogue, table, items, us, params);
    WhereNames(catalogue, table, items, us, params);
    ShiftConjReads(c, k);
    ReadsBackExactly(OneOf(ShiftConj(c, k)));
    UpdateMeaning(d, db, catalogue, table, row, items, us, given, params);
  }

  lemma ShiftedText(catalogue: seq<ForeignKey>, table: string, items: seq<Item>, us: seq<Unary>, params: seq<Value>,
                    k: nat)
    requires items != [] && CompiledAll(catalogue, table, items, us, params) && CleanItems(items) && k > 0
    ensures ShiftText(TextOf(ConjTokens(ConjOf(us))), k) == TextOf(ConjTokens(ShiftConj(ConjOf(us), k)))
  {
    var text, shifted := TextOf(ConjTokens(ConjOf(us))), TextOf(ConjTokens(ShiftConj(ConjOf(us), k)));
    ShiftedWhere(catalogue, table, items, us, params, k);
    TextStart(ConjTokens(ConjOf(us)));
    ShiftTextAppend(" where ", text, k);
    SafeIsClean(" where ");
    ShiftTextClean(" where ", k);
    SamePrefix(" where ", ShiftText(text, k), shifted);
  }
}
