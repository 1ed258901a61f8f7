/** What compiled filters answer, said in the values of a row alone, and the
    literals they send. */
module QueryAnswers {
  import opened Text
  import opened Sql
  import opened QueryFilters
  import opened QueryText
  import opened Renumber
  import opened QuerySelect

  /** The answer on a row of the queried table. */
  ghost function Answer(d: Dialect, db: Database, row: Row, params: seq<Value>, f: Filter, n: nat): Truth
    requires Plain(f)
  {
    Eval(d, db, map[Base := row], params, ScalarSql(f, ColumnRef(Base, f.column), n))
  }

  function Yes(b: bool): Truth { if b then True else False }

  // ---- `is` ----

  /** `is` with null asks for a null cell, with true for a true one, with anything
      else for a false one; it has an answer on every row. */
  lemma IsAnswer(d: Dialect, db: Database, row: Row, params: seq<Value>, c: string, v: Value, negate: bool, n: nat)
    ensures Answer(d, db, row, params, Filter(c, "is", v, negate), n)
         == Yes((if v == Null then row(c) == Null
                 else if v == Bool(true) then row(c) == Bool(true)
                 else row(c) == Bool(false)) != negate)
  {
  }

  lemma IsText(c: ColumnRef, v: Value, negate: bool, n: nat)
    ensures TextOf(Tokens(ScalarSql(Filter(c.name, "is", v, negate), c, n)))
         == TokenText(Column(c)) + (if negate then " is not " else " is ")
            + (if v == Null then "null" else if v == Bool(true) then "true" else "false")
  {
    IsTestText(c, negate, if v == Null then LNull else if v == Bool(true) then LTrue else LFalse);
  }

  // ---- `is not`, with the operand spliced as text ----

  /** The operands that can be spliced: those whose text is one of three words. */
  lemma SplicedExactly(c: string, v: Value, negate: bool)
    ensures Plain(Filter(c, "not", v, negate)) <==> StringOf(v) in {"null", "true", "false"}
    ensures v in {Null, Bool(true), Bool(false), Str("null"), Str("true"), Str("false")} ==>
      Plain(Filter(c, "not", v, negate))
  {
  }

  lemma SplicedAnswer(d: Dialect, db: Database, row: Row, params: seq<Value>, c: string, v: Value, negate: bool,
                      n: nat)
    requires Plain(Filter(c, "not", v, negate))
    ensures Answer(d, db, row, params, Filter(c, "not", v, negate), n)
         == Yes((if StringOf(v) == "null" then row(c) != Null
                 else if StringOf(v) == "true" then row(c) != Bool(true)
                 else row(c) != Bool(false)) != negate)
    ensures v == Null ==>
      Answer(d, db, row, params, Filter(c, "not", v, negate), n) == Yes((row(c) != Null) != negate)
  {
    var f := Filter(c, "not", v, negate);
    var column := ColumnRef(Base, c);
    ParenthesisedMeaning(d, db, map[Base := row], params, Core(f, column, n));
  }

  lemma SplicedText(c: ColumnRef, v: Value, n: nat)
    requires Plain(Filter(c.name, "not", v, false))
    ensures TextOf(Tokens(ScalarSql(Filter(c.name, "not", v, false), c, n)))
         == TokenText(Column(c)) + " is not " + (if v == Null then "null" else StringOf(v))
  {
    IsTestText(c, true, if StringOf(v) == "null" then LNull else if StringOf(v) == "true" then LTrue else LFalse);
  }

  /** What `String` makes of the values that are not arrays. */
  lemma StringOfScalars(s: string, b: bool)
    ensures StringOf(Null) == "null" && StringOf(Bool(b)) == (if b then "true" else "false")
    ensures StringOf(Num(s)) == s && StringOf(Str(s)) == s
  {
  }

  // ---- Lists ----

  /** Some member is the value; some member may be, for all that is known. */
  predicate Hit(d: Dialect, v: Value, items: seq<Value>) {
    exists i :: 0 <= i < |items| && v != Null && items[i] != Null && d.holds("=", v, items[i])
  }

  predicate Open(v: Value, items: seq<Value>) {
    exists i :: 0 <= i < |items| && (v == Null || items[i] == Null)
  }

  lemma HitFirst(d: Dialect, v: Value, item: Value, rest: seq<Value>)
    ensures Hit(d, v, [item] + rest) <==> (v != Null && item != Null && d.holds("=", v, item)) || Hit(d, v, rest)
  {
    var items := [item] + rest;
    if i :| 0 <= i < |items| && v != Null && items[i] != Null && d.holds("=", v, items[i]) {
      assert i > 0 ==> rest[i - 1] == items[i];
    }
    if i :| 0 <= i < |rest| && v != Null && rest[i] != Null && d.holds("=", v, rest[i]) {
      assert items[i + 1] == rest[i];
    }
    assert items[0] == item;
  }

  lemma OpenFirst(v: Value, item: Value, rest: seq<Value>)
    ensures Open(v, [item] + rest) <==> v == Null || item == Null || Open(v, rest)
  {
    var items := [item] + rest;
    if i :| 0 <= i < |items| && (v == Null || items[i] == Null) {
      assert i > 0 ==> rest[i - 1] == items[i];
    }
    if i :| 0 <= i < |rest| && (v == Null || rest[i] == Null) {
      assert items[i + 1] == rest[i];
    }
    assert items[0] == item;
  }

  lemma {:induction false} AmongExactly(d: Dialect, v: Value, items: seq<Value>)
    ensures AmongAny(d, v, items) == if Hit(d, v, items) then True else if Open(v, items) then Unknown else False
  {
    if items != [] {
      AmongExactly(d, v, items[1..]);
      HitFirst(d, v, items[0], items[1..]);
      OpenFirst(v, items[0], items[1..]);
      assert [items[0]] + items[1..] == items;
    }
  }

  /** `in` returns the rows whose value is a member. */
  lemma InReturns(d: Dialect, db: Database, row: Row, params: seq<Value>, c: string, items: seq<Value>, n: nat)
    requires Window(params, n, items)
    ensures Answer(d, db, row, params, Filter(c, "in", Arr(items), false), n)
         == if Hit(d, row(c), items) then True else if Open(row(c), items) then Unknown else False
  {
    ListAnswer(d, db, map[Base := row], params, Filter(c, "in", Arr(items), false), ColumnRef(Base, c), n);
    AmongExactly(d, row(c), items);
  }

  /** `not in`, however it is asked for, returns every row when the list is empty,
      and otherwise those with a value that is none of the members, which must all
      have values themselves. */
  lemma NotInReturns(d: Dialect, db: Database, row: Row, params: seq<Value>, c: string, items: seq<Value>,
                     f: Filter, n: nat)
    requires Window(params, n, items)
    requires f == Filter(c, "in", Arr(items), true) || f.(negate := false) == Filter(c, "not.in", Arr(items), false)
    ensures Answer(d, db, row, params, f, n) == True
       <==> forall i :: 0 <= i < |items| ==> row(c) != Null && items[i] != Null && !d.holds("=", row(c), items[i])
    ensures Answer(d, db, row, params, f, n) == False <==> Hit(d, row(c), items)
  {
    ListAnswer(d, db, map[Base := row], params, f, ColumnRef(Base, c), n);
    AmongExactly(d, row(c), items);
  }

  // ---- Comparisons ----

  /** Any other operator compares a value with the one it binds; without both
      there is no answer, negated or not. */
  lemma ComparisonReturns(d: Dialect, db: Database, row: Row, params: seq<Value>, f: Filter, n: nat)
    requires f.operator !in {"is", "in", "not.in", "not"} && n < |params| && params[n] == f.value
    ensures Answer(d, db, row, params, f, n)
         == if row(f.column) == Null || f.value == Null then Unknown
            else Yes(d.holds(f.operator, row(f.column), f.value) != f.negate)
  {
    assert Window(params, n, [f.value]);
    ScalarMeaning(d, db, map[Base := row], params, f, ColumnRef(Base, f.column), n);
  }

  // ---- Foreign keys ----

  /** A foreign key ties a row that refers to the row it refers to. */
  lemma LinkedExactly(d: Dialect, fk: ForeignKey, row: Row, other: Row)
    ensures Linked(d, fk, fk.sourceTable, row, other) == True
       <==> row(fk.sourceColumn) != Null && other(fk.targetColumn) != Null
            && d.holds("=", other(fk.targetColumn), row(fk.sourceColumn))
    ensures fk.sourceTable != fk.targetTable ==>
      (Linked(d, fk, fk.targetTable, row, other) == True <==>
        row(fk.targetColumn) != Null && other(fk.sourceColumn) != Null
        && d.holds("=", other(fk.sourceColumn), row(fk.targetColumn)))
  {
  }

  predicate Leads(fk: ForeignKey, base: string, table: string, hint: Option<string>) {
    ((fk.sourceTable == base && fk.targetTable == table) || (fk.sourceTable == table && fk.targetTable == base))
    && (hint.Some? && hint.value != "" ==> hint.value in {fk.constraint_name, fk.sourceColumn, fk.targetColumn})
  }

  /** The first foreign key that joins the two tables, either way round, and that
      the hint names, if there is one. */
  lemma {:induction false} ResolvesExactly(catalogue: seq<ForeignKey>, base: string, table: string,
                                           hint: Option<string>, fk: ForeignKey)
    ensures Resolve(catalogue, base, table, hint) == Some(fk)
       <==> exists i :: 0 <= i < |catalogue| && catalogue[i] == fk && Leads(fk, base, table, hint)
                        && forall j :: 0 <= j < i ==> !Leads(catalogue[j], base, table, hint)
  {
    if catalogue != [] {
      var rest := catalogue[1..];
      assert forall i :: 0 <= i < |rest| ==> rest[i] == catalogue[i + 1];
      assert Leads(catalogue[0], base, table, hint)
        <==> Between(catalogue[0], base, table) && HintFits(catalogue[0], hint);
      ResolvesExactly(rest, base, table, hint, fk);
      if Leads(catalogue[0], base, table, hint) {
      } else {
        if i :| 0 <= i < |catalogue| && catalogue[i] == fk && Leads(fk, base, table, hint)
                && forall j :: 0 <= j < i ==> !Leads(catalogue[j], base, table, hint) {
          assert rest[i - 1] == fk;
        }
        if i :| 0 <= i < |rest| && rest[i] == fk && Leads(fk, base, table, hint)
                && forall j :: 0 <= j < i ==> !Leads(rest[j], base, table, hint) {
          assert forall j :: 0 < j < i + 1 ==> catalogue[j] == rest[j - 1];
          assert catalogue[i + 1] == fk;
        }
      }
    }
  }

  /** A dotted filter returns the rows tied to some row of the next table that the
      rest of the path returns. */
  lemma PathReturns(d: Dialect, db: Database, catalogue: seq<ForeignKey>, table: string, row: Row, path: seq<string>,
                    f: Filter, fk: ForeignKey)
    requires |path| > 1 && Resolve(catalogue, table, path[0], None) == Some(fk) && fk.sourceTable == table
    ensures AskPath(d, db, catalogue, table, row, path, f) == True
       <==> exists i :: 0 <= i < |db(path[0])| && row(fk.sourceColumn) != Null
                        && db(path[0])[i](fk.targetColumn) != Null
                        && d.holds("=", db(path[0])[i](fk.targetColumn), row(fk.sourceColumn))
                        && AskPath(d, db, catalogue, path[0], db(path[0])[i], path[1..], f) == True
  {
    forall i | 0 <= i < |db(path[0])| {
      LinkedExactly(d, fk, row, db(path[0])[i]);
    }
  }

  // ---- All filters together ----

  ghost predicate Returns(d: Dialect, db: Database, catalogue: seq<ForeignKey>, table: string, row: Row, f: Filter) {
    AskPath(d, db, catalogue, table, row, Path(f), f) == True
  }

  lemma {:induction false} AnyReturns(d: Dialect, db: Database, catalogue: seq<ForeignKey>, table: string, row: Row,
                                      fs: seq<Filter>)
    ensures AskAny(d, db, catalogue, table, row, fs) == True
       <==> exists i :: 0 <= i < |fs| && Returns(d, db, catalogue, table, row, fs[i])
  {
    if fs != [] {
      AnyReturns(d, db, catalogue, table, row, fs[1..]);
      assert forall i :: 0 < i < |fs| ==> fs[i] == fs[1..][i - 1];
      if i :| 0 <= i < |fs[1..]| && Returns(d, db, catalogue, table, row, fs[1..][i]) {
        assert fs[i + 1] == fs[1..][i];
      }
    }
  }

  ghost predicate ReturnsItem(d: Dialect, db: Database, catalogue: seq<ForeignKey>, table: string, row: Row,
                              item: Item) {
    match item
    case Single(f) => Returns(d, db, catalogue, table, row, f)
    case AnyOf(fs) => exists i :: 0 <= i < |fs| && Returns(d, db, catalogue, table, row, fs[i])
  }

  lemma {:induction false} AllReturn(d: Dialect, db: Database, catalogue: seq<ForeignKey>, table: string, row: Row,
                                     items: seq<Item>)
    ensures AskAll(d, db, catalogue, table, row, items) == True
       <==> forall i :: 0 <= i < |items| ==> ReturnsItem(d, db, catalogue, table, row, items[i])
  {
    if items != [] {
      AllReturn(d, db, catalogue, table, row, items[1..]);
      assert forall i :: 0 < i < |items| ==> items[i] == items[1..][i - 1];
      assert forall i :: 0 <= i < |items[1..]| ==> items[1..][i] == items[i + 1];
      if items[0].AnyOf? {
        AnyReturns(d, db, catalogue, table, row, items[0].filters);
      }
    }
  }

  /** The compiled WHERE is true of exactly the rows that every filter returns and,
      of each `or` group, some branch. */
  lemma WhereReturnsExactly(d: Dialect, db: Database, catalogue: seq<ForeignKey>, table: string, row: Row,
                            items: seq<Item>, us: seq<Unary>, params: seq<Value>)
    requires items != [] && CompiledAll(catalogue, table, items, us, params)
    requires forall i :: 0 <= i < |items| ==> Faithful(items[i])
    ensures EvalConj(d, db, map[Base := row], params, ConjOf(us)) == True
       <==> forall i :: 0 <= i < |items| ==> ReturnsItem(d, db, catalogue, table, row, items[i])
  {
    WhereMeaning(d, db, catalogue, table, row, items, us, params);
    AllReturn(d, db, catalogue, table, row, items);
  }

  // ---- Inner relations ----

  /** Some row is tied by this foreign key and kept by the list inside. */
  ghost predicate SomeKept(d: Dialect, db: Database, catalogue: seq<ForeignKey>, fk: ForeignKey, table: string,
                           row: Row, related: string, columns: SelectList) {
    exists j :: 0 <= j < |db(related)| && Linked(d, fk, table, row, db(related)[j]) == True
                && Keeps(d, db, catalogue, related, db(related)[j], columns)
  }

  /** A row is kept exactly when every `inner` relation of the list has a foreign
      key to follow and a row tied by it that is kept by the list inside. */
  lemma KeptExactly(d: Dialect, db: Database, catalogue: seq<ForeignKey>, table: string, row: Row, items: SelectList)
    ensures Keeps(d, db, catalogue, table, row, items)
       <==> forall i :: 0 <= i < |items| && items[i].Relation? && items[i].inner ==>
              var item := items[i];
              var fk := Resolve(catalogue, table, item.table, item.hint);
              fk.Some? && SomeKept(d, db, catalogue, fk.value, table, row, item.table, item.columns)
  {
    forall i | 0 <= i < |items| && items[i].Relation?
      ensures KeepsRelation(d, db, catalogue, table, row, items[i]) <==>
        var fk := Resolve(catalogue, table, items[i].table, items[i].hint);
        fk.Some? && SomeKept(d, db, catalogue, fk.value, table, row, items[i].table, items[i].columns)
    {
    }
  }
}
