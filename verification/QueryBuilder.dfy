/** The builder itself: parameters pushed onto a shared list while text is
    assembled, branches of an `or` group compiled in any order, and the UPDATE
    statement whose WHERE is renumbered as text. */
module QueryBuilder {
  import opened Text
  import opened Sql
  import opened QueryFilters
  import opened QueryText
  import opened Renumber
  import opened QuerySelect
  import OrExpression
  import SelectParser

  class ParamList {
    var items: seq<Value>

    constructor ()
      ensures items == []
    {
      items := [];
    }

    method Push(v: Value)
      modifies this
      ensures items == old(items) + [v]
    {
      items := items + [v];
    }
  }

  function Indices(n: nat): (r: set<int>)
    ensures forall i :: i in r <==> 0 <= i < n
  {
    if n == 0 then {} else Indices(n - 1) + {n - 1}
  }

  // ---- One filter ----

  /** `compileScalarFilter`: the clause text, with the bound values pushed. */
  method CompileScalarFilter(f: Filter, column: string, parameters: ParamList, ghost c: ColumnRef)
    returns (clause: string)
    requires column == TokenText(Column(c))
    modifies parameters
    ensures parameters.items == old(parameters.items) + ScalarValues(f)
    ensures Plain(f) ==> clause == TextOf(Tokens(ScalarSql(f, c, |old(parameters.items)|)))
    ensures f.operator == "is" ==>
      clause == column + (if f.negate then " is not " else " is ")
                + (if f.value == Null then "null" else if f.value == Bool(true) then "true" else "false")
  {
    ghost var n := |parameters.items|;
    if f.operator == "is" {
      var literal := if f.value == Null then "null" else if f.value == Bool(true) then "true" else "false";
      clause := column + (if f.negate then " is not " else " is ") + literal;
      IsTestText(c, f.negate, IsOperand(f.value));
    } else if f.operator == "in" || f.operator == "not.in" {
      clause := CompileIn(f, column, parameters, c);
    } else {
      clause := CompileCore(f, column, parameters, c);
      if f.negate {
        if Plain(f) {
          ParenthesisedText(Core(f, c, n));
        }
        clause := "not (" + clause + ")";
      }
    }
  }

  method CompileIn(f: Filter, column: string, parameters: ParamList, ghost c: ColumnRef) returns (clause: string)
    requires IsIn(f) && column == TokenText(Column(c))
    modifies parameters
    ensures parameters.items == old(parameters.items) + InMembers(f.value)
    ensures clause == TextOf(Tokens(ScalarSql(f, c, |old(parameters.items)|)))
  {
    var members := InMembers(f.value);
    var excluded := f.operator == "not.in" || f.negate;
    if |members| == 0 {
      clause := if excluded then "true" else "false";
    } else {
      InListText(c, excluded, |parameters.items|, |members|);
      var refs := PushAll(members, parameters);
      clause := InListString(column, excluded, refs);
    }
  }

  /** The `not` operator and every operator sent as it is. */
  method CompileCore(f: Filter, column: string, parameters: ParamList, ghost c: ColumnRef) returns (clause: string)
    requires f.operator != "is" && !IsIn(f) && column == TokenText(Column(c))
    modifies parameters
    ensures parameters.items == old(parameters.items) + ScalarValues(f)
    ensures Plain(f) ==> clause == TextOf(Tokens(Core(f, c, |old(parameters.items)|)))
  {
    if f.operator == "not" {
      clause := column + " is not " + (if f.value == Null then "null" else StringOf(f.value));
      if Plain(f) {
        IsTestText(c, true, NotOperand(f.value).value);
      }
    } else {
      parameters.Push(f.value);
      clause := column + (" " + f.operator + " ") + RefText(|parameters.items|);
      TestText(c, f.operator, |parameters.items|);
    }
  }

  /** `values.map(...)`: one placeholder per pushed value. */
  method PushAll(values: seq<Value>, parameters: ParamList) returns (refs: seq<string>)
    modifies parameters
    ensures parameters.items == old(parameters.items) + values
    ensures refs == RefTexts(|old(parameters.items)|, |values|)
  {
    refs := [];
    for i := 0 to |values|
      invariant parameters.items == old(parameters.items) + values[..i]
      invariant |refs| == i && forall j :: 0 <= j < i ==> refs[j] == RefText(|old(parameters.items)| + 1 + j)
    {
      parameters.Push(values[i]);
      refs := refs + [RefText(|parameters.items|)];
    }
    assert values[..|values|] == values;
  }

  class DirectQuery {
    const table: string
    var action: string
    var selection: SelectList
    var filters: seq<Item>
    var values: seq<(string, Value)>
    var countMode: bool
    var head: bool
    var returnRows: bool

    constructor (table: string)
      ensures this.table == table && action == "select" && filters == [] && values == []
      ensures selection == SelectParser.ParseSelect("*") && !countMode && !head && !returnRows
    {
      this.table := table;
      selection := SelectParser.ParseSelect("*");
      action := "select";
      filters := [];
      values := [];
      countMode, head, returnRows := false, false, false;
    }

    /** On a statement that writes, a select list asks for the written rows. */
    method Select(columns: string, exactCount: bool, headOnly: bool)
      modifies this`selection, this`returnRows, this`countMode, this`head
      ensures selection == SelectParser.ParseSelect(columns)
      ensures returnRows == (old(returnRows) || action != "select")
      ensures countMode == exactCount && head == headOnly
    {
      selection := SelectParser.ParseSelect(columns);
      returnRows := returnRows || action != "select";
      countMode, head := exactCount, headOnly;
    }

    method Update(patch: seq<(string, Value)>)
      modifies this`action, this`values
      ensures action == "update" && values == patch
    {
      action := "update";
      values := patch;
    }

    method Eq(column: string, value: Value)
      modifies this`filters
      ensures filters == old(filters) + [Single(Filter(column, "=", value, false))]
    {
      filters := filters + [Single(Filter(column, "=", value, false))];
    }

    method Is(column: string, value: Value)
      modifies this`filters
      ensures filters == old(filters) + [Single(Filter(column, "is", value, false))]
    {
      filters := filters + [Single(Filter(column, "is", value, false))];
    }

    method In(column: string, members: seq<Value>)
      modifies this`filters
      ensures filters == old(filters) + [Single(Filter(column, "in", Arr(members), false))]
    {
      filters := filters + [Single(Filter(column, "in", Arr(members), false))];
    }

    method Not(column: string, operator: string, value: Value)
      modifies this`filters
      ensures filters == old(filters) + [Single(Filter(column, operator, value, true))]
    {
      filters := filters + [Single(Filter(column, operator, value, true))];
    }

    /** One group from its text; unsupported parts are an error and add nothing. */
    method Or(expression: string) returns (ok: bool)
      modifies this`filters
      ensures ok == OrExpression.ParseOr(expression).Some?
      ensures filters == if ok then old(filters) + [AnyOf(OrExpression.ParseOr(expression).value)] else old(filters)
    {
      var group := OrExpression.ParseOr(expression);
      ok := group.Some?;
      if ok {
        filters := filters + [AnyOf(group.value)];
      }
    }

    /** `filterClause`: follows a dotted path through foreign keys, one `exists`
        per step, and compiles the last name as a column. */
    method FilterClause(catalogue: seq<ForeignKey>, f: Filter, parameters: ParamList, from: string, alias: Alias,
                        counter: Counter)
      returns (r: Option<string>)
      modifies parameters, counter
      ensures old(parameters.items) <= parameters.items
      ensures r.Some? <==> Resolvable(catalogue, from, Path(f))
      ensures r.Some? ==> parameters.items == old(parameters.items) + ScalarValues(f)
      ensures Plain(f) ==>
        Spells(r, FilterSql(catalogue, from, alias, old(counter.value), Path(f), f, |old(parameters.items)|))
      decreases |Path(f)|, 1
    {
      var path := Split(f.column, '.');
      if |path| > 1 {
        r := RelatedClause(catalogue, f, path, parameters, from, alias, counter);
      } else if Identifier(path[0]) {
        var column := AliasText(alias) + "." + Quote(path[0]);
        var clause := CompileScalarFilter(f, column, parameters, ColumnRef(alias, path[0]));
        r := Some(clause);
      } else {
        r := None;
      }
    }

    method RelatedClause(catalogue: seq<ForeignKey>, f: Filter, path: seq<string>, parameters: ParamList, from: string,
                         alias: Alias, counter: Counter)
      returns (r: Option<string>)
      requires path == Path(f) && |path| > 1
      modifies parameters, counter
      ensures old(parameters.items) <= parameters.items
      ensures r.Some? <==> Resolvable(catalogue, from, path)
      ensures r.Some? ==> parameters.items == old(parameters.items) + ScalarValues(f)
      ensures Plain(f) ==>
        Spells(r, FilterSql(catalogue, from, alias, old(counter.value), path, f, |old(parameters.items)|))
      decreases |path|, 0
    {
      ghost var n, k := |parameters.items|, counter.value;
      var related := path[0];
      var fk := Resolve(catalogue, from, related, None);
      if fk.None? { return None; }
      var child := FilterAlias(counter.value);
      counter.value := counter.value + 1;
      if !Identifier(fk.value.targetColumn) || !Identifier(fk.value.sourceColumn) { return None; }
      var join := JoinString(fk.value, from, alias, child);
      var rest := f.(column := Join(path[1..], "."));
      RestOfPath(f, path);
      var nested := FilterClause(catalogue, rest, parameters, related, child, counter);
      if Plain(f) {
        StepText(catalogue, from, alias, k, path, f, rest.column, n, fk.value, nested);
      }
      r := if nested.None? || !Identifier(related) then None
           else Some(ExistsString(related, child, join, nested.value));
    }

    /** The branches of an `or` group, compiled concurrently: any pending branch
        may be the next to push its values. */
    method GroupClauses(catalogue: seq<ForeignKey>, fs: seq<Filter>, parameters: ParamList)
      returns (group: Option<seq<string>>, ghost us: seq<Unary>)
      modifies parameters
      ensures old(parameters.items) <= parameters.items
      ensures |us| == |fs| && (group.Some? ==> |group.value| == |fs|)
      ensures group.Some? <==> ResolvableItem(catalogue, table, AnyOf(fs))
      ensures group.Some? ==> forall i :: 0 <= i < |fs| && Plain(fs[i]) ==>
        CompiledFilter(catalogue, table, fs[i], us[i], parameters.items) && group.value[i] == TextOf(Tokens(us[i]))
    {
      var texts: seq<string> := seq(|fs|, _ => "");
      us := seq(|fs|, _ => Constant(LNull));
      var pending := Indices(|fs|);
      while pending != {}
        invariant old(parameters.items) <= parameters.items
        invariant |texts| == |us| == |fs| && forall i :: i in pending ==> 0 <= i < |fs|
        invariant forall i :: 0 <= i < |fs| && i !in pending ==>
          Branch(catalogue, table, fs[i], us[i], texts[i], parameters.items)
        decreases pending
      {
        var i :| i in pending;
        ghost var before := parameters.items;
        var counter := new Counter();
        var text := FilterClause(catalogue, fs[i], parameters, table, Base, counter);
        if text.None? { return None, us; }
        forall k | 0 <= k < |fs| && k !in pending
          ensures Branch(catalogue, table, fs[k], us[k], texts[k], parameters.items)
        {
          BranchGrows(catalogue, table, fs[k], us[k], texts[k], before, parameters.items);
        }
        if Plain(fs[i]) {
          us := us[i := FilterSql(catalogue, table, Base, 0, Path(fs[i]), fs[i], |before|).value];
          assert Window(parameters.items, |before|, ScalarValues(fs[i]));
        }
        texts := texts[i := text.value];
        pending := pending - {i};
      }
      group := Some(texts);
    }

    /** `where`: the clauses joined by `and`, each group in parentheses. */
    method Where(catalogue: seq<ForeignKey>, parameters: ParamList) returns (r: Option<string>, ghost us: seq<Unary>)
      modifies parameters
      ensures old(parameters.items) <= parameters.items
      ensures r.Some? <==> ResolvableAll(catalogue, table, filters)
      ensures r.Some? && filters == [] ==> r.value == "" && parameters.items == old(parameters.items)
      ensures r.Some? && filters != [] && Sendable(filters) ==>
        CompiledAll(catalogue, table, filters, us, parameters.items)
          && r.value == " where " + TextOf(ConjTokens(ConjOf(us)))
    {
      var clauses: seq<string> := [];
      us := [];
      for i := 0 to |filters|
        invariant old(parameters.items) <= parameters.items
        invariant filters == [] ==> parameters.items == old(parameters.items)
        invariant |us| == |clauses| == i && ResolvableAll(catalogue, table, filters[..i])
        invariant Sendable(filters) ==>
          Spelt(catalogue, table, filters[..i], us, clauses, parameters.items)
      {
        ghost var before := parameters.items;
        var clause, u := ItemClause(catalogue, filters[i], parameters);
        if clause.None? { return None, us; }
        assert filters[..i + 1] == filters[..i] + [filters[i]];
        if Sendable(filters) {
          SpeltNext(catalogue, table, filters[..i], us, clauses, before, filters[i], u, clause.value, parameters.items);
        }
        clauses, us := clauses + [clause.value], us + [u];
      }
      assert filters[..|filters|] == filters;
      if clauses == [] { return Some(""), us; }
      r := Some(" where " + Join(clauses, " and "));
      if Sendable(filters) {
        ConjOfText(us, clauses);
      }
    }

    /** The WHERE of a select: the filters, then the clauses of the `inner`
        relations of the select list. */
    method SelectWhere(catalogue: seq<ForeignKey>, parameters: ParamList)
      returns (r: Option<string>, ghost us: seq<Unary>)
      modifies parameters
      ensures old(parameters.items) <= parameters.items
      ensures r.Some?
         <==> Quotable(selection) && InnerSql(catalogue, table, Base, 0, selection).Some?
              && ResolvableAll(catalogue, table, filters)
      ensures r.Some? && Sendable(filters) ==>
        CompiledAll(catalogue, table, filters, us, parameters.items)
        && r.value == WhereText(us + InnerSql(catalogue, table, Base, 0, selection).value.clauses)
    {
      var counter := new Counter();
      var inner := InnerClauses(catalogue, table, Base, selection, counter);
      us := [];
      if !Quotable(selection) || inner.None? { return None, us; }
      ghost var innerUs := InnerSql(catalogue, table, Base, 0, selection).value.clauses;
      var where;
      where, us := Where(catalogue, parameters);
      if where.None? { return None, us; }
      var text := where.value;
      if inner.value != [] {
        text := text + (if text != "" then " and" else " where") + " " + Join(inner.value, " and ");
      }
      r := Some(text);
      if Sendable(filters) {
        if filters == [] { us := []; }
        WhereTextAppend(us, innerUs, inner.value);
      }
    }

    /** UPDATE: the new values are bound first, and the WHERE compiled with its
        own numbering is renumbered as text behind them. */
    method UpdateStatement(catalogue: seq<ForeignKey>)
      returns (r: Option<(string, seq<Value>)>, ghost us: seq<Unary>, ghost bound: seq<Value>)
      ensures r.Some?
         <==> ResolvableAll(catalogue, table, filters) && Identifier(table) && Assignable(values)
              && (returnRows ==> Quotable(selection))
      ensures r.Some? ==> NewValues(values) <= r.value.1
      ensures r.Some? ==> bound == r.value.1[|values|..]
      ensures r.Some? && filters == [] ==> r.value.0 == SetText(table, values) + Returned() && bound == []
      ensures r.Some? && values != [] && filters != [] && Sendable(filters) ==>
        CompiledAll(catalogue, table, filters, us, r.value.1[|values|..])
        && (r.value.0 == UpdateText(table, values, ShiftConj(ConjOf(us), |values|)) + Returned()
          <==> CleanItems(filters))
    {
      var whereParameters := new ParamList();
      var where;
      where, us := Where(catalogue, whereParameters);
      bound := whereParameters.items;
      if where.None? { return None, us, bound; }
      var parameters := new ParamList();
      var sets := SetColumns(parameters);
      if sets.None? { return None, us, bound; }
      if !Identifier(table) || (returnRows && !Quotable(selection)) { return None, us, bound; }
      var shifted := ShiftText(where.value, |parameters.items|);
      var text := "update " + Quote(table) + " b set " + Join(sets.value, ", ") + shifted;
      r := Some((text + Returned(), parameters.items + whereParameters.items));
      if values != [] && filters != [] && Sendable(filters) {
        UpdateSpelt(catalogue, table, filters, us, bound, values, Returned());
      }
    }

    /** `column = $n` for each value, with the values pushed; none when a name is unsafe. */
    method SetColumns(parameters: ParamList) returns (sets: Option<seq<string>>)
      requires parameters.items == []
      modifies parameters
      ensures sets.Some? <==> Assignable(values)
      ensures sets.Some? ==> parameters.items == NewValues(values) && sets.value == SetClauses(values)
    {
      var texts: seq<string> := [];
      for i := 0 to |values|
        invariant parameters.items == NewValues(values[..i]) && |parameters.items| == i
        invariant texts == SetClauses(values[..i]) && Assignable(values[..i])
      {
        if !Identifier(values[i].0) { return None; }
        assert values[..i + 1] == values[..i] + [values[i]];
        parameters.Push(values[i].1);
        texts := texts + [Quote(values[i].0) + " = " + RefText(|parameters.items|)];
      }
      assert values[..|values|] == values;
      sets := Some(texts);
    }

    function Returned(): string
      reads this
    {
      if returnRows then ReturningText(selection) else ""
    }

    method ItemClause(catalogue: seq<ForeignKey>, item: Item, parameters: ParamList)
      returns (r: Option<string>, ghost u: Unary)
      modifies parameters
      ensures old(parameters.items) <= parameters.items
      ensures r.Some? <==> ResolvableItem(catalogue, table, item)
      ensures r.Some? && SendableItem(item) ==>
        CompiledItem(catalogue, table, item, u, parameters.items) && r.value == TextOf(Tokens(u))
    {
      u := Constant(LNull);
      match item
      case Single(f) =>
        ghost var n := |parameters.items|;
        var counter := new Counter();
        r := FilterClause(catalogue, f, parameters, table, Base, counter);
        if r.Some? && Plain(f) {
          u := FilterSql(catalogue, table, Base, 0, Path(f), f, n).value;
          assert Window(parameters.items, n, ScalarValues(f));
        }
      case AnyOf(fs) =>
        var group, us := GroupClauses(catalogue, fs, parameters);
        if group.None? { return None, u; }
        r := Some("(" + Join(group.value, " or ") + ")");
        if SendableItem(item) {
          u := Group(DisjOf(us));
          assert CompiledGroup(catalogue, table, fs, us, parameters.items);
          GroupText(us, group.value);
        }
    }
  }

  lemma RestOfPath(f: Filter, path: seq<string>)
    requires path == Path(f) && |path| > 1
    ensures var rest := f.(column := Join(path[1..], "."));
      Path(rest) == path[1..] && ScalarValues(rest) == ScalarValues(f) && (Plain(rest) <==> Plain(f))
  {
    SplitJoin(path[1..], '.');
  }

  /** The renumbered statement is the one meant exactly when renumbering met no
      operator text it changes. */
  lemma UpdateSpelt(catalogue: seq<ForeignKey>, table: string, items: seq<Item>, us: seq<Unary>, params: seq<Value>,
                    values: seq<(string, Value)>, tail: string)
    requires items != [] && values != [] && CompiledAll(catalogue, table, items, us, params)
    ensures SetText(table, values) + ShiftText(" where " + TextOf(ConjTokens(ConjOf(us))), |values|) + tail
              == UpdateText(table, values, ShiftConj(ConjOf(us), |values|)) + tail
       <==> CleanItems(items)
  {
    var shifted := ShiftText(" where " + TextOf(ConjTokens(ConjOf(us))), |values|);
    var meant := " where " + TextOf(ConjTokens(ShiftConj(ConjOf(us), |values|)));
    ShiftedWhere(catalogue, table, items, us, params, |values|);
    SamePrefix(SetText(table, values), shifted, meant);
    SameSuffix(SetText(table, values) + shifted, SetText(table, values) + meant, tail);
  }

  /** A branch of a group that has been compiled. */
  ghost predicate Branch(catalogue: seq<ForeignKey>, table: string, f: Filter, u: Unary, text: string,
                         params: seq<Value>)
  {
    Resolvable(catalogue, table, Path(f))
    && (Plain(f) ==> CompiledFilter(catalogue, table, f, u, params) && text == TextOf(Tokens(u)))
  }

  lemma BranchGrows(catalogue: seq<ForeignKey>, table: string, f: Filter, u: Unary, text: string, params: seq<Value>,
                    grown: seq<Value>)
    requires Branch(catalogue, table, f, u, text, params) && params <= grown
    ensures Branch(catalogue, table, f, u, text, grown)
  {
    if Plain(f) {
      FilterGrows(catalogue, table, f, u, params, grown);
    }
  }

  // ---- RETURNING ----

  function ReturnedColumns(items: SelectList): seq<string> {
    if items == [] then []
    else (if !items[0].Column? then []
          else [Quote(items[0].column) + (if Named(items[0]) then " as " + Quote(items[0].name.value) else "")])
         + ReturnedColumns(items[1..])
  }

  function ReturningText(items: SelectList): string {
    " returning " + (if Starred(items) then "*" else Join(ReturnedColumns(items), ", "))
  }

  predicate Assignable(values: seq<(string, Value)>) {
    forall i :: 0 <= i < |values| ==> Identifier(values[i].0)
  }

  lemma SameSuffix(x: string, y: string, z: string)
    ensures x + z == y + z <==> x == y
  {
    if x + z == y + z {
      assert |x| == |y|;
      assert x == (x + z)[..|x|] && y == (y + z)[..|y|];
    }
  }

  /** Filters that can be sent: no text spliced by `not`, no empty group. */
  predicate SendableItem(item: Item) {
    match item
    case Single(f) => Plain(f)
    case AnyOf(fs) => fs != [] && forall i :: 0 <= i < |fs| ==> Plain(fs[i])
  }

  predicate Sendable(items: seq<Item>) {
    forall i :: 0 <= i < |items| ==> SendableItem(items[i])
  }

  /** The items so far, each compiled for the parameters and spelt. */
  ghost predicate Spelt(catalogue: seq<ForeignKey>, table: string, items: seq<Item>, us: seq<Unary>,
                        texts: seq<string>, params: seq<Value>)
  {
    |us| == |items| && |texts| == |items|
    && forall j :: 0 <= j < |items| ==>
         CompiledItem(catalogue, table, items[j], us[j], params) && texts[j] == TextOf(Tokens(us[j]))
  }

  lemma SpeltNext(catalogue: seq<ForeignKey>, table: string, items: seq<Item>, us: seq<Unary>, texts: seq<string>,
                  params: seq<Value>, item: Item, u: Unary, text: string, grown: seq<Value>)
    requires Spelt(catalogue, table, items, us, texts, params) && params <= grown
    requires CompiledItem(catalogue, table, item, u, grown) && text == TextOf(Tokens(u))
    ensures Spelt(catalogue, table, items + [item], us + [u], texts + [text], grown)
  {
    forall j | 0 <= j < |items| ensures CompiledItem(catalogue, table, items[j], us[j], grown) {
      ItemGrows(catalogue, table, items[j], us[j], params, grown);
    }
  }

  lemma ItemGrows(catalogue: seq<ForeignKey>, table: string, item: Item, u: Unary, params: seq<Value>,
                  grown: seq<Value>)
    requires params <= grown && CompiledItem(catalogue, table, item, u, params)
    ensures CompiledItem(catalogue, table, item, u, grown)
  {
    match item
    case Single(f) => FilterGrows(catalogue, table, f, u, params, grown);
    case AnyOf(fs) =>
      var us: seq<Unary> :| CompiledGroup(catalogue, table, fs, us, params) && u == Group(DisjOf(us));
      forall i | 0 <= i < |fs| ensures CompiledFilter(catalogue, table, fs[i], us[i], grown) {
        FilterGrows(catalogue, table, fs[i], us[i], params, grown);
      }
      assert CompiledGroup(catalogue, table, fs, us, grown);
  }

  lemma FilterGrows(catalogue: seq<ForeignKey>, table: string, f: Filter, u: Unary, params: seq<Value>,
                    grown: seq<Value>)
    requires params <= grown && CompiledFilter(catalogue, table, f, u, params)
    ensures CompiledFilter(catalogue, table, f, u, grown)
  {
    var n: nat :| Window(params, n, ScalarValues(f)) && FilterSql(catalogue, table, Base, 0, Path(f), f, n) == Some(u);
    assert Window(grown, n, ScalarValues(f));
  }

  /** A column is returned under its alias, if it has one, and a relation is not. */
  lemma ReturnedExactly(item: SelectParser.Item, items: SelectList)
    ensures ReturnedColumns([]) == []
    ensures ReturnedColumns([item] + items)
         == (if item.Relation? then []
             else if item.name.None? || item.name.value == "" then [Quote(item.column)]
             else [Quote(item.column) + " as " + Quote(item.name.value)]) + ReturnedColumns(items)
  {
    assert ([item] + items)[1..] == items;
    if item.Column? && Named(item) {
      Assoc(Quote(item.column), " as ", Quote(item.name.value));
    } else if item.Column? {
      assert Quote(item.column) + "" == Quote(item.column);
    }
  }

  /** RETURNING names the columns of the list in order; a `*` anywhere asks for
      every column. */
  lemma ReturningExactly(items: SelectList, text: string)
    requires text == if exists i :: 0 <= i < |items| && items[i].Column? && items[i].column == "*" then "*"
                     else Join(ReturnedColumns(items), ", ")
    ensures ReturningText(items) == " returning " + text
  {
  }
}
