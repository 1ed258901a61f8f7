/** Filters of the query client: what a caller asks, what is compiled, and that
    the two have the same three-valued answer on every row. */
module QueryFilters {
  import opened Text
  import opened Sql
  import Renumber

  datatype Filter = Filter(column: string, operator: string, value: Value, negate: bool)

  datatype Item = Single(filter: Filter) | AnyOf(filters: seq<Filter>)

  datatype ForeignKey = ForeignKey(
    constraint_name: string,
    sourceTable: string,
    sourceColumn: string,
    targetTable: string,
    targetColumn: string)

  // ---- What a filter asks of one value ----

  function IsOperand(v: Value): Literal {
    if v.Null? then LNull else if v == Bool(true) then LTrue else LFalse
  }

  /** The literals `is not` can be followed by; any other text is not SQL. */
  function NotOperand(v: Value): Option<Literal> {
    var text := StringOf(v);
    if text == "null" then Some(LNull)
    else if text == "true" then Some(LTrue)
    else if text == "false" then Some(LFalse)
    else None
  }

  function StripParens(s: string): string {
    var a := if s != "" && s[0] == '(' then s[1..] else s;
    if a != "" && a[|a| - 1] == ')' then a[..|a| - 1] else a
  }

  function Strings(parts: seq<string>): (vs: seq<Value>)
  {
    if parts == [] then []
    else (if parts[0] != "" then [Str(parts[0])] else []) + Strings(parts[1..])
  }

  /** The members of an `in` filter: an array as it is, anything else as the
      comma list of its text. */
  function InMembers(v: Value): seq<Value> {
    if v.Arr? then v.items else Strings(Split(StripParens(StringOf(v)), ','))
  }

  predicate IsIn(f: Filter) { f.operator == "in" || f.operator == "not.in" }

  function AskPlain(d: Dialect, f: Filter, v: Value): Truth {
    if f.operator == "is" then Of(IsLiteral(v, IsOperand(f.value)))
    else if f.operator == "in" then AmongAny(d, v, InMembers(f.value))
    else if f.operator == "not.in" then Not3(AmongAny(d, v, InMembers(f.value)))
    else if f.operator == "not" then
      (match NotOperand(f.value) case Some(lit) => Of(!IsLiteral(v, lit)) case None => Unknown)
    else Compare(d, f.operator, v, f.value)
  }

  /** A filter read directly: its test, negated when it is marked so. */
  function Ask(d: Dialect, f: Filter, v: Value): Truth {
    if f.negate then Not3(AskPlain(d, f, v)) else AskPlain(d, f, v)
  }

  /** The `not` operator splices its operand as text. */
  predicate Plain(f: Filter) {
    f.operator == "not" ==> NotOperand(f.value).Some?
  }

  // ---- What one filter compiles to ----

  function Consecutive(n: nat, k: nat): (ns: seq<nat>)
    ensures |ns| == k
    ensures forall i :: 0 <= i < k ==> ns[i] == n + 1 + i
    decreases k
  {
    if k == 0 then [] else [n + 1] + Consecutive(n + 1, k - 1)
  }

  function Parenthesised(u: Unary): Unary { Negated(Group(OneOf(Just(u)))) }

  /** The clause for a column, when `n` parameters are already bound. */
  function ScalarSql(f: Filter, column: ColumnRef, n: nat): Unary
    requires Plain(f)
  {
    if f.operator == "is" then IsTest(column, f.negate, IsOperand(f.value))
    else if IsIn(f) then
      var members := InMembers(f.value);
      var excluded := f.operator == "not.in" || f.negate;
      if members == [] then Constant(if excluded then LTrue else LFalse)
      else InList(column, excluded, Consecutive(n, |members|))
    else if f.negate then Parenthesised(Core(f, column, n))
    else Core(f, column, n)
  }

  function Core(f: Filter, column: ColumnRef, n: nat): Unary
    requires Plain(f)
  {
    if f.operator == "not" then IsTest(column, true, NotOperand(f.value).value) else Test(column, f.operator, n + 1)
  }

  /** The parameters that clause binds, in order. */
  function ScalarValues(f: Filter): seq<Value> {
    if f.operator == "is" || f.operator == "not" then []
    else if IsIn(f) then InMembers(f.value)
    else [f.value]
  }

  predicate Window(params: seq<Value>, n: nat, vs: seq<Value>) {
    n + |vs| <= |params| && params[n..n + |vs|] == vs
  }

  lemma BoundAt(params: seq<Value>, n: nat, vs: seq<Value>, i: nat)
    requires Window(params, n, vs) && i < |vs|
    ensures Bound(params, n + 1 + i) == vs[i]
  {
    assert params[n..n + |vs|][i] == params[n + i];
  }

  lemma BoundWindow(params: seq<Value>, n: nat, vs: seq<Value>)
    requires Window(params, n, vs)
    ensures BoundAll(params, Consecutive(n, |vs|)) == vs
  {
    BoundEach(params, n, vs, Consecutive(n, |vs|));
  }

  lemma BoundEach(params: seq<Value>, n: nat, vs: seq<Value>, ns: seq<nat>)
    requires Window(params, n, vs) && |ns| == |vs| && forall i :: 0 <= i < |ns| ==> ns[i] == n + 1 + i
    ensures BoundAll(params, ns) == vs
  {
    var bound := BoundAll(params, ns);
    forall i | 0 <= i < |vs| ensures bound[i] == vs[i] {
      BoundAt(params, n, vs, i);
    }
  }

  lemma ParenthesisedMeaning(d: Dialect, db: Database, env: Env, params: seq<Value>, u: Unary)
    ensures Eval(d, db, env, params, Parenthesised(u)) == Not3(Eval(d, db, env, params, u))
  {
    assert EvalDisj(d, db, env, params, OneOf(Just(u))) == EvalConj(d, db, env, params, Just(u));
    assert Eval(d, db, env, params, Group(OneOf(Just(u)))) == Eval(d, db, env, params, u);
  }

  lemma ParenthesisedShape(u: Unary, n: nat)
    requires Readable(u) && Bounded(u, n)
    ensures Readable(Parenthesised(u)) && Bounded(Parenthesised(u), n)
  {
    assert ReadableDisj(OneOf(Just(u))) && BoundedDisj(OneOf(Just(u)), n);
    assert Readable(Group(OneOf(Just(u)))) && Bounded(Group(OneOf(Just(u))), n);
  }

  /** The one reading the compiler loses: a negated `not.in` stays `not in`. */
  predicate Misread(f: Filter) {
    f.operator == "not.in" && f.negate
  }

  /** The filter that the compiled clause answers. */
  function Understood(f: Filter): Filter { if Misread(f) then f.(negate := false) else f }

  lemma ListAnswer(d: Dialect, db: Database, env: Env, params: seq<Value>, f: Filter, column: ColumnRef, n: nat)
    requires IsIn(f) && Window(params, n, ScalarValues(f))
    ensures Eval(d, db, env, params, ScalarSql(f, column, n))
         == (if f.operator == "not.in" || f.negate then Not3(AmongAny(d, Cell(env, column), InMembers(f.value)))
             else AmongAny(d, Cell(env, column), InMembers(f.value)))
  {
    var members := InMembers(f.value);
    var excluded := f.operator == "not.in" || f.negate;
    BoundWindow(params, n, members);
    assert ScalarSql(f, column, n)
        == if members == [] then Constant(if excluded then LTrue else LFalse)
           else InList(column, excluded, Consecutive(n, |members|));
  }

  lemma CoreAnswer(d: Dialect, db: Database, env: Env, params: seq<Value>, f: Filter, column: ColumnRef, n: nat)
    requires !IsIn(f) && f.operator != "is" && Plain(f) && Window(params, n, ScalarValues(f))
    ensures Eval(d, db, env, params, Core(f, column, n)) == AskPlain(d, f, Cell(env, column))
  {
    if f.operator != "not" {
      BoundAt(params, n, ScalarValues(f), 0);
    }
  }

  lemma ScalarAnswer(d: Dialect, db: Database, env: Env, params: seq<Value>, f: Filter, column: ColumnRef, n: nat)
    requires Plain(f) && Window(params, n, ScalarValues(f))
    ensures Eval(d, db, env, params, ScalarSql(f, column, n))
         == if Misread(f) then Not3(AmongAny(d, Cell(env, column), InMembers(f.value)))
            else Ask(d, f, Cell(env, column))
  {
    if IsIn(f) {
      ListAnswer(d, db, env, params, f, column, n);
    } else if f.operator != "is" {
      CoreAnswer(d, db, env, params, f, column, n);
      ParenthesisedMeaning(d, db, env, params, Core(f, column, n));
    }
  }

  /** On every value in scope the compiled clause answers as the filter it is
      understood as. */
  lemma ScalarMeaning(d: Dialect, db: Database, env: Env, params: seq<Value>, f: Filter, column: ColumnRef, n: nat)
    requires Plain(f) && Window(params, n, ScalarValues(f))
    ensures Eval(d, db, env, params, ScalarSql(f, column, n)) == Ask(d, Understood(f), Cell(env, column))
  {
    ScalarAnswer(d, db, env, params, f, column, n);
    if Misread(f) {
      assert AskPlain(d, Understood(f), Cell(env, column)) == Not3(AmongAny(d, Cell(env, column), InMembers(f.value)));
    }
  }

  lemma {:induction false} AmongNone(d: Dialect, v: Value, items: seq<Value>)
    requires v.Null? || forall i :: 0 <= i < |items| ==> items[i].Null?
    ensures AmongAny(d, v, items) == if items == [] then False else Unknown
  {
    if items != [] {
      AmongNone(d, v, items[1..]);
    }
  }

  lemma {:induction false} AmongSome(d: Dialect, items: seq<Value>, i: nat)
    requires i < |items| && !items[i].Null? && d.holds("=", items[i], items[i])
    ensures AmongAny(d, items[i], items) == True
  {
    if i > 0 {
      AmongSome(d, items[1..], i - 1);
    }
  }

  /** A value is its own equal. */
  ghost predicate Reflexive(d: Dialect) {
    forall v: Value :: d.holds("=", v, v)
  }

  /** When the compiled clause answers like the filter on every value: always,
      unless `not.in` is negated over a list that is empty or names a value. */
  lemma ScalarMeaningExactly(d: Dialect, db: Database, params: seq<Value>, f: Filter, name: string, n: nat)
    requires Plain(f) && Window(params, n, ScalarValues(f)) && Reflexive(d)
    ensures (forall row: Row {:trigger row(name)} ::
               Eval(d, db, map[Base := row], params, ScalarSql(f, ColumnRef(Base, name), n)) == Ask(d, f, row(name)))
        <==> !(Misread(f) && (InMembers(f.value) == []
                              || exists i :: 0 <= i < |InMembers(f.value)| && !InMembers(f.value)[i].Null?))
  {
    var items := InMembers(f.value);
    var u := ScalarSql(f, ColumnRef(Base, name), n);
    forall row: Row {
      ScalarMeaning(d, db, map[Base := row], params, f, ColumnRef(Base, name), n);
    }
    if Misread(f) {
      if items == [] {
        var row: Row := (_) => Null;
        assert Eval(d, db, map[Base := row], params, u) != Ask(d, f, row(name));
      } else if i :| 0 <= i < |items| && !items[i].Null? {
        AmongSome(d, items, i);
        var row: Row := (_) => items[i];
        assert Eval(d, db, map[Base := row], params, u) != Ask(d, f, row(name));
      } else {
        forall row: Row {
          AmongNone(d, row(name), items);
        }
      }
    }
  }

  // ---- Dotted columns: a path through foreign keys ----

  predicate IdentStart(c: char) { 'a' <= c <= 'z' || 'A' <= c <= 'Z' || c == '_' }

  /** `/^[a-z_][a-z0-9_]*$/i`: what `identifier` lets through. */
  predicate Identifier(s: string) {
    s != "" && IdentStart(s[0]) && forall i :: 0 <= i < |s| ==> IdentStart(s[i]) || IsDigit(s[i])
  }

  predicate Between(fk: ForeignKey, left: string, right: string) {
    (fk.sourceTable == left && fk.targetTable == right) || (fk.sourceTable == right && fk.targetTable == left)
  }

  predicate HintFits(fk: ForeignKey, hint: Option<string>) {
    hint == None || hint == Some("")
    || fk.constraint_name == hint.value || fk.sourceColumn == hint.value || fk.targetColumn == hint.value
  }

  /** The first foreign key of the catalogue between the two tables that fits. */
  function Resolve(catalogue: seq<ForeignKey>, base: string, table: string,
                   hint: Option<string>)
    : (r: Option<ForeignKey>)
    ensures r.Some? ==> r.value in catalogue && Between(r.value, base, table) && HintFits(r.value, hint)
    ensures r.None? ==> forall fk :: fk in catalogue ==> !(Between(fk, base, table) && HintFits(fk, hint))
  {
    if catalogue == [] then None
    else if Between(catalogue[0], base, table) && HintFits(catalogue[0], hint) then Some(catalogue[0])
    else Resolve(catalogue[1..], base, table, hint)
  }

  /** The row of the related table that a foreign key ties to a row of `table`. */
  function Linked(d: Dialect, fk: ForeignKey, table: string, row: Row, other: Row): Truth {
    if fk.sourceTable == table then Compare(d, "=", other(fk.targetColumn), row(fk.sourceColumn))
    else Compare(d, "=", other(fk.sourceColumn), row(fk.targetColumn))
  }

  /** A filter with a dotted column read directly: some related row passes the
      rest of the path. */
  ghost function AskPath(d: Dialect, db: Database, catalogue: seq<ForeignKey>, table: string, row: Row,
                         path: seq<string>, f: Filter): Truth
    requires path != []
    decreases |path|
  {
    if |path| == 1 then Ask(d, f, row(path[0]))
    else match Resolve(catalogue, table, path[0], None)
      case None => Unknown
      case Some(fk) =>
        Of(exists i :: 0 <= i < |db(path[0])|
             && Linked(d, fk, table, row, db(path[0])[i]) == True
             && AskPath(d, db, catalogue, path[0], db(path[0])[i], path[1..], f) == True)
  }

  function JoinSql(fk: ForeignKey, table: string, alias: Alias, child: Alias): Unary {
    if fk.sourceTable == table then Match(ColumnRef(child, fk.targetColumn), "=", ColumnRef(alias, fk.sourceColumn))
    else Match(ColumnRef(child, fk.sourceColumn), "=", ColumnRef(alias, fk.targetColumn))
  }

  /** Every name on the path is safe, and a foreign key leads to each table on it. */
  predicate Resolvable(catalogue: seq<ForeignKey>, table: string, path: seq<string>)
    requires path != []
    decreases |path|
  {
    Identifier(path[0])
    && (|path| == 1 || (var fk := Resolve(catalogue, table, path[0], None);
                        fk.Some? && Identifier(fk.value.sourceColumn) && Identifier(fk.value.targetColumn)
                        && Resolvable(catalogue, path[0], path[1..])))
  }

  /** The clause of one filter along its path; none when a name is unsafe or no
      foreign key leads on. */
  function FilterSql(catalogue: seq<ForeignKey>, table: string, alias: Alias, counter: nat, path: seq<string>,
                     f: Filter, n: nat): Option<Unary>
    requires path != [] && Plain(f)
    decreases |path|
  {
    if |path| == 1 then
      if Identifier(path[0]) then Some(ScalarSql(f, ColumnRef(alias, path[0]), n)) else None
    else match Resolve(catalogue, table, path[0], None)
      case None => None
      case Some(fk) =>
        var child := FilterAlias(counter);
        var nested := FilterSql(catalogue, path[0], child, counter + 1, path[1..], f, n);
        if Identifier(path[0]) && Identifier(fk.sourceColumn) && Identifier(fk.targetColumn) && nested.Some?
        then Some(Exists(path[0], child, AndAlso(JoinSql(fk, table, alias, child), Just(nested.value))))
        else None
  }

  predicate Older(alias: Alias, counter: nat) {
    alias.Base? || (alias.FilterAlias? && alias.n < counter)
  }

  /** A related row passes the joined clause when it is linked and passes the rest. */
  lemma JoinedMeaning(d: Dialect, db: Database, env: Env, params: seq<Value>, fk: ForeignKey, table: string,
                      alias: Alias, child: Alias, other: Row, nested: Unary)
    requires alias in env && alias != child
    ensures var inner := env[child := other];
      EvalConj(d, db, inner, params, AndAlso(JoinSql(fk, table, alias, child), Just(nested)))
      == And3(Linked(d, fk, table, env[alias], other), Eval(d, db, inner, params, nested))
  {
    var inner := env[child := other];
    assert EvalConj(d, db, inner, params, Just(nested)) == Eval(d, db, inner, params, nested);
    assert Eval(d, db, inner, params, JoinSql(fk, table, alias, child)) == Linked(d, fk, table, env[alias], other);
  }

  /** The compiled clause of a dotted filter means what the filter, as understood,
      asks: what it asks, unless it is a negated `not.in`. */
  lemma {:induction false} FilterMeaning(
    d: Dialect, db: Database, catalogue: seq<ForeignKey>, table: string, alias: Alias, counter: nat,
    path: seq<string>, f: Filter, n: nat, env: Env, params: seq<Value>)
    requires path != [] && Plain(f)
    requires Older(alias, counter) && alias in env
    requires Window(params, n, ScalarValues(f))
    requires FilterSql(catalogue, table, alias, counter, path, f, n).Some?
    ensures Eval(d, db, env, params, FilterSql(catalogue, table, alias, counter, path, f, n).value)
         == AskPath(d, db, catalogue, table, env[alias], path, Understood(f))
    decreases |path|
  {
    if |path| == 1 {
      ScalarMeaning(d, db, env, params, f, ColumnRef(alias, path[0]), n);
    } else {
      var fk := Resolve(catalogue, table, path[0], None).value;
      var child := FilterAlias(counter);
      var nested := FilterSql(catalogue, path[0], child, counter + 1, path[1..], f, n).value;
      var where := AndAlso(JoinSql(fk, table, alias, child), Just(nested));
      forall i | 0 <= i < |db(path[0])|
        ensures EvalConj(d, db, env[child := db(path[0])[i]], params, where) == True
           <==> Linked(d, fk, table, env[alias], db(path[0])[i]) == True
                && AskPath(d, db, catalogue, path[0], db(path[0])[i], path[1..], Understood(f)) == True
      {
        var inner := env[child := db(path[0])[i]];
        FilterMeaning(d, db, catalogue, path[0], child, counter + 1, path[1..], f, n, inner, params);
        JoinedMeaning(d, db, env, params, fk, table, alias, child, db(path[0])[i], nested);
      }
    }
  }

  // ---- The whole WHERE clause ----

  function Path(f: Filter): (path: seq<string>)
    ensures path != []
  {
    Split(f.column, '.')
  }

  predicate ResolvableItem(catalogue: seq<ForeignKey>, table: string, item: Item) {
    match item
    case Single(f) => Resolvable(catalogue, table, Path(f))
    case AnyOf(fs) => forall i :: 0 <= i < |fs| ==> Resolvable(catalogue, table, Path(fs[i]))
  }

  predicate ResolvableAll(catalogue: seq<ForeignKey>, table: string, items: seq<Item>) {
    forall i :: 0 <= i < |items| ==> ResolvableItem(catalogue, table, items[i])
  }

  /** `u` is what `f` compiles to, with its values somewhere in `params`. */
  ghost predicate CompiledFilter(catalogue: seq<ForeignKey>, table: string, f: Filter, u: Unary, params: seq<Value>) {
    Plain(f) && exists n: nat :: Window(params, n, ScalarValues(f))
                              && FilterSql(catalogue, table, Base, 0, Path(f), f, n) == Some(u)
  }

  function DisjOf(us: seq<Unary>): Disj
    requires us != []
  {
    if |us| == 1 then OneOf(Just(us[0])) else OrElse(Just(us[0]), DisjOf(us[1..]))
  }

  function ConjOf(us: seq<Unary>): Conj
    requires us != []
  {
    if |us| == 1 then Just(us[0]) else AndAlso(us[0], ConjOf(us[1..]))
  }

  ghost predicate CompiledItem(catalogue: seq<ForeignKey>, table: string, item: Item, u: Unary, params: seq<Value>) {
    match item
    case Single(f) => CompiledFilter(catalogue, table, f, u, params)
    case AnyOf(fs) => exists us: seq<Unary> :: CompiledGroup(catalogue, table, fs, us, params) && u == Group(DisjOf(us))
  }

  ghost predicate CompiledGroup(catalogue: seq<ForeignKey>, table: string, fs: seq<Filter>, us: seq<Unary>,
                                params: seq<Value>)
  {
    us != [] && |us| == |fs| && forall i :: 0 <= i < |fs| ==> CompiledFilter(catalogue, table, fs[i], us[i], params)
  }

  ghost predicate CompiledAll(catalogue: seq<ForeignKey>, table: string, items: seq<Item>, us: seq<Unary>,
                              params: seq<Value>)
  {
    |us| == |items| && forall i :: 0 <= i < |items| ==> CompiledItem(catalogue, table, items[i], us[i], params)
  }

  predicate Faithful(item: Item) {
    match item
    case Single(f) => !Misread(f)
    case AnyOf(fs) => forall i :: 0 <= i < |fs| ==> !Misread(fs[i])
  }

  function UnderstoodEach(fs: seq<Filter>): seq<Filter> {
    if fs == [] then [] else [Understood(fs[0])] + UnderstoodEach(fs[1..])
  }

  function UnderstoodItem(item: Item): Item {
    match item case Single(f) => Single(Understood(f)) case AnyOf(fs) => AnyOf(UnderstoodEach(fs))
  }

  function UnderstoodAll(items: seq<Item>): seq<Item> {
    if items == [] then [] else [UnderstoodItem(items[0])] + UnderstoodAll(items[1..])
  }

  lemma {:induction false} FaithfulEach(fs: seq<Filter>)
    requires forall i :: 0 <= i < |fs| ==> !Misread(fs[i])
    ensures UnderstoodEach(fs) == fs
  {
    if fs != [] {
      FaithfulEach(fs[1..]);
    }
  }

  /** Without a negated `not.in` everything is understood as it is asked. */
  lemma {:induction false} FaithfulAll(items: seq<Item>)
    requires forall i :: 0 <= i < |items| ==> Faithful(items[i])
    ensures UnderstoodAll(items) == items
  {
    if items != [] {
      FaithfulAll(items[1..]);
      assert Faithful(items[0]);
      if items[0].AnyOf? {
        FaithfulEach(items[0].filters);
      }
    }
  }

  ghost function AskAny(d: Dialect, db: Database, catalogue: seq<ForeignKey>, table: string, row: Row,
                        fs: seq<Filter>): Truth
  {
    if fs == [] then False
    else Or3(AskPath(d, db, catalogue, table, row, Path(fs[0]), fs[0]), AskAny(d, db, catalogue, table, row, fs[1..]))
  }

  ghost function AskItem(d: Dialect, db: Database, catalogue: seq<ForeignKey>, table: string, row: Row,
                         item: Item): Truth
  {
    match item
    case Single(f) => AskPath(d, db, catalogue, table, row, Path(f), f)
    case AnyOf(fs) => AskAny(d, db, catalogue, table, row, fs)
  }

  /** All the filters of a builder, read directly on one row. */
  ghost function AskAll(d: Dialect, db: Database, catalogue: seq<ForeignKey>, table: string, row: Row,
                        items: seq<Item>): Truth
  {
    if items == [] then True
    else And3(AskItem(d, db, catalogue, table, row, items[0]), AskAll(d, db, catalogue, table, row, items[1..]))
  }

  lemma CompiledFilterMeaning(d: Dialect, db: Database, catalogue: seq<ForeignKey>, table: string, row: Row,
                              f: Filter, u: Unary, params: seq<Value>)
    requires CompiledFilter(catalogue, table, f, u, params)
    ensures Eval(d, db, map[Base := row], params, u)
         == AskPath(d, db, catalogue, table, row, Path(Understood(f)), Understood(f))
  {
    var n: nat :| Window(params, n, ScalarValues(f)) && FilterSql(catalogue, table, Base, 0, Path(f), f, n) == Some(u);
    FilterMeaning(d, db, catalogue, table, Base, 0, Path(f), f, n, map[Base := row], params);
  }

  lemma {:induction false} CompiledGroupMeaning(d: Dialect, db: Database, catalogue: seq<ForeignKey>, table: string,
      row: Row, fs: seq<Filter>, us: seq<Unary>, params: seq<Value>)
    requires CompiledGroup(catalogue, table, fs, us, params)
    ensures EvalDisj(d, db, map[Base := row], params, DisjOf(us))
         == AskAny(d, db, catalogue, table, row, UnderstoodEach(fs))
  {
    CompiledFilterMeaning(d, db, catalogue, table, row, fs[0], us[0], params);
    if |us| == 1 {
      assert fs[1..] == [];
    } else {
      CompiledGroupMeaning(d, db, catalogue, table, row, fs[1..], us[1..], params);
    }
  }

  lemma ItemMeaning(d: Dialect, db: Database, catalogue: seq<ForeignKey>, table: string, row: Row,
                    item: Item, u: Unary, params: seq<Value>)
    requires CompiledItem(catalogue, table, item, u, params)
    ensures Eval(d, db, map[Base := row], params, u) == AskItem(d, db, catalogue, table, row, UnderstoodItem(item))
  {
    match item {
      case Single(f) => CompiledFilterMeaning(d, db, catalogue, table, row, f, u, params);
      case AnyOf(fs) =>
        var bs: seq<Unary> :| CompiledGroup(catalogue, table, fs, bs, params) && u == Group(DisjOf(bs));
        CompiledGroupMeaning(d, db, catalogue, table, row, fs, bs, params);
    }
  }

  /** Compilation preserves meaning: on every row the compiled WHERE, with the
      parameters in whatever places the branches pushed them, has the
      three-valued answer of the filters as understood, which are the filters
      asked unless one is a negated `not.in`. */
  lemma {:induction false} WhereMeaning(d: Dialect, db: Database, catalogue: seq<ForeignKey>, table: string, row: Row,
                                        items: seq<Item>, us: seq<Unary>, params: seq<Value>)
    requires items != [] && CompiledAll(catalogue, table, items, us, params)
    ensures EvalConj(d, db, map[Base := row], params, ConjOf(us))
         == AskAll(d, db, catalogue, table, row, UnderstoodAll(items))
    ensures (forall i :: 0 <= i < |items| ==> Faithful(items[i])) ==> UnderstoodAll(items) == items
  {
    if forall i :: 0 <= i < |items| ==> Faithful(items[i]) {
      FaithfulAll(items);
    }
    assert CompiledItem(catalogue, table, items[0], us[0], params);
    ItemMeaning(d, db, catalogue, table, row, items[0], us[0], params);
    if |us| == 1 {
      assert items[1..] == [] && UnderstoodAll(items) == [UnderstoodItem(items[0])];
      assert UnderstoodAll(items)[1..] == [];
    } else {
      assert UnderstoodAll(items)[1..] == UnderstoodAll(items[1..]);
      forall i | 0 <= i < |items[1..]| ensures CompiledItem(catalogue, table, items[1..][i], us[1..][i], params) {
        assert CompiledItem(catalogue, table, items[i + 1], us[i + 1], params);
      }
      WhereMeaning(d, db, catalogue, table, row, items[1..], us[1..], params);
    }
  }

  // ---- Compiled clauses are readable SQL, and their placeholders are bound ----

  lemma ScalarShape(f: Filter, column: ColumnRef, n: nat, params: seq<Value>)
    requires Plain(f) && Window(params, n, ScalarValues(f))
    ensures Readable(ScalarSql(f, column, n)) && Bounded(ScalarSql(f, column, n), |params|)
  {
    if f.operator != "is" && !IsIn(f) {
      ParenthesisedShape(Core(f, column, n), |params|);
    }
  }

  lemma {:induction false} FilterShape(catalogue: seq<ForeignKey>, table: string, alias: Alias, counter: nat,
                                       path: seq<string>, f: Filter, n: nat, params: seq<Value>)
    requires path != [] && Plain(f) && Window(params, n, ScalarValues(f))
    requires FilterSql(catalogue, table, alias, counter, path, f, n).Some?
    ensures var u := FilterSql(catalogue, table, alias, counter, path, f, n).value;
      Readable(u) && Bounded(u, |params|)
    decreases |path|
  {
    if |path| == 1 {
      ScalarShape(f, ColumnRef(alias, path[0]), n, params);
    } else {
      FilterShape(catalogue, path[0], FilterAlias(counter), counter + 1, path[1..], f, n, params);
    }
  }

  lemma CompiledFilterShape(catalogue: seq<ForeignKey>, table: string, f: Filter, u: Unary, params: seq<Value>)
    requires CompiledFilter(catalogue, table, f, u, params)
    ensures Readable(u) && Bounded(u, |params|)
  {
    var n: nat :| Window(params, n, ScalarValues(f)) && FilterSql(catalogue, table, Base, 0, Path(f), f, n) == Some(u);
    FilterShape(catalogue, table, Base, 0, Path(f), f, n, params);
  }

  lemma {:induction false} DisjShape(us: seq<Unary>, n: nat)
    requires us != [] && forall i :: 0 <= i < |us| ==> Readable(us[i]) && Bounded(us[i], n)
    ensures ReadableDisj(DisjOf(us)) && BoundedDisj(DisjOf(us), n)
  {
    if |us| > 1 {
      DisjShape(us[1..], n);
    }
  }

  lemma {:induction false} ConjShape(us: seq<Unary>, n: nat)
    requires us != [] && forall i :: 0 <= i < |us| ==> Readable(us[i]) && Bounded(us[i], n)
    ensures ReadableConj(ConjOf(us)) && BoundedConj(ConjOf(us), n)
  {
    if |us| > 1 {
      ConjShape(us[1..], n);
    }
  }

  lemma CompiledItemShape(catalogue: seq<ForeignKey>, table: string, item: Item, u: Unary, params: seq<Value>)
    requires CompiledItem(catalogue, table, item, u, params)
    ensures Readable(u) && Bounded(u, |params|)
  {
    match item
    case Single(f) => CompiledFilterShape(catalogue, table, f, u, params);
    case AnyOf(fs) =>
      var us: seq<Unary> :| CompiledGroup(catalogue, table, fs, us, params) && u == Group(DisjOf(us));
      forall i | 0 <= i < |us| ensures Readable(us[i]) && Bounded(us[i], |params|) {
        CompiledFilterShape(catalogue, table, fs[i], us[i], params);
      }
      DisjShape(us, |params|);
  }

  lemma WhereShape(catalogue: seq<ForeignKey>, table: string, items: seq<Item>, us: seq<Unary>, params: seq<Value>)
    requires items != [] && CompiledAll(catalogue, table, items, us, params)
    ensures ReadableConj(ConjOf(us)) && BoundedConj(ConjOf(us), |params|)
  {
    forall i | 0 <= i < |us| ensures Readable(us[i]) && Bounded(us[i], |params|) {
      CompiledItemShape(catalogue, table, items[i], us[i], params);
    }
    ConjShape(us, |params|);
  }

  /** The text of the clause has one reading, the compiled one: parentheses are
      where SQL's precedence needs them. */
  lemma WhereReadsBack(catalogue: seq<ForeignKey>, table: string, items: seq<Item>, us: seq<Unary>, params: seq<Value>)
    requires items != [] && CompiledAll(catalogue, table, items, us, params)
    ensures ReadDisj(ConjTokens(ConjOf(us))) == Got(OneOf(ConjOf(us)), [])
  {
    WhereShape(catalogue, table, items, us, params);
    ReadDisjBack(OneOf(ConjOf(us)), []);
    assert ConjTokens(ConjOf(us)) + [] == ConjTokens(ConjOf(us));
  }

  /** An `or` group without branches is not SQL. */
  lemma EmptyGroupIsRejected(rest: seq<Token>)
    ensures ReadUnary([Open, Close] + rest) == Fail
  {
    assert ([Open, Close] + rest)[1..] == [Close] + rest;
    assert ReadUnary([Close] + rest) == Fail;
    assert ReadConj([Close] + rest) == Fail;
  }

  /** UPDATE: with the new values in front of the WHERE parameters, the
      renumbered clause selects the rows the filters ask for, and the i-th SET
      placeholder is bound to the i-th new value. */
  lemma UpdateMeaning(d: Dialect, db: Database, catalogue: seq<ForeignKey>, table: string, row: Row,
                      items: seq<Item>, us: seq<Unary>, given: seq<Value>, params: seq<Value>)
    requires items != [] && CompiledAll(catalogue, table, items, us, params)
    ensures EvalConj(d, db, map[Base := row], given + params, ShiftConj(ConjOf(us), |given|))
         == AskAll(d, db, catalogue, table, row, UnderstoodAll(items))
    ensures (forall i :: 0 <= i < |items| ==> Faithful(items[i])) ==> UnderstoodAll(items) == items
    ensures forall i :: 0 <= i < |given| ==> Bound(given + params, i + 1) == given[i]
  {
    WhereShape(catalogue, table, items, us, params);
    ShiftConjMeaning(d, db, map[Base := row], given, params, ConjOf(us));
    WhereMeaning(d, db, catalogue, table, row, items, us, params);
  }
}
