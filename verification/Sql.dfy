/** The fragment of SQL that the query client writes: conditions over aliased
    rows and numbered placeholders, their exact text, how that text is read back
    under SQL's precedence, and what it means in three-valued logic. */
module Sql {
  import opened Text

  // ---- Values, rows, tables ----

  datatype Value =
    | Null
    | Bool(b: bool)
    | Num(numeral: string)
    | Str(s: string)
    | Arr(items: seq<Value>)

  type Row = string -> Value
  type Database = string -> seq<Row>

  /** What each comparison operator answers on two values that are not null. */
  datatype Dialect = Dialect(holds: (string, Value, Value) -> bool)

  // ---- Three-valued logic ----

  datatype Truth = True | False | Unknown

  function Of(b: bool): Truth { if b then True else False }

  function Not3(t: Truth): Truth {
    match t case True => False case False => True case Unknown => Unknown
  }

  function And3(a: Truth, b: Truth): Truth {
    if a == False || b == False then False else if a == True && b == True then True else Unknown
  }

  function Or3(a: Truth, b: Truth): Truth {
    if a == True || b == True then True else if a == False && b == False then False else Unknown
  }

  function Compare(d: Dialect, operator: string, a: Value, b: Value): Truth {
    if a.Null? || b.Null? then Unknown else Of(d.holds(operator, a, b))
  }

  /** `a in (items)`: a chain of equalities joined by or. */
  function AmongAny(d: Dialect, a: Value, items: seq<Value>): Truth {
    if items == [] then False else Or3(Compare(d, "=", a, items[0]), AmongAny(d, a, items[1..]))
  }

  /** `String(v)`; an array joins its elements with commas. */
  function StringOf(v: Value): string
    decreases v, 0
  {
    match v
    case Null => "null"
    case Bool(b) => if b then "true" else "false"
    case Num(numeral) => numeral
    case Str(s) => s
    case Arr(items) => Join(StringsOf(items), ",")
  }

  function StringsOf(items: seq<Value>): seq<string>
    decreases items, 1
  {
    if items == [] then []
    else [if items[0].Null? then "" else StringOf(items[0])] + StringsOf(items[1..])
  }

  // ---- Conditions ----

  datatype Alias = Base | FilterAlias(n: nat) | RelationAlias(n: nat)

  datatype ColumnRef = ColumnRef(alias: Alias, name: string)

  datatype Literal = LNull | LTrue | LFalse

  datatype Disj = OneOf(only: Conj) | OrElse(first: Conj, rest: Disj)

  datatype Conj = Just(only: Unary) | AndAlso(first: Unary, rest: Conj)

  datatype Unary =
    | Negated(inner: Unary)
    | Group(body: Disj)
    | Constant(lit: Literal)
    | IsTest(column: ColumnRef, negate: bool, lit: Literal)
    | InList(column: ColumnRef, negate: bool, params: seq<nat>)
    | Test(column: ColumnRef, operator: string, param: nat)
    | Match(left: ColumnRef, operator: string, right: ColumnRef)
    | Exists(table: string, alias: Alias, where: Conj)

  function IsLiteral(v: Value, lit: Literal): bool {
    match lit
    case LNull => v.Null?
    case LTrue => v == Bool(true)
    case LFalse => v == Bool(false)
  }

  type Env = map<Alias, Row>

  function Cell(env: Env, c: ColumnRef): Value {
    if c.alias in env then env[c.alias](c.name) else Null
  }

  function Bound(params: seq<Value>, n: nat): Value {
    if 1 <= n <= |params| then params[n - 1] else Null
  }

  function BoundAll(params: seq<Value>, ns: seq<nat>): (vs: seq<Value>)
    ensures |vs| == |ns|
    ensures forall i :: 0 <= i < |ns| ==> vs[i] == Bound(params, ns[i])
  {
    if ns == [] then [] else [Bound(params, ns[0])] + BoundAll(params, ns[1..])
  }

  ghost function EvalDisj(d: Dialect, db: Database, env: Env, params: seq<Value>, c: Disj): Truth
    decreases c
  {
    match c
    case OneOf(a) => EvalConj(d, db, env, params, a)
    case OrElse(a, rest) => Or3(EvalConj(d, db, env, params, a), EvalDisj(d, db, env, params, rest))
  }

  ghost function EvalConj(d: Dialect, db: Database, env: Env, params: seq<Value>, c: Conj): Truth
    decreases c
  {
    match c
    case Just(u) => Eval(d, db, env, params, u)
    case AndAlso(u, rest) => And3(Eval(d, db, env, params, u), EvalConj(d, db, env, params, rest))
  }

  ghost function Eval(d: Dialect, db: Database, env: Env, params: seq<Value>, u: Unary): Truth
    decreases u
  {
    match u
    case Negated(inner) => Not3(Eval(d, db, env, params, inner))
    case Group(body) => EvalDisj(d, db, env, params, body)
    case Constant(lit) => (match lit case LNull => Unknown case LTrue => True case LFalse => False)
    case IsTest(c, negate, lit) => Of(IsLiteral(Cell(env, c), lit) != negate)
    case InList(c, negate, ns) =>
      var among := AmongAny(d, Cell(env, c), BoundAll(params, ns));
      if negate then Not3(among) else among
    case Test(c, operator, n) => Compare(d, operator, Cell(env, c), Bound(params, n))
    case Match(l, operator, r) => Compare(d, operator, Cell(env, l), Cell(env, r))
    case Exists(table, alias, where) =>
      Of(exists i :: 0 <= i < |db(table)| && EvalConj(d, db, env[alias := db(table)[i]], params, where) == True)
  }

  // ---- Tokens and their text ----

  datatype Token =
    | Open | Close | Comma
    | AndWord | OrWord | NotWord
    | IsWord | IsNotWord | InWord | NotInWord
    | Word(lit: Literal)
    | Column(c: ColumnRef)
    | Operator(operator: string)
    | Param(n: nat)
    | ExistsWord
    | Source(table: string, alias: Alias)
    | WhereWord

  function Quote(name: string): string { "\"" + name + "\"" }

  function AliasText(a: Alias): string {
    match a
    case Base => "b"
    case FilterAlias(n) => "f" + Dec(n)
    case RelationAlias(n) => "r" + Dec(n)
  }

  function LiteralText(lit: Literal): string {
    match lit case LNull => "null" case LTrue => "true" case LFalse => "false"
  }

  function TokenText(t: Token): string {
    match t
    case Open => "("
    case Close => ")"
    case Comma => ", "
    case AndWord => " and "
    case OrWord => " or "
    case NotWord => "not "
    case IsWord => " is "
    case IsNotWord => " is not "
    case InWord => " in "
    case NotInWord => " not in "
    case Word(lit) => LiteralText(lit)
    case Column(c) => AliasText(c.alias) + "." + Quote(c.name)
    case Operator(operator) => " " + operator + " "
    case Param(n) => "$" + Dec(n)
    case ExistsWord => "exists (select 1 from "
    case Source(table, alias) => Quote(table) + " " + AliasText(alias)
    case WhereWord => " where "
  }

  function TextOf(ts: seq<Token>): string {
    if ts == [] then "" else TokenText(ts[0]) + TextOf(ts[1..])
  }

  lemma {:induction false} TextOfAppend(a: seq<Token>, b: seq<Token>)
    ensures TextOf(a + b) == TextOf(a) + TextOf(b)
  {
    if a == [] {
      assert a + b == b;
    } else {
      assert (a + b)[1..] == a[1..] + b;
      TextOfAppend(a[1..], b);
    }
  }

  function ParamTokens(ns: seq<nat>): seq<Token> {
    if ns == [] then []
    else if |ns| == 1 then [Param(ns[0])]
    else [Param(ns[0]), Comma] + ParamTokens(ns[1..])
  }

  function DisjTokens(c: Disj): seq<Token>
    decreases c
  {
    match c
    case OneOf(a) => ConjTokens(a)
    case OrElse(a, rest) => ConjTokens(a) + [OrWord] + DisjTokens(rest)
  }

  function ConjTokens(c: Conj): seq<Token>
    decreases c
  {
    match c
    case Just(u) => Tokens(u)
    case AndAlso(u, rest) => Tokens(u) + [AndWord] + ConjTokens(rest)
  }

  function Tokens(u: Unary): seq<Token>
    decreases u
  {
    match u
    case Negated(inner) => [NotWord] + Tokens(inner)
    case Group(body) => [Open] + DisjTokens(body) + [Close]
    case Constant(lit) => [Word(lit)]
    case IsTest(c, negate, lit) => [Column(c), if negate then IsNotWord else IsWord, Word(lit)]
    case InList(c, negate, ns) =>
      [Column(c), if negate then NotInWord else InWord, Open] + ParamTokens(ns) + [Close]
    case Test(c, operator, n) => [Column(c), Operator(operator), Param(n)]
    case Match(l, operator, r) => [Column(l), Operator(operator), Column(r)]
    case Exists(table, alias, where) =>
      [ExistsWord, Source(table, alias), WhereWord] + ConjTokens(where) + [Close]
  }

  // ---- Reading tokens back under SQL's precedence: not, then and, then or ----

  datatype Read<+T> = Fail | Got(value: T, rest: seq<Token>)

  function ReadParams(ts: seq<Token>): (r: Read<seq<nat>>)
    ensures r.Got? ==> |r.rest| < |ts|
  {
    if ts == [] || !ts[0].Param? then Fail
    else if |ts| > 1 && ts[1] == Comma then
      var more := ReadParams(ts[2..]);
      if more.Fail? then Fail else Got([ts[0].n] + more.value, more.rest)
    else Got([ts[0].n], ts[1..])
  }

  function ReadDisj(ts: seq<Token>): (r: Read<Disj>)
    ensures r.Got? ==> |r.rest| < |ts|
    decreases |ts|, 2
  {
    var a := ReadConj(ts);
    if a.Fail? then Fail
    else if a.rest != [] && a.rest[0] == OrWord then
      var more := ReadDisj(a.rest[1..]);
      if more.Fail? then Fail else Got(OrElse(a.value, more.value), more.rest)
    else Got(OneOf(a.value), a.rest)
  }

  function ReadConj(ts: seq<Token>): (r: Read<Conj>)
    ensures r.Got? ==> |r.rest| < |ts|
    decreases |ts|, 1
  {
    var u := ReadUnary(ts);
    if u.Fail? then Fail
    else if u.rest != [] && u.rest[0] == AndWord then
      var more := ReadConj(u.rest[1..]);
      if more.Fail? then Fail else Got(AndAlso(u.value, more.value), more.rest)
    else Got(Just(u.value), u.rest)
  }

  function ReadUnary(ts: seq<Token>): (r: Read<Unary>)
    ensures r.Got? ==> |r.rest| < |ts|
    decreases |ts|, 0
  {
    if ts == [] then Fail
    else match ts[0]
      case NotWord =>
        var inner := ReadUnary(ts[1..]);
        if inner.Fail? then Fail else Got(Negated(inner.value), inner.rest)
      case Open =>
        var body := ReadDisj(ts[1..]);
        if body.Fail? || body.rest == [] || body.rest[0] != Close then Fail
        else Got(Group(body.value), body.rest[1..])
      case Word(lit) => Got(Constant(lit), ts[1..])
      case ExistsWord =>
        if |ts| < 3 || !ts[1].Source? || ts[2] != WhereWord then Fail
        else ClosedExists(ts[1].table, ts[1].alias, ReadConj(ts[3..]))
      case Column(c) => if |ts| < 3 then Fail else ReadTest(c, ts)
      case _ => Fail
  }

  function ClosedExists(table: string, alias: Alias, where: Read<Conj>): Read<Unary> {
    if where.Fail? || where.rest == [] || where.rest[0] != Close then Fail
    else Got(Exists(table, alias, where.value), where.rest[1..])
  }

  function ReadTest(c: ColumnRef, ts: seq<Token>): (r: Read<Unary>)
    requires |ts| >= 3
    ensures r.Got? ==> |r.rest| < |ts|
  {
    match ts[1]
    case IsWord => if ts[2].Word? then Got(IsTest(c, false, ts[2].lit), ts[3..]) else Fail
    case IsNotWord => if ts[2].Word? then Got(IsTest(c, true, ts[2].lit), ts[3..]) else Fail
    case Operator(operator) =>
      if ts[2].Param? then Got(Test(c, operator, ts[2].n), ts[3..])
      else if ts[2].Column? then Got(Match(c, operator, ts[2].c), ts[3..])
      else Fail
    case InWord => ReadIn(c, false, ts)
    case NotInWord => ReadIn(c, true, ts)
    case _ => Fail
  }

  function ReadIn(c: ColumnRef, negate: bool, ts: seq<Token>): (r: Read<Unary>)
    requires |ts| >= 3
    ensures r.Got? ==> |r.rest| < |ts|
  {
    if ts[2] != Open then Fail
    else
      var ns := ReadParams(ts[3..]);
      if ns.Fail? || ns.rest == [] || ns.rest[0] != Close then Fail
      else Got(InList(c, negate, ns.value), ns.rest[1..])
  }

  /** Lists of placeholders are never empty: `in ()` is not SQL. */
  predicate ReadableDisj(c: Disj)
    decreases c
  {
    match c
    case OneOf(a) => ReadableConj(a)
    case OrElse(a, rest) => ReadableConj(a) && ReadableDisj(rest)
  }

  predicate ReadableConj(c: Conj)
    decreases c
  {
    match c
    case Just(u) => Readable(u)
    case AndAlso(u, rest) => Readable(u) && ReadableConj(rest)
  }

  predicate Readable(u: Unary)
    decreases u
  {
    match u
    case Negated(inner) => Readable(inner)
    case Group(body) => ReadableDisj(body)
    case InList(_, _, ns) => ns != []
    case Exists(_, _, where) => ReadableConj(where)
    case _ => true
  }

  predicate Ends(rest: seq<Token>, word: Token) {
    rest == [] || rest[0] != word
  }

  lemma AfterTwo(a: Token, b: Token, ts: seq<Token>, rest: seq<Token>)
    ensures var all := [a, b] + ts + rest; all[0] == a && all[1] == b && all[2..] == ts + rest
  {
  }

  lemma {:induction false} ReadParamsBack(ns: seq<nat>, rest: seq<Token>)
    requires ns != [] && Ends(rest, Comma)
    ensures ReadParams(ParamTokens(ns) + rest) == Got(ns, rest)
  {
    if |ns| == 1 {
      assert (ParamTokens(ns) + rest)[1..] == rest && ns == [ns[0]];
    } else {
      AfterTwo(Param(ns[0]), Comma, ParamTokens(ns[1..]), rest);
      ReadParamsBack(ns[1..], rest);
      assert ns == [ns[0]] + ns[1..];
    }
  }

  lemma {:induction false} ReadDisjBack(c: Disj, rest: seq<Token>)
    requires ReadableDisj(c) && Ends(rest, OrWord) && Ends(rest, AndWord)
    ensures ReadDisj(DisjTokens(c) + rest) == Got(c, rest)
    decreases c
  {
    match c
    case OneOf(a) => ReadConjBack(a, rest);
    case OrElse(a, more) =>
      var after := [OrWord] + DisjTokens(more) + rest;
      assert DisjTokens(c) + rest == ConjTokens(a) + after;
      ReadConjBack(a, after);
      assert after[1..] == DisjTokens(more) + rest;
      ReadDisjBack(more, rest);
  }

  lemma {:induction false} ReadConjBack(c: Conj, rest: seq<Token>)
    requires ReadableConj(c) && Ends(rest, AndWord)
    ensures ReadConj(ConjTokens(c) + rest) == Got(c, rest)
    decreases c
  {
    match c
    case Just(u) => ReadBack(u, rest);
    case AndAlso(u, more) =>
      var after := [AndWord] + ConjTokens(more) + rest;
      assert ConjTokens(c) + rest == Tokens(u) + after;
      ReadBack(u, after);
      assert after[1..] == ConjTokens(more) + rest;
      ReadConjBack(more, rest);
  }

  /** A printed condition is read back as the same condition, whatever follows. */
  lemma {:induction false} ReadBack(u: Unary, rest: seq<Token>)
    requires Readable(u)
    ensures ReadUnary(Tokens(u) + rest) == Got(u, rest)
    decreases u
  {
    match u
    case Negated(inner) =>
      ReadBack(inner, rest);
      assert (Tokens(u) + rest)[1..] == Tokens(inner) + rest;
    case Group(body) =>
      ReadDisjBack(body, [Close] + rest);
      ReadGroupBack(body, rest);
    case Exists(table, alias, where) =>
      ReadConjBack(where, [Close] + rest);
      ReadExistsBack(table, alias, where, rest);
    case Constant(_) => assert (Tokens(u) + rest)[1..] == rest;
    case _ => ReadTestBack(u, rest);
  }

  lemma ReadGroupBack(body: Disj, rest: seq<Token>)
    requires ReadDisj(DisjTokens(body) + ([Close] + rest)) == Got(body, [Close] + rest)
    ensures ReadUnary(Tokens(Group(body)) + rest) == Got(Group(body), rest)
  {
    assert (Tokens(Group(body)) + rest)[1..] == DisjTokens(body) + ([Close] + rest);
    assert ([Close] + rest)[1..] == rest;
  }

  lemma AfterThree(a: Token, b: Token, c: Token, ts: seq<Token>, rest: seq<Token>)
    ensures var all := [a, b, c] + ts + [Close] + rest;
      all[0] == a && all[1] == b && all[2] == c && all[3..] == ts + ([Close] + rest)
  {
  }

  lemma ReadExistsBack(table: string, alias: Alias, where: Conj, rest: seq<Token>)
    requires ReadConj(ConjTokens(where) + ([Close] + rest)) == Got(where, [Close] + rest)
    ensures ReadUnary(Tokens(Exists(table, alias, where)) + rest) == Got(Exists(table, alias, where), rest)
  {
    AfterThree(ExistsWord, Source(table, alias), WhereWord, ConjTokens(where), rest);
    assert ([Close] + rest)[1..] == rest;
  }

  lemma ReadTestBack(u: Unary, rest: seq<Token>)
    requires u.IsTest? || u.Test? || u.Match? || (u.InList? && u.params != [])
    ensures ReadUnary(Tokens(u) + rest) == Got(u, rest)
  {
    var ts := Tokens(u) + rest;
    if u.InList? {
      assert ts[3..] == ParamTokens(u.params) + ([Close] + rest);
      ReadParamsBack(u.params, [Close] + rest);
      assert ([Close] + rest)[1..] == rest;
    } else {
      assert ts[3..] == rest;
    }
  }

  // ---- Renumbering placeholders ----

  function ShiftParams(ns: seq<nat>, k: nat): (out: seq<nat>)
    ensures |out| == |ns|
    ensures forall i :: 0 <= i < |ns| ==> out[i] == ns[i] + k
  {
    if ns == [] then [] else [ns[0] + k] + ShiftParams(ns[1..], k)
  }

  function ShiftDisj(c: Disj, k: nat): Disj
    decreases c
  {
    match c
    case OneOf(a) => OneOf(ShiftConj(a, k))
    case OrElse(a, rest) => OrElse(ShiftConj(a, k), ShiftDisj(rest, k))
  }

  function ShiftConj(c: Conj, k: nat): Conj
    decreases c
  {
    match c
    case Just(u) => Just(Shift(u, k))
    case AndAlso(u, rest) => AndAlso(Shift(u, k), ShiftConj(rest, k))
  }

  function Shift(u: Unary, k: nat): Unary
    decreases u
  {
    match u
    case Negated(inner) => Negated(Shift(inner, k))
    case Group(body) => Group(ShiftDisj(body, k))
    case InList(c, negate, ns) => InList(c, negate, ShiftParams(ns, k))
    case Test(c, operator, n) => Test(c, operator, n + k)
    case Exists(table, alias, where) => Exists(table, alias, ShiftConj(where, k))
    case _ => u
  }

  function ShiftToken(t: Token, k: nat): Token {
    match t
    case Param(n) => Param(n + k)
    case _ => t
  }

  function ShiftTokens(ts: seq<Token>, k: nat): (out: seq<Token>)
    ensures |out| == |ts|
    ensures forall i :: 0 <= i < |ts| ==> out[i] == ShiftToken(ts[i], k)
  {
    if ts == [] then [] else [ShiftToken(ts[0], k)] + ShiftTokens(ts[1..], k)
  }

  lemma {:induction false} ShiftParamTokens(ns: seq<nat>, k: nat)
    ensures ParamTokens(ShiftParams(ns, k)) == ShiftTokens(ParamTokens(ns), k)
  {
    if |ns| > 1 {
      ShiftParamTokens(ns[1..], k);
      assert ShiftParams(ns, k)[1..] == ShiftParams(ns[1..], k);
    }
  }

  /** Shifting touches nothing but placeholders. */
  lemma ShiftAround(pre: seq<Token>, mid: seq<Token>, post: seq<Token>, k: nat)
    requires forall i :: 0 <= i < |pre| ==> !pre[i].Param?
    requires forall i :: 0 <= i < |post| ==> !post[i].Param?
    ensures ShiftTokens(pre + mid + post, k) == pre + ShiftTokens(mid, k) + post
  {
  }

  lemma ShiftJoined(a: seq<Token>, word: Token, b: seq<Token>, k: nat)
    requires !word.Param?
    ensures ShiftTokens(a + [word] + b, k) == ShiftTokens(a, k) + [word] + ShiftTokens(b, k)
  {
  }

  lemma {:induction false} ShiftDisjTokens(c: Disj, k: nat)
    ensures DisjTokens(ShiftDisj(c, k)) == ShiftTokens(DisjTokens(c), k)
    decreases c
  {
    match c
    case OneOf(a) => ShiftConjTokens(a, k);
    case OrElse(a, rest) =>
      ShiftConjTokens(a, k);
      ShiftDisjTokens(rest, k);
      ShiftJoined(ConjTokens(a), OrWord, DisjTokens(rest), k);
  }

  lemma {:induction false} ShiftConjTokens(c: Conj, k: nat)
    ensures ConjTokens(ShiftConj(c, k)) == ShiftTokens(ConjTokens(c), k)
    decreases c
  {
    match c
    case Just(u) => ShiftUnaryTokens(u, k);
    case AndAlso(u, rest) =>
      ShiftUnaryTokens(u, k);
      ShiftConjTokens(rest, k);
      ShiftJoined(Tokens(u), AndWord, ConjTokens(rest), k);
  }

  lemma {:induction false} ShiftUnaryTokens(u: Unary, k: nat)
    ensures Tokens(Shift(u, k)) == ShiftTokens(Tokens(u), k)
    decreases u
  {
    match u
    case Negated(inner) =>
      ShiftUnaryTokens(inner, k);
      ShiftAround([NotWord], Tokens(inner), [], k);
    case Group(body) =>
      ShiftDisjTokens(body, k);
      ShiftAround([Open], DisjTokens(body), [Close], k);
    case InList(c, negate, ns) =>
      ShiftParamTokens(ns, k);
      ShiftAround([Column(c), if negate then NotInWord else InWord, Open], ParamTokens(ns), [Close], k);
    case Exists(table, alias, where) =>
      ShiftConjTokens(where, k);
      ShiftAround([ExistsWord, Source(table, alias), WhereWord], ConjTokens(where), [Close], k);
    case _ =>
  }

  /** Shifting every placeholder by the number of values put in front of the
      parameters changes no answer. */
  lemma {:induction false} ShiftDisjMeaning(d: Dialect, db: Database, env: Env, pre: seq<Value>, params: seq<Value>,
      c: Disj)
    requires BoundedDisj(c, |params|)
    ensures EvalDisj(d, db, env, pre + params, ShiftDisj(c, |pre|)) == EvalDisj(d, db, env, params, c)
    decreases c
  {
    match c
    case OneOf(a) => ShiftConjMeaning(d, db, env, pre, params, a);
    case OrElse(a, rest) =>
      ShiftConjMeaning(d, db, env, pre, params, a);
      ShiftDisjMeaning(d, db, env, pre, params, rest);
  }

  lemma {:induction false} ShiftConjMeaning(d: Dialect, db: Database, env: Env, pre: seq<Value>, params: seq<Value>,
      c: Conj)
    requires BoundedConj(c, |params|)
    ensures EvalConj(d, db, env, pre + params, ShiftConj(c, |pre|)) == EvalConj(d, db, env, params, c)
    decreases c
  {
    match c
    case Just(u) => ShiftMeaning(d, db, env, pre, params, u);
    case AndAlso(u, rest) =>
      ShiftMeaning(d, db, env, pre, params, u);
      ShiftConjMeaning(d, db, env, pre, params, rest);
  }

  lemma {:induction false} ListShift(pre: seq<Value>, params: seq<Value>, ns: seq<nat>)
    requires forall i :: 0 <= i < |ns| ==> 1 <= ns[i] <= |params|
    ensures BoundAll(pre + params, ShiftParams(ns, |pre|)) == BoundAll(params, ns)
  {
    if ns != [] {
      OneShift(pre, params, ns[0]);
      ListShift(pre, params, ns[1..]);
      assert ShiftParams(ns, |pre|)[1..] == ShiftParams(ns[1..], |pre|);
    }
  }

  lemma OneShift(pre: seq<Value>, params: seq<Value>, n: nat)
    requires 1 <= n <= |params|
    ensures Bound(pre + params, n + |pre|) == Bound(params, n)
  {
  }

  /** Two conditions that answer alike on every row of a table exist alike. */
  lemma ExistsAlike(d: Dialect, db: Database, env: Env, table: string, alias: Alias, vs: seq<Value>, where: Conj,
                    others: seq<Value>, other: Conj)
    requires forall i :: 0 <= i < |db(table)| ==>
      EvalConj(d, db, env[alias := db(table)[i]], vs, where)
        == EvalConj(d, db, env[alias := db(table)[i]], others, other)
    ensures Eval(d, db, env, vs, Exists(table, alias, where)) == Eval(d, db, env, others, Exists(table, alias, other))
  {
  }

  lemma {:induction false} ShiftMeaning(d: Dialect, db: Database, env: Env, pre: seq<Value>, params: seq<Value>,
                                        u: Unary)
    requires Bounded(u, |params|)
    ensures Eval(d, db, env, pre + params, Shift(u, |pre|)) == Eval(d, db, env, params, u)
    decreases u
  {
    match u
    case Negated(inner) => ShiftMeaning(d, db, env, pre, params, inner);
    case Group(body) => ShiftDisjMeaning(d, db, env, pre, params, body);
    case InList(_, _, ns) => ListShift(pre, params, ns);
    case Exists(table, alias, where) =>
      forall i | 0 <= i < |db(table)|
        ensures EvalConj(d, db, env[alias := db(table)[i]], pre + params, ShiftConj(where, |pre|))
             == EvalConj(d, db, env[alias := db(table)[i]], params, where)
      {
        ShiftConjMeaning(d, db, env[alias := db(table)[i]], pre, params, where);
      }
      ExistsAlike(d, db, env, table, alias, pre + params, ShiftConj(where, |pre|), params, where);
    case _ =>
  }

  /** Every placeholder is one of `$1` to `$n`. */
  predicate BoundedDisj(c: Disj, n: nat)
    decreases c
  {
    match c
    case OneOf(a) => BoundedConj(a, n)
    case OrElse(a, rest) => BoundedConj(a, n) && BoundedDisj(rest, n)
  }

  predicate BoundedConj(c: Conj, n: nat)
    decreases c
  {
    match c
    case Just(u) => Bounded(u, n)
    case AndAlso(u, rest) => Bounded(u, n) && BoundedConj(rest, n)
  }

  predicate Bounded(u: Unary, n: nat)
    decreases u
  {
    match u
    case Negated(inner) => Bounded(inner, n)
    case Group(body) => BoundedDisj(body, n)
    case InList(_, _, ns) => forall i :: 0 <= i < |ns| ==> 1 <= ns[i] <= n
    case Test(_, _, p) => 1 <= p <= n
    case Exists(_, _, where) => BoundedConj(where, n)
    case _ => true
  }
}
