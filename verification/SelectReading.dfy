/** What select lists and `or` expressions are read as, text against tree. */
module SelectReading {
  import opened Text
  import Sql
  import QueryFilters
  import opened SelectParser
  import OrExpression

  // ---- Where a list is cut ----

  /** A piece whose parentheses are balanced, with no comma outside them. */
  predicate Whole(piece: string) { Uncut(piece, 0) && Walk(piece, 0) == 0 }

  lemma {:induction false} PlainIsWhole(s: string, depth: int)
    requires forall i :: 0 <= i < |s| ==> s[i] != '(' && s[i] != ')'
    requires depth != 0 || ',' !in s
    ensures Uncut(s, depth) && Walk(s, depth) == depth
  {
    if s != "" {
      PlainIsWhole(s[1..], depth);
    }
  }

  /** Commas between parentheses belong to the piece. */
  lemma NestedIsWhole(before: string, body: string, after: string)
    requires forall s, i :: s in {before, body, after} && 0 <= i < |s| ==> s[i] != '(' && s[i] != ')'
    requires ',' !in before && ',' !in after
    ensures Whole(before + "(" + body + ")" + after)
  {
    PlainIsWhole(before, 0);
    PlainIsWhole(body, 1);
    PlainIsWhole(after, 0);
    WalkAppend(before + "(" + body + ")", after, 0);
    WalkAppend(before + "(" + body, ")", 0);
    WalkAppend(before + "(", body, 0);
    WalkAppend(before, "(", 0);
  }

  lemma {:induction false} SlicesOfPieces(pieces: seq<string>)
    requires pieces != [] && forall i :: 0 <= i < |pieces| ==> Whole(pieces[i])
    ensures Slices(Join(pieces, ","), 0) == pieces
  {
    if |pieces| == 1 {
      SlicesOfUncut(pieces[0], 0, "");
    } else {
      SlicesOfUncut(pieces[0], 0, Join(pieces[1..], ","));
      SlicesOfPieces(pieces[1..]);
    }
  }

  /** The pieces that are more than blanks, without the blanks around them. */
  function Entries(pieces: seq<string>): seq<string> {
    if pieces == [] then []
    else if Trim(pieces[0]) == "" then Entries(pieces[1..])
    else [Trim(pieces[0])] + Entries(pieces[1..])
  }

  lemma {:induction false} EntriesAre(pieces: seq<string>)
    ensures NonEmpty(TrimAll(pieces)) == Entries(pieces)
  {
    if pieces != [] {
      EntriesAre(pieces[1..]);
      assert TrimAll(pieces)[1..] == TrimAll(pieces[1..]);
    }
  }

  /** A list is cut at the commas outside parentheses; blanks around an entry and
      entries of blanks do not count. */
  lemma CutExactly(pieces: seq<string>)
    requires pieces != [] && forall i :: 0 <= i < |pieces| ==> Whole(pieces[i])
    ensures TopLevel(Join(pieces, ",")) == Entries(pieces)
  {
    SlicesOfPieces(pieces);
    EntriesAre(pieces);
  }

  // ---- What an entry is read as ----

  lemma ColumnReads(column: string, name: string)
    requires Name(column) && Name(name)
    ensures column != "" && ParseToken(column) == Column(column, None)
    ensures name + ":" + column != "" && ParseToken(name + ":" + column) == Column(column, Some(name))
  {
    TokenInvertsPrint(Column(column, None));
    TokenInvertsPrint(Column(column, Some(name)));
  }

  predicate Sound(columns: seq<Item>) {
    forall i :: 0 <= i < |columns| ==> Named(columns[i]) && Readable(columns[i])
  }

  predicate Reads(text: string, item: Item) { text != "" && ParseToken(text) == item }

  /** `alias:table!hint!inner(columns)`: the alias, the hint and the join mark can
      be left out. */
  lemma RelationReads(alias: string, table: string, hint: Option<string>, inner: bool, columns: seq<Item>,
                      head: string, mark: string, join: string)
    requires Name(alias) && Name(table) && Sound(columns)
    requires (hint.Some? ==> Name(hint.value)) && Readable(Relation(alias, table, hint, inner, columns))
    requires head == if alias == table then table else alias + ":" + table
    requires mark == if hint.Some? then "!" + hint.value else ""
    requires join == if inner then "!inner" else ""
    ensures Reads(head + mark + join + "(" + PrintSelect(columns) + ")", Relation(alias, table, hint, inner, columns))
  {
    var item := Relation(alias, table, hint, inner, columns);
    TokenInvertsPrint(item);
    assert Prefix(item) == head + mark + join;
  }

  /** A hint can be read back unless it is the head or a join mark. */
  lemma ReadableExactly(alias: string, table: string, hint: Option<string>, inner: bool, columns: seq<Item>)
    requires Sound(columns)
    ensures var head := if alias == table then table else alias + ":" + table;
      Readable(Relation(alias, table, hint, inner, columns)) <==>
        (hint.Some? ==> hint.value != head && hint.value != "inner" && hint.value != "left")
        && (head == "inner" ==> inner)
  {
  }

  // ---- `or` expressions ----

  /** The operators an `or` expression knows, with what they are in SQL. */
  const OPERATORS: seq<(string, string)> := [
    ("eq", "="), ("neq", "<>"), ("gt", ">"), ("gte", ">="), ("lt", "<"), ("lte", "<="),
    ("is", "is"), ("in", "in"), ("like", "like"), ("ilike", "ilike")]

  lemma OperatorExactly(i: nat)
    requires i < |OPERATORS|
    ensures OrExpression.SqlOperator(OPERATORS[i].0) == Some(OPERATORS[i].1)
  {
  }

  /** A branch `column.name.text` is read as the comparison it names; `is` takes
      null, true, and anything else as false. */
  lemma BranchReads(i: nat, column: string, text: string)
    requires i < |OPERATORS| && column != "" && '.' !in column
    requires forall j :: 0 <= j < |text| ==> text[j] !in {'\n', '\r', '\U{2028}', '\U{2029}'}
    ensures OrExpression.ParsePart(column + "." + OPERATORS[i].0 + "." + text)
         == Some(QueryFilters.Filter(column, OPERATORS[i].1,
                        if OPERATORS[i].0 != "is" then Sql.Str(text)
                        else if text == "null" then Sql.Null
                        else Sql.Bool(text == "true"), false))
  {
    OperatorExactly(i);
    var name, rest := OPERATORS[i].0, OPERATORS[i].0 + "." + text;
    OrExpression.OperatorHasNoDot(name);
    assert column + "." + name + "." + text == column + "." + rest;
    OrExpression.IndexOfAt(column, '.', rest);
    OrExpression.IndexOfAt(name, '.', text);
    assert (column + "." + rest)[..|column|] == column && (column + "." + rest)[|column| + 1..] == rest;
    assert rest[..|name|] == name && rest[|name| + 1..] == text;
  }

  /** Any other operator is refused, and the whole expression with it. */
  lemma UnknownIsRefused(column: string, name: string, text: string)
    requires '.' !in column && '.' !in name && column != ""
    requires name !in {"eq", "neq", "gt", "gte", "lt", "lte", "is", "in", "like", "ilike"}
    ensures OrExpression.ParsePart(column + "." + name + "." + text) == None
  {
    var rest := name + "." + text;
    assert column + "." + name + "." + text == column + "." + rest;
    OrExpression.IndexOfAt(column, '.', rest);
    OrExpression.IndexOfAt(name, '.', text);
    assert (column + "." + rest)[|column| + 1..] == rest && rest[..|name|] == name;
  }
}
