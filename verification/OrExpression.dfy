/** The text form of an `or` group, `column.op.value` parts between top-level
    commas, and the lists of ids that are spliced into it. */
module OrExpression {
  import opened Text
  import opened Sql
  import opened QueryFilters
  import opened SelectParser

  function SqlOperator(name: string): Option<string> {
    if name == "eq" then Some("=")
    else if name == "neq" then Some("<>")
    else if name == "gt" then Some(">")
    else if name == "gte" then Some(">=")
    else if name == "lt" then Some("<")
    else if name == "lte" then Some("<=")
    else if name == "is" then Some("is")
    else if name == "in" then Some("in")
    else if name == "like" then Some("like")
    else if name == "ilike" then Some("ilike")
    else None
  }

  predicate OneLine(s: string) {
    Free(s, '\n') && Free(s, '\r') && Free(s, '\U{2028}') && Free(s, '\U{2029}')
  }

  function ParsePart(part: string): Option<Filter> {
    var dot := IndexOf(part, '.');
    if dot <= 0 then None
    else
      var rest := part[dot + 1..];
      var second := IndexOf(rest, '.');
      if second == -1 then None
      else
        var operator := SqlOperator(rest[..second]);
        var text := rest[second + 1..];
        if operator.None? || !OneLine(text) then None
        else
          var value := if rest[..second] != "is" then Str(text)
                       else if text == "null" then Null
                       else Bool(text == "true");
          Some(Filter(part[..dot], operator.value, value, false))
  }

  function ParseParts(parts: seq<string>): Option<seq<Filter>> {
    if parts == [] then Some([])
    else
      var first, rest := ParsePart(parts[0]), ParseParts(parts[1..]);
      if first.None? || rest.None? then None else Some([first.value] + rest.value)
  }

  /** The group an `or` expression stands for; none when a part is unsupported. */
  function ParseOr(expression: string): Option<seq<Filter>> {
    ParseParts(TopLevel(expression))
  }

  /** A branch as a caller writes it. */
  datatype Branch = Branch(column: string, name: string, text: string)

  function Write(b: Branch): string { b.column + "." + b.name + "." + b.text }

  predicate Writable(b: Branch) {
    && b.column != "" && Free(b.column, '.')
    && SqlOperator(b.name).Some?
    && OneLine(b.text)
    && Entry(Write(b))
  }

  function Meant(b: Branch): Filter {
    Filter(b.column, if SqlOperator(b.name).Some? then SqlOperator(b.name).value else b.name,
           if b.name != "is" then Str(b.text) else if b.text == "null" then Null else Bool(b.text == "true"), false)
  }

  lemma {:induction false} IndexOfAt(a: string, c: char, b: string)
    requires Free(a, c)
    ensures IndexOf(a + [c] + b, c) == |a|
  {
    if a != "" {
      assert (a + [c] + b)[1..] == a[1..] + [c] + b;
      IndexOfAt(a[1..], c, b);
    }
  }

  lemma OperatorHasNoDot(name: string)
    requires SqlOperator(name).Some?
    ensures Free(name, '.')
  {
  }

  lemma ParseWritten(b: Branch)
    requires Writable(b)
    ensures ParsePart(Write(b)) == Some(Meant(b))
  {
    var part, rest := Write(b), b.name + "." + b.text;
    OperatorHasNoDot(b.name);
    assert part == b.column + "." + rest;
    IndexOfAt(b.column, '.', rest);
    IndexOfAt(b.name, '.', b.text);
    assert part[..|b.column|] == b.column && part[|b.column| + 1..] == rest;
    assert rest[..|b.name|] == b.name && rest[|b.name| + 1..] == b.text;
  }

  function WriteAll(bs: seq<Branch>): (parts: seq<string>)
    ensures |parts| == |bs| && forall i :: 0 <= i < |bs| ==> parts[i] == Write(bs[i])
  {
    if bs == [] then [] else [Write(bs[0])] + WriteAll(bs[1..])
  }

  function MeantAll(bs: seq<Branch>): seq<Filter> {
    if bs == [] then [] else [Meant(bs[0])] + MeantAll(bs[1..])
  }

  lemma {:induction false} ParsePartsWritten(bs: seq<Branch>)
    requires forall i :: 0 <= i < |bs| ==> Writable(bs[i])
    ensures ParseParts(WriteAll(bs)) == Some(MeantAll(bs))
  {
    if bs != [] {
      ParseWritten(bs[0]);
      ParsePartsWritten(bs[1..]);
      assert WriteAll(bs)[1..] == WriteAll(bs[1..]);
    }
  }

  /** A written group is read back branch by branch. */
  lemma ParseOrInvertsWrite(bs: seq<Branch>)
    requires forall i :: 0 <= i < |bs| ==> Writable(bs[i])
    ensures ParseOr(Join(WriteAll(bs), ",")) == Some(MeantAll(bs))
  {
    TopLevelOfJoin(WriteAll(bs));
    ParsePartsWritten(bs);
  }

  // ---- Lists of ids ----

  /** Text that splicing cannot break: the ids let through are of this kind. */
  predicate PlainId(id: string) {
    id != "" && forall i :: 0 <= i < |id| ==> NameChar(id[i]) && id[i] != '.'
  }

  function AsValues(ids: seq<string>): (vs: seq<Value>)
    ensures |vs| == |ids| && forall i :: 0 <= i < |ids| ==> vs[i] == Str(ids[i])
  {
    if ids == [] then [] else [Str(ids[0])] + AsValues(ids[1..])
  }

  lemma {:induction false} StringsOfIds(ids: seq<string>)
    requires forall i :: 0 <= i < |ids| ==> ids[i] != ""
    ensures Strings(ids) == AsValues(ids)
  {
    if ids != [] {
      StringsOfIds(ids[1..]);
    }
  }

  function Listed(ids: seq<string>): string { "(" + Join(ids, ",") + ")" }

  lemma StripListed(list: string)
    ensures StripParens("(" + list + ")") == list
  {
    assert ("(" + list + ")")[1..] == list + ")" && (list + ")")[..|list|] == list;
  }

  /** `(a,b,c)` names exactly the members a, b and c. */
  lemma ListMembers(ids: seq<string>)
    requires ids != [] && forall i :: 0 <= i < |ids| ==> PlainId(ids[i])
    ensures InMembers(Str(Listed(ids))) == AsValues(ids)
  {
    StripListed(Join(ids, ","));
    forall i | 0 <= i < |ids| ensures Free(ids[i], ',') && ids[i] != "" {
      assert PlainId(ids[i]);
    }
    SplitJoin(ids, ',');
    StringsOfIds(ids);
  }

  lemma {:induction false} IdsShape(ids: seq<string>, depth: nat)
    requires depth > 0 && forall i :: 0 <= i < |ids| ==> PlainId(ids[i])
    ensures Walk(Join(ids, ","), depth) == depth && Uncut(Join(ids, ","), depth)
    ensures OneLine(Join(ids, ","))
  {
    if ids != [] {
      PlainText(ids[0], depth);
      if |ids| > 1 {
        IdsShape(ids[1..], depth);
        WalkAppend(ids[0] + ",", Join(ids[1..], ","), depth);
        WalkAppend(ids[0], ",", depth);
      }
    }
  }

  lemma BracketedEntry(prefix: string, list: string)
    requires prefix != "" && !IsSpace(prefix[0])
    requires forall i :: 0 <= i < |prefix| ==> prefix[i] != ',' && prefix[i] != '(' && prefix[i] != ')'
    requires Walk(list, 1) == 1 && Uncut(list, 1)
    ensures Entry(prefix + "(" + list + ")")
  {
    var t := prefix + "(" + list + ")";
    PlainText(prefix, 0);
    WalkAppend(prefix, "(", 0);
    WalkAppend(prefix + "(", list, 0);
    WalkAppend(prefix + "(" + list, ")", 0);
    assert t[0] == prefix[0] && t[|t| - 1] == ')';
  }

  /** `column.in.(a,b,c)` is one branch of a group. */
  lemma InBranchWritable(column: string, ids: seq<string>)
    requires PlainId(column) && ids != [] && forall i :: 0 <= i < |ids| ==> PlainId(ids[i])
    ensures Writable(Branch(column, "in", Listed(ids)))
  {
    var list, prefix := Join(ids, ","), column + ".in.";
    IdsShape(ids, 1);
    BracketedEntry(prefix, list);
    assert Write(Branch(column, "in", Listed(ids))) == prefix + "(" + list + ")";
    assert forall i :: 0 <= i < |list| ==> Listed(ids)[i + 1] == list[i];
  }

  lemma TopLevelTwo(p: string, q: string)
    requires Entry(p) && Entry(q)
    ensures TopLevel(p + "," + q) == [p, q]
  {
    TopLevelOfJoin([p, q]);
  }

  lemma ParsePartsTwo(p: string, q: string, f: Filter, g: Filter)
    requires ParsePart(p) == Some(f) && ParsePart(q) == Some(g)
    ensures ParseParts([p, q]) == Some([f, g])
  {
    assert [p, q][1..] == [q] && [q][1..] == [];
    assert ParseParts([]) == Some([]);
    var one: seq<Filter> := [g] + [];
    assert one == [g];
    assert ParseParts([q]) == Some(one);
    assert [f] + [g] == [f, g];
  }

  /** How a column compares with text: as the canonical forms of the two do, for
      instance without regard to case for ids. */
  ghost predicate ComparesBy(d: Dialect, canon: string -> string) {
    forall a, b :: d.holds("=", Str(a), Str(b)) == (canon(a) == canon(b))
  }

  predicate Names(canon: string -> string, ids: seq<string>, x: string) {
    exists i :: 0 <= i < |ids| && canon(ids[i]) == canon(x)
  }

  lemma {:induction false} AmongIds(d: Dialect, canon: string -> string, x: string, ids: seq<string>)
    requires ComparesBy(d, canon)
    ensures AmongAny(d, Str(x), AsValues(ids)) == Of(Names(canon, ids, x))
  {
    if ids != [] {
      AmongIds(d, canon, x, ids[1..]);
      assert Names(canon, ids, x) == (canon(ids[0]) == canon(x) || Names(canon, ids[1..], x)) by {
        if i :| 0 <= i < |ids| && canon(ids[i]) == canon(x) {
          assert i > 0 ==> ids[1..][i - 1] == ids[i];
        }
      }
    }
  }

  function EitherIn(first: string, second: string, ids: seq<string>): string {
    Write(Branch(first, "in", Listed(ids))) + "," + Write(Branch(second, "in", Listed(ids)))
  }

  lemma AskColumnIn(d: Dialect, canon: string -> string, db: Database, catalogue: seq<ForeignKey>, table: string,
                    row: Row, column: string, ids: seq<string>, x: string)
    requires PlainId(column) && ids != [] && forall i :: 0 <= i < |ids| ==> PlainId(ids[i])
    requires ComparesBy(d, canon) && row(column) == Str(x)
    ensures var f := Filter(column, "in", Str(Listed(ids)), false);
      AskPath(d, db, catalogue, table, row, Path(f), f) == Of(Names(canon, ids, x))
  {
    SplitFree(column, '.');
    ListMembers(ids);
    AmongIds(d, canon, x, ids);
  }

  /** Two columns tested against one list of ids, as the batched link lookup
      sends them: the group asks whether either column names one of the ids. */
  lemma EitherColumnIn(d: Dialect, canon: string -> string, db: Database, catalogue: seq<ForeignKey>, table: string,
                       row: Row, first: string, second: string, ids: seq<string>, x: string, y: string)
    requires PlainId(first) && PlainId(second) && ids != [] && forall i :: 0 <= i < |ids| ==> PlainId(ids[i])
    requires ComparesBy(d, canon) && row(first) == Str(x) && row(second) == Str(y)
    ensures var fs := ParseOr(EitherIn(first, second, ids));
      fs.Some? && AskAny(d, db, catalogue, table, row, fs.value) == Of(Names(canon, ids, x) || Names(canon, ids, y))
  {
    ReadEither(first, second, ids);
    AskColumnIn(d, canon, db, catalogue, table, row, first, ids, x);
    AskColumnIn(d, canon, db, catalogue, table, row, second, ids, y);
    AskTwo(d, db, catalogue, table, row, InFilter(first, ids), InFilter(second, ids));
  }

  function InFilter(column: string, ids: seq<string>): Filter { Filter(column, "in", Str(Listed(ids)), false) }

  lemma ReadIn(column: string, ids: seq<string>)
    requires PlainId(column) && ids != [] && forall i :: 0 <= i < |ids| ==> PlainId(ids[i])
    ensures var part := Write(Branch(column, "in", Listed(ids)));
      Entry(part) && ParsePart(part) == Some(InFilter(column, ids))
  {
    InBranchWritable(column, ids);
    ParseWritten(Branch(column, "in", Listed(ids)));
  }

  lemma ReadEither(first: string, second: string, ids: seq<string>)
    requires PlainId(first) && PlainId(second) && ids != [] && forall i :: 0 <= i < |ids| ==> PlainId(ids[i])
    ensures ParseOr(EitherIn(first, second, ids)) == Some([InFilter(first, ids), InFilter(second, ids)])
  {
    var p, q := Write(Branch(first, "in", Listed(ids))), Write(Branch(second, "in", Listed(ids)));
    ReadIn(first, ids);
    ReadIn(second, ids);
    TopLevelTwo(p, q);
    ParsePartsTwo(p, q, InFilter(first, ids), InFilter(second, ids));
  }

  lemma AskTwo(d: Dialect, db: Database, catalogue: seq<ForeignKey>, table: string, row: Row, f: Filter, g: Filter)
    ensures AskAny(d, db, catalogue, table, row, [f, g])
         == Or3(AskPath(d, db, catalogue, table, row, Path(f), f), AskPath(d, db, catalogue, table, row, Path(g), g))
  {
    assert [f, g][1..] == [g] && [g][1..] == [];
    var last := AskPath(d, db, catalogue, table, row, Path(g), g);
    assert AskAny(d, db, catalogue, table, row, [g]) == Or3(last, False) == last;
  }

  // ---- One id ----

  function EitherIs(first: string, second: string, id: string): string {
    Write(Branch(first, "eq", id)) + "," + Write(Branch(second, "eq", id))
  }

  lemma IsBranchWritable(column: string, id: string)
    requires PlainId(column) && PlainId(id)
    ensures Writable(Branch(column, "eq", id))
  {
    var part := Write(Branch(column, "eq", id));
    assert forall i :: 0 <= i < |part| ==> part[i] in column || part[i] in ".eq." || part[i] in id;
    PlainText(part, 0);
    assert part[0] == column[0] && part[|part| - 1] == id[|id| - 1];
  }

  lemma ReadEitherIs(first: string, second: string, id: string)
    requires PlainId(first) && PlainId(second) && PlainId(id)
    ensures ParseOr(EitherIs(first, second, id))
         == Some([Filter(first, "=", Str(id), false), Filter(second, "=", Str(id), false)])
  {
    var p, q := Branch(first, "eq", id), Branch(second, "eq", id);
    IsBranchWritable(first, id);
    IsBranchWritable(second, id);
    ParseWritten(p);
    ParseWritten(q);
    TopLevelTwo(Write(p), Write(q));
    ParsePartsTwo(Write(p), Write(q), Filter(first, "=", Str(id), false), Filter(second, "=", Str(id), false));
  }

  /** Two columns tested against one id, as the single link lookup sends them. */
  lemma EitherColumnIs(d: Dialect, canon: string -> string, db: Database, catalogue: seq<ForeignKey>, table: string,
                       row: Row, first: string, second: string, id: string, x: string, y: string)
    requires PlainId(first) && PlainId(second) && PlainId(id)
    requires ComparesBy(d, canon) && row(first) == Str(x) && row(second) == Str(y)
    ensures var fs := ParseOr(EitherIs(first, second, id));
      fs.Some? && AskAny(d, db, catalogue, table, row, fs.value) == Of(canon(x) == canon(id) || canon(y) == canon(id))
  {
    var f, g := Filter(first, "=", Str(id), false), Filter(second, "=", Str(id), false);
    ReadEitherIs(first, second, id);
    SplitFree(first, '.');
    SplitFree(second, '.');
    AskTwo(d, db, catalogue, table, row, f, g);
  }
}
