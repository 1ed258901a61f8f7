/** The select language of the query client: comma lists cut at depth zero, and
    nested relations `alias:table!hint!inner(columns)`. */
module SelectParser {
  import opened Text

  // ---- Cutting a list at its top-level commas ----

  function Step(c: char, depth: int): int {
    if c == '(' then depth + 1 else if c == ')' then depth - 1 else depth
  }

  /** The slices between commas met at depth zero, before trimming. */
  function Slices(s: string, depth: int): (out: seq<string>)
    ensures |out| >= 1
    ensures forall i :: 0 <= i < |out| ==> |out[i]| <= |s|
  {
    if s == "" then [""]
    else if s[0] == ',' && depth == 0 then [""] + Slices(s[1..], depth)
    else
      var rest := Slices(s[1..], Step(s[0], depth));
      [[s[0]] + rest[0]] + rest[1..]
  }

  function TrimAll(parts: seq<string>): (out: seq<string>)
    ensures |out| == |parts|
    ensures forall i :: 0 <= i < |out| ==> out[i] == Trim(parts[i])
  {
    if parts == [] then [] else [Trim(parts[0])] + TrimAll(parts[1..])
  }

  function NonEmpty(parts: seq<string>): (out: seq<string>)
    ensures forall t :: t in out ==> t in parts && t != ""
  {
    if parts == [] then []
    else (if parts[0] != "" then [parts[0]] else []) + NonEmpty(parts[1..])
  }

  function TopLevel(s: string): (out: seq<string>)
    ensures forall t :: t in out ==> t != "" && |t| <= |s|
  {
    NonEmpty(TrimAll(Slices(s, 0)))
  }

  lemma {:induction false} NonEmptyAppend(a: seq<string>, b: seq<string>)
    ensures NonEmpty(a + b) == NonEmpty(a) + NonEmpty(b)
  {
    if a == [] {
      assert a + b == b;
    } else {
      assert (a + b)[1..] == a[1..] + b;
      NonEmptyAppend(a[1..], b);
    }
  }

  lemma SlicesStep(s: string, depth: int)
    requires s != ""
    ensures var rest := Slices(s[1..], Step(s[0], depth));
      Slices(s, depth) == if s[0] == ',' && depth == 0 then [""] + rest else [[s[0]] + rest[0]] + rest[1..]
  {
  }

  /** The same slices by position: what is still to come when the scan stands at
      `index` inside the slice that began at `start`. */
  function SlicesFrom(value: string, index: nat, start: nat, depth: int): (out: seq<string>)
    requires start <= index <= |value|
    ensures out != []
    decreases |value| - index
  {
    if index == |value| then [value[start..]]
    else if value[index] == ',' && depth == 0 then
      [value[start..index]] + SlicesFrom(value, index + 1, index + 1, depth)
    else SlicesFrom(value, index + 1, start, Step(value[index], depth))
  }

  lemma {:induction false} SlicesByPosition(value: string, index: nat, start: nat, depth: int)
    requires start <= index <= |value|
    ensures var rest := Slices(value[index..], depth);
      SlicesFrom(value, index, start, depth) == [value[start..index] + rest[0]] + rest[1..]
    decreases |value| - index
  {
    if index == |value| {
      assert value[index..] == "" && value[start..index] + "" == value[start..];
    } else {
      var next := Slices(value[index + 1..], Step(value[index], depth));
      SlicesStep(value[index..], depth);
      assert value[index..][1..] == value[index + 1..];
      if value[index] == ',' && depth == 0 {
        SlicesByPosition(value, index + 1, index + 1, depth);
        assert value[index + 1..index + 1] + next[0] == next[0] && value[start..index] + "" == value[start..index];
      } else {
        SlicesByPosition(value, index + 1, start, Step(value[index], depth));
        Longer(value, start, index, next[0]);
      }
    }
  }

  lemma Longer(value: string, start: nat, index: nat, rest: string)
    requires start <= index < |value|
    ensures value[start..index] + ([value[index]] + rest) == value[start..index + 1] + rest
  {
  }

  lemma TrimAllCons(t: string, rest: seq<string>)
    ensures TrimAll([t] + rest) == [Trim(t)] + TrimAll(rest)
  {
    assert ([t] + rest)[1..] == rest;
  }

  /** The scanning loop: `depth` and `start` move along the text, and a slice is
      pushed at every comma met while `depth` is zero. */
  method ScanSlices(value: string) returns (out: seq<string>)
    ensures out == TrimAll(SlicesFrom(value, 0, 0, 0))
  {
    var depth, start, index := 0, 0, 0;
    out := [];
    while index < |value|
      invariant 0 <= start <= index <= |value|
      invariant Scanned(value, index, start, depth, out)
    {
      var c := value[index];
      ghost var before := depth;
      if c == '(' { depth := depth + 1; }
      if c == ')' { depth := depth - 1; }
      if c == ',' && depth == 0 {
        Cut(value, index, start, depth, out);
        out := out + [Trim(value[start..index])];
        start := index + 1;
      } else {
        Pass(value, index, start, before, out);
      }
      index := index + 1;
    }
    Last(value, start, depth, out);
    out := out + [Trim(value[start..])];
  }

  /** `out` and the slices still to come are all the slices. */
  ghost predicate Scanned(value: string, index: nat, start: nat, depth: int, out: seq<string>) {
    start <= index <= |value|
    && out + TrimAll(SlicesFrom(value, index, start, depth)) == TrimAll(SlicesFrom(value, 0, 0, 0))
  }

  lemma Cut(value: string, index: nat, start: nat, depth: int, out: seq<string>)
    requires index < |value| && value[index] == ',' && depth == 0 && Scanned(value, index, start, depth, out)
    ensures Scanned(value, index + 1, index + 1, depth, out + [Trim(value[start..index])])
  {
    var rest := SlicesFrom(value, index + 1, index + 1, depth);
    TrimAllCons(value[start..index], rest);
    assert out + ([Trim(value[start..index])] + TrimAll(rest)) == (out + [Trim(value[start..index])]) + TrimAll(rest);
  }

  lemma Pass(value: string, index: nat, start: nat, depth: int, out: seq<string>)
    requires index < |value| && !(value[index] == ',' && depth == 0) && Scanned(value, index, start, depth, out)
    ensures Scanned(value, index + 1, start, Step(value[index], depth), out)
  {
  }

  lemma Last(value: string, start: nat, depth: int, out: seq<string>)
    requires Scanned(value, |value|, start, depth, out)
    ensures out + [Trim(value[start..])] == TrimAll(SlicesFrom(value, 0, 0, 0))
  {
    TrimAllCons(value[start..], []);
    assert [value[start..]] + [] == SlicesFrom(value, |value|, start, depth);
    assert [Trim(value[start..])] + TrimAll([]) == [Trim(value[start..])];
  }

  method SplitTopLevel(value: string) returns (kept: seq<string>)
    ensures kept == TopLevel(value)
  {
    var out := ScanSlices(value);
    SlicesByPosition(value, 0, 0, 0);
    assert value[0..] == value && value[0..0] + Slices(value, 0)[0] == Slices(value, 0)[0];
    kept := Kept(out);
  }

  /** `out.filter(Boolean)`. */
  method Kept(out: seq<string>) returns (kept: seq<string>)
    ensures kept == NonEmpty(out)
  {
    kept := [];
    for i := 0 to |out|
      invariant kept == NonEmpty(out[..i])
    {
      assert out[..i + 1] == out[..i] + [out[i]];
      NonEmptyAppend(out[..i], [out[i]]);
      if out[i] != "" { kept := kept + [out[i]]; }
    }
    assert out[..|out|] == out;
  }

  // ---- Where the cut falls ----

  function Walk(s: string, depth: int): int {
    if s == "" then depth else Walk(s[1..], Step(s[0], depth))
  }

  /** No comma of `s` is met at depth zero when scanning starts at `depth`. */
  predicate Uncut(s: string, depth: int) {
    s == "" || (!(s[0] == ',' && depth == 0) && Uncut(s[1..], Step(s[0], depth)))
  }

  lemma {:induction false} WalkAppend(a: string, b: string, depth: int)
    ensures Walk(a + b, depth) == Walk(b, Walk(a, depth))
    ensures Uncut(a + b, depth) <==> Uncut(a, depth) && Uncut(b, Walk(a, depth))
  {
    if a == "" {
      assert a + b == b;
    } else {
      assert (a + b)[1..] == a[1..] + b;
      WalkAppend(a[1..], b, Step(a[0], depth));
    }
  }

  lemma {:induction false} SlicesOfUncut(a: string, depth: int, rest: string)
    requires Uncut(a, depth) && Walk(a, depth) == 0
    ensures Slices(a, depth) == [a]
    ensures Slices(a + "," + rest, depth) == [a] + Slices(rest, 0)
  {
    var s := a + "," + rest;
    if a == "" {
      assert s[1..] == rest;
    } else {
      assert a == [a[0]] + a[1..];
      assert s[1..] == a[1..] + "," + rest;
      SlicesOfUncut(a[1..], Step(a[0], depth), rest);
      assert ([a[1..]] + Slices(rest, 0))[1..] == Slices(rest, 0);
    }
  }

  /** A token that survives being one entry of a comma list. */
  predicate Entry(t: string) {
    t != "" && Trimmed(t) && Uncut(t, 0) && Walk(t, 0) == 0
  }

  lemma {:induction false} SlicesOfJoin(tokens: seq<string>)
    requires tokens != [] && forall i :: 0 <= i < |tokens| ==> Entry(tokens[i])
    ensures Slices(Join(tokens, ","), 0) == tokens
  {
    if |tokens| == 1 {
      SlicesOfUncut(tokens[0], 0, "");
    } else {
      SlicesOfUncut(tokens[0], 0, Join(tokens[1..], ","));
      SlicesOfJoin(tokens[1..]);
    }
  }

  lemma {:induction false} KeepsEntries(tokens: seq<string>)
    requires forall i :: 0 <= i < |tokens| ==> Entry(tokens[i])
    ensures NonEmpty(TrimAll(tokens)) == tokens
  {
    if tokens != [] {
      TrimTrimmed(tokens[0]);
      KeepsEntries(tokens[1..]);
    }
  }

  /** Cutting inverts comma-joining on balanced non-empty tokens. */
  lemma TopLevelOfJoin(tokens: seq<string>)
    requires forall i :: 0 <= i < |tokens| ==> Entry(tokens[i])
    ensures TopLevel(Join(tokens, ",")) == tokens
  {
    if tokens == [] {
      assert Trim("") == "";
      assert TrimAll([""]) == [""];
    } else {
      SlicesOfJoin(tokens);
      KeepsEntries(tokens);
    }
  }

  // ---- The select tree ----

  datatype Item =
    | Column(column: string, name: Option<string>)
    | Relation(alias: string, table: string, hint: Option<string>, inner: bool, columns: seq<Item>)

  function IndexOf(s: string, c: char): (i: int)
    ensures -1 <= i < |s|
    ensures i == -1 ==> Free(s, c)
    ensures i >= 0 ==> s[i] == c && Free(s[..i], c)
  {
    if s == "" then -1
    else if s[0] == c then 0
    else
      var i := IndexOf(s[1..], c);
      if i == -1 then -1 else i + 1
  }

  function FindHint(parts: seq<string>, head: string): Option<string> {
    if parts == [] then None
    else if parts[0] != head && parts[0] != "inner" && parts[0] != "left" then Some(parts[0])
    else FindHint(parts[1..], head)
  }

  function RelationOf(parts: seq<string>, columns: seq<Item>): Item
    requires parts != []
  {
    var named := TrimAll(Split(parts[0], ':'));
    var table := if |named| == 2 then named[1] else named[0];
    Relation(if |named| == 2 then named[0] else table, table, FindHint(parts, parts[0]), "inner" in parts, columns)
  }

  function ParseSelect(value: string): seq<Item>
    decreases |value|, 1, 0
  {
    ParseTokens(TopLevel(value), |value|)
  }

  function ParseTokens(tokens: seq<string>, bound: nat): (items: seq<Item>)
    requires forall t :: t in tokens ==> t != "" && |t| <= bound
    ensures |items| == |tokens|
    decreases bound, 0, |tokens|
  {
    if tokens == [] then [] else [ParseToken(tokens[0])] + ParseTokens(tokens[1..], bound)
  }

  function ParseToken(token: string): Item
    requires token != ""
    decreases |token|, 0, 0
  {
    var open := IndexOf(token, '(');
    if open > 0 && token[|token| - 1] == ')' then
      RelationOf(TrimAll(Split(Trim(token[..open]), '!')), ParseSelect(token[open + 1..|token| - 1]))
    else if token == "*" then Column("*", None)
    else
      var pieces := Split(token, ':');
      if |pieces| > 1 then Column(Trim(pieces[1]), Some(Trim(pieces[0]))) else Column(Trim(token), None)
  }

  // ---- Printing it ----

  function Head(alias: string, table: string): string {
    if alias == table then table else alias + ":" + table
  }

  function Prefix(item: Item): string
    requires item.Relation?
  {
    Head(item.alias, item.table)
    + (if item.hint.Some? then "!" + item.hint.value else "")
    + (if item.inner then "!inner" else "")
  }

  function Print(item: Item): string
    decreases item, 0
  {
    match item
    case Column(column, None) => column
    case Column(column, Some(name)) => name + ":" + column
    case Relation(_, _, _, _, columns) => Prefix(item) + "(" + PrintSelect(columns) + ")"
  }

  function PrintEach(items: seq<Item>): (tokens: seq<string>)
    ensures |tokens| == |items|
    ensures forall i :: 0 <= i < |items| ==> tokens[i] == Print(items[i])
    decreases items, 0
  {
    if items == [] then [] else [Print(items[0])] + PrintEach(items[1..])
  }

  function PrintSelect(items: seq<Item>): string
    decreases items, 1
  {
    Join(PrintEach(items), ",")
  }

  // ---- The names the language can carry ----

  predicate NameChar(c: char) {
    c != ',' && c != '(' && c != ')' && c != ':' && c != '!' && !IsSpace(c)
  }

  predicate Name(s: string) {
    s != "" && forall i :: 0 <= i < |s| ==> NameChar(s[i])
  }

  predicate Named(item: Item)
    decreases item
  {
    match item
    case Column(column, name) => Name(column) && (name.Some? ==> Name(name.value))
    case Relation(alias, table, hint, _, columns) =>
      Name(alias) && Name(table) && (hint.Some? ==> Name(hint.value))
      && forall i :: 0 <= i < |columns| ==> Named(columns[i])
  }

  /** What a printed relation must avoid to be read back: a hint that repeats the
      head or one of the join words is not seen as a hint, and a bare table
      called `inner` is seen as the join word. */
  predicate Readable(item: Item)
    decreases item
  {
    match item
    case Column(_, _) => true
    case Relation(alias, table, hint, inner, columns) =>
      && (hint.Some? ==> hint.value != Head(alias, table) && hint.value != "inner" && hint.value != "left")
      && (Head(alias, table) == "inner" ==> inner)
      && forall i :: 0 <= i < |columns| ==> Readable(columns[i])
  }

  lemma {:induction false} PlainText(s: string, depth: int)
    requires forall i :: 0 <= i < |s| ==> s[i] != ',' && s[i] != '(' && s[i] != ')'
    ensures Walk(s, depth) == depth && Uncut(s, depth)
  {
    if s != "" {
      PlainText(s[1..], depth);
    }
  }

  lemma PrefixChars(item: Item)
    requires item.Relation? && Named(item)
    ensures Prefix(item) != "" && Trimmed(Prefix(item))
    ensures forall i :: 0 <= i < |Prefix(item)| ==>
      Prefix(item)[i] != ',' && Prefix(item)[i] != '(' && Prefix(item)[i] != ')' && !IsSpace(Prefix(item)[i])
  {
  }

  lemma {:induction false} PrintShape(item: Item, depth: nat)
    requires Named(item)
    ensures Walk(Print(item), depth) == depth && Uncut(Print(item), depth)
    ensures Print(item) != "" && Trimmed(Print(item))
    decreases item, 0
  {
    match item
    case Column(_, _) => PlainText(Print(item), depth);
    case Relation(_, _, _, _, columns) =>
      PrefixChars(item);
      PlainText(Prefix(item), depth);
      PrintSelectShape(columns, depth + 1);
      WalkAppend(Prefix(item) + "(" + PrintSelect(columns), ")", depth);
      WalkAppend(Prefix(item) + "(", PrintSelect(columns), depth);
      WalkAppend(Prefix(item), "(", depth);
  }

  lemma {:induction false} PrintSelectShape(items: seq<Item>, depth: nat)
    requires depth > 0 && forall i :: 0 <= i < |items| ==> Named(items[i])
    ensures Walk(PrintSelect(items), depth) == depth && Uncut(PrintSelect(items), depth)
    decreases items, 1
  {
    if items != [] {
      PrintShape(items[0], depth);
      if |items| > 1 {
        var rest := PrintSelect(items[1..]);
        assert PrintEach(items)[1..] == PrintEach(items[1..]);
        PrintSelectShape(items[1..], depth);
        WalkAppend(Print(items[0]) + ",", rest, depth);
        WalkAppend(Print(items[0]), ",", depth);
      }
    }
  }

  lemma PrintIsEntry(item: Item)
    requires Named(item)
    ensures Entry(Print(item))
  {
    PrintShape(item, 0);
  }

  lemma {:induction false} ParsedAt(tokens: seq<string>, bound: nat, i: nat)
    requires (forall t :: t in tokens ==> t != "" && |t| <= bound) && i < |tokens|
    ensures ParseTokens(tokens, bound)[i] == ParseToken(tokens[i])
    decreases |tokens|
  {
    if i > 0 {
      ParsedAt(tokens[1..], bound, i - 1);
    }
  }

  lemma ParseOfPrint(items: seq<Item>)
    requires forall i :: 0 <= i < |items| ==> Named(items[i])
    ensures |ParseSelect(PrintSelect(items))| == |items|
    ensures forall i :: 0 <= i < |items| ==>
      Print(items[i]) != "" && ParseSelect(PrintSelect(items))[i] == ParseToken(Print(items[i]))
  {
    forall i | 0 <= i < |items| ensures Entry(Print(items[i])) {
      PrintIsEntry(items[i]);
    }
    var tokens := PrintEach(items);
    TopLevelOfJoin(tokens);
    forall i | 0 <= i < |items|
      ensures Print(items[i]) != "" && ParseSelect(PrintSelect(items))[i] == ParseToken(Print(items[i]))
    {
      ParsedAt(tokens, |PrintSelect(items)|, i);
    }
  }

  lemma NameTrims(s: string)
    requires Name(s)
    ensures Trim(s) == s && Free(s, ':') && Free(s, '!') && Free(s, '(')
  {
    TrimTrimmed(s);
  }

  lemma ParseColumn(item: Item)
    requires item.Column? && Named(item)
    ensures Print(item) != "" && ParseToken(Print(item)) == item
  {
    var token := Print(item);
    NameTrims(item.column);
    if item.name.Some? {
      NameTrims(item.name.value);
      SplitAt(item.name.value, ':', item.column);
      SplitFree(item.column, ':');
    } else {
      SplitFree(item.column, ':');
    }
  }

  lemma HeadParts(alias: string, table: string)
    requires Name(alias) && Name(table)
    ensures var h := Head(alias, table); var n := TrimAll(Split(h, ':'));
      Trim(h) == h && Free(h, '!') && Free(h, '(') && h != ""
      && (if |n| == 2 then n == [alias, table] else n == [table] && alias == table)
  {
    NameTrims(alias);
    NameTrims(table);
    var h := Head(alias, table);
    SplitFree(table, ':');
    if alias != table {
      SplitAt(alias, ':', table);
    }
    TrimTrimmed(h);
  }

  function Extras(item: Item): (e: seq<string>)
    requires item.Relation?
  {
    (if item.hint.Some? then [item.hint.value] else []) + (if item.inner then ["inner"] else [])
  }

  lemma PrefixIsJoin(item: Item)
    requires item.Relation?
    ensures Prefix(item) == Join([Head(item.alias, item.table)] + Extras(item), "!")
  {
    var h, e := Head(item.alias, item.table), Extras(item);
    var raw := [h] + e;
    assert raw[1..] == e;
    if |e| == 2 {
      assert e[1..] == ["inner"];
      assert Join(e, "!") == e[0] + "!" + Join(["inner"], "!");
    }
  }

  lemma PrefixParts(item: Item)
    requires item.Relation? && Named(item)
    ensures Trim(Prefix(item)) == Prefix(item) && Free(Prefix(item), '(') && Prefix(item) != ""
    ensures TrimAll(Split(Prefix(item), '!')) == [Head(item.alias, item.table)] + Extras(item)
  {
    var raw := [Head(item.alias, item.table)] + Extras(item);
    PrefixChars(item);
    TrimTrimmed(Prefix(item));
    PrefixIsJoin(item);
    HeadParts(item.alias, item.table);
    ExtrasTrim(item);
    SplitJoin(raw, '!');
    TrimAllSame(raw);
  }

  lemma {:induction false} TrimAllSame(parts: seq<string>)
    requires forall i :: 0 <= i < |parts| ==> Trim(parts[i]) == parts[i]
    ensures TrimAll(parts) == parts
  {
    if parts != [] {
      TrimAllSame(parts[1..]);
    }
  }

  lemma ExtrasTrim(item: Item)
    requires item.Relation? && Named(item)
    ensures forall i :: 0 <= i < |Extras(item)| ==>
      Free(Extras(item)[i], '!') && Trim(Extras(item)[i]) == Extras(item)[i]
  {
    if item.hint.Some? {
      NameTrims(item.hint.value);
    }
    TrimTrimmed("inner");
  }

  lemma {:induction false} IndexOfParen(a: string, b: string)
    requires Free(a, '(')
    ensures IndexOf(a + "(" + b, '(') == |a|
  {
    if a != "" {
      assert (a + "(" + b)[1..] == a[1..] + "(" + b;
      IndexOfParen(a[1..], b);
    }
  }

  /** The hint a reader sees: any hint but the head itself or a join word. */
  function SeenHint(item: Item): Option<string>
    requires item.Relation?
  {
    if item.hint.Some? && item.hint.value != Head(item.alias, item.table)
       && item.hint.value != "inner" && item.hint.value != "left"
    then item.hint else None
  }

  lemma HintOfParts(item: Item)
    requires item.Relation?
    ensures var h := Head(item.alias, item.table); var parts := [h] + Extras(item);
      FindHint(parts, h) == SeenHint(item)
      && ("inner" in parts <==> item.inner || h == "inner" || item.hint == Some("inner"))
  {
    var h, e := Head(item.alias, item.table), Extras(item);
    var tail := if item.inner then ["inner"] else [];
    assert ([h] + e)[1..] == e;
    assert FindHint([h] + e, h) == FindHint(e, h);
    assert FindHint(tail, h) == None by {
      if item.inner {
        assert tail[1..] == [];
      }
    }
    if item.hint.Some? {
      assert e == [item.hint.value] + tail && e[1..] == tail;
    } else {
      assert e == tail;
    }
  }

  lemma RelationOfParts(item: Item, columns: seq<Item>)
    requires item.Relation? && Named(item)
    ensures RelationOf([Head(item.alias, item.table)] + Extras(item), columns) ==
      Relation(item.alias, item.table, SeenHint(item),
               item.inner || Head(item.alias, item.table) == "inner" || item.hint == Some("inner"), columns)
  {
    HeadParts(item.alias, item.table);
    HintOfParts(item);
  }

  lemma TokenWithBody(prefix: string, body: string)
    requires prefix != "" && Free(prefix, '(') && Trim(prefix) == prefix
    ensures ParseToken(prefix + "(" + body + ")")
         == RelationOf(TrimAll(Split(prefix, '!')), ParseSelect(body))
  {
    var token := prefix + "(" + body + ")";
    assert token == prefix + "(" + (body + ")");
    IndexOfParen(prefix, body + ")");
    assert token[..|prefix|] == prefix;
    assert token[|prefix| + 1..|token| - 1] == body;
  }

  lemma TokenOfRelation(item: Item)
    requires item.Relation? && Named(item)
    ensures Print(item) != ""
    ensures ParseToken(Print(item))
         == RelationOf([Head(item.alias, item.table)] + Extras(item), ParseSelect(PrintSelect(item.columns)))
  {
    PrefixParts(item);
    TokenWithBody(Prefix(item), PrintSelect(item.columns));
  }

  /** What reading a printed relation gives: every part but the hint and the
      join flag always survives. */
  lemma ParseRelation(item: Item)
    requires item.Relation? && Named(item)
    ensures Print(item) != ""
    ensures ParseToken(Print(item)) ==
      Relation(item.alias, item.table, SeenHint(item),
               item.inner || Head(item.alias, item.table) == "inner" || item.hint == Some("inner"),
               ParseSelect(PrintSelect(item.columns)))
  {
    TokenOfRelation(item);
    RelationOfParts(item, ParseSelect(PrintSelect(item.columns)));
  }

  /** Parsing a printed select list gives the list back exactly when every
      relation in it is readable. */
  lemma {:induction false} ParseInvertsPrint(items: seq<Item>)
    requires forall i :: 0 <= i < |items| ==> Named(items[i])
    ensures ParseSelect(PrintSelect(items)) == items <==> forall i :: 0 <= i < |items| ==> Readable(items[i])
    decreases items, 1
  {
    ParseOfPrint(items);
    var parsed := ParseSelect(PrintSelect(items));
    forall i | 0 <= i < |items| ensures parsed[i] == items[i] <==> Readable(items[i]) {
      TokenInvertsPrint(items[i]);
    }
    if forall i :: 0 <= i < |items| ==> Readable(items[i]) {
      assert forall i :: 0 <= i < |items| ==> parsed[i] == items[i];
    } else {
      var i :| 0 <= i < |items| && !Readable(items[i]);
      assert parsed[i] != items[i];
    }
  }

  lemma {:induction false} TokenInvertsPrint(item: Item)
    requires Named(item)
    ensures Print(item) != ""
    ensures ParseToken(Print(item)) == item <==> Readable(item)
    decreases item, 0
  {
    if item.Column? {
      ParseColumn(item);
    } else {
      ParseRelation(item);
      ParseInvertsPrint(item.columns);
    }
  }

  /** The hint that repeats the table's own name is lost. */
  lemma RepeatedHintIsLost(table: string, columns: seq<Item>)
    requires Name(table) && forall i :: 0 <= i < |columns| ==> Named(columns[i]) && Readable(columns[i])
    ensures var item := Relation(table, table, Some(table), table == "inner", columns);
      Print(item) != "" && ParseToken(Print(item)) == item.(hint := None)
  {
    ParseRelation(Relation(table, table, Some(table), table == "inner", columns));
    ParseInvertsPrint(columns);
  }
}
