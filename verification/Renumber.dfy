/** UPDATE puts its own values in front of the WHERE parameters, and renumbers
    the placeholders of the WHERE clause by a replacement over its text. */
module Renumber {
  import opened Text
  import opened Sql

  function DigitRun(s: string): (n: nat)
    ensures n <= |s| && AllDigits(s[..n])
    ensures n < |s| ==> !IsDigit(s[n])
  {
    if s != "" && IsDigit(s[0]) then 1 + DigitRun(s[1..]) else 0
  }

  function Placeholder(digits: string, k: nat): string
    requires AllDigits(digits)
  {
    "$" + Dec(ReadDec(digits) + k)
  }

  lemma Assoc(a: string, b: string, c: string)
    ensures a + (b + c) == a + b + c
  {
  }

  /** `where.replace(/\$(\d+)/g, ...)` adding `k` to every number. */
  function ShiftText(s: string, k: nat): string {
    if s == "" then ""
    else if s[0] == '$' && |s| > 1 && IsDigit(s[1]) then
      var n := DigitRun(s[1..]);
      Placeholder(s[1..][..n], k) + ShiftText(s[1..][n..], k)
    else [s[0]] + ShiftText(s[1..], k)
  }

  predicate NonDigitStart(s: string) {
    s == "" || !IsDigit(s[0])
  }

  lemma {:induction false} DigitRunAppend(a: string, b: string)
    requires NonDigitStart(b)
    ensures DigitRun(a + b) == DigitRun(a)
  {
    if a == "" {
      assert a + b == b;
    } else {
      assert (a + b)[1..] == a[1..] + b;
      DigitRunAppend(a[1..], b);
    }
  }

  lemma {:induction false} DigitRunAll(a: string)
    requires AllDigits(a)
    ensures DigitRun(a) == |a|
  {
    if a != "" {
      DigitRunAll(a[1..]);
    }
  }

  lemma RunOfAppend(t: string, b: string)
    requires NonDigitStart(b)
    ensures var n := DigitRun(t);
      DigitRun(t + b) == n && (t + b)[..n] == t[..n] && (t + b)[n..] == t[n..] + b
  {
    DigitRunAppend(t, b);
  }

  lemma ShiftPlain(c: char, t: string, k: nat)
    requires !(c == '$' && t != "" && IsDigit(t[0]))
    ensures ShiftText([c] + t, k) == [c] + ShiftText(t, k)
  {
    assert ([c] + t)[1..] == t;
  }

  lemma ShiftNumber(t: string, k: nat)
    requires t != "" && IsDigit(t[0])
    ensures var n := DigitRun(t); ShiftText(['$'] + t, k) == Placeholder(t[..n], k) + ShiftText(t[n..], k)
  {
    assert (['$'] + t)[1..] == t;
  }

  lemma {:induction false} ShiftTextAppend(a: string, b: string, k: nat)
    requires NonDigitStart(b)
    ensures ShiftText(a + b, k) == ShiftText(a, k) + ShiftText(b, k)
    decreases |a|
  {
    if a == "" {
      assert a + b == b;
    } else {
      var c, t := a[0], a[1..];
      assert a == [c] + t;
      Assoc([c], t, b);
      if c == '$' && t != "" && IsDigit(t[0]) {
        var n := DigitRun(t);
        RunOfAppend(t, b);
        ShiftNumber(t, k);
        ShiftNumber(t + b, k);
        ShiftTextAppend(t[n..], b, k);
        Assoc(Placeholder(t[..n], k), ShiftText(t[n..], k), ShiftText(b, k));
      } else {
        ShiftPlain(c, t, k);
        ShiftPlain(c, t + b, k);
        ShiftTextAppend(t, b, k);
        Assoc([c], ShiftText(t, k), ShiftText(b, k));
      }
    }
  }

  /** No `$` stands right before a digit. */
  predicate Clean(s: string) {
    forall i :: 0 <= i < |s| - 1 ==> !(s[i] == '$' && IsDigit(s[i + 1]))
  }

  lemma {:induction false} ShiftTextClean(s: string, k: nat)
    requires Clean(s)
    ensures ShiftText(s, k) == s
  {
    if s != "" {
      ShiftTextClean(s[1..], k);
      assert s == [s[0]] + s[1..];
    }
  }

  lemma ShiftTextParam(n: nat, k: nat)
    ensures ShiftText("$" + Dec(n), k) == "$" + Dec(n + k)
  {
    var s := "$" + Dec(n);
    assert s[1..] == Dec(n) && s[1..][..|Dec(n)|] == Dec(n) && s[1..][|Dec(n)|..] == "";
    DigitRunAll(Dec(n));
    ReadDecDec(n);
  }

  lemma SameRun(m: string, x: string, ds: string, y: string)
    requires AllDigits(m) && AllDigits(ds) && NonDigitStart(x) && NonDigitStart(y)
    requires m + x == ds + y
    ensures m == ds
  {
    DigitRunAll(m);
    DigitRunAll(ds);
    DigitRunAppend(m, x);
    DigitRunAppend(ds, y);
    assert m == (m + x)[..|m|] && ds == (ds + y)[..|ds|];
  }

  lemma NumberMoves(ds: string, k: nat, x: string, y: string)
    requires AllDigits(ds) && k > 0 && NonDigitStart(x) && NonDigitStart(y)
    ensures Placeholder(ds, k) + x != "$" + ds + y
  {
    var m := Dec(ReadDec(ds) + k);
    if m + x == ds + y {
      SameRun(m, x, ds, y);
      ReadDecDec(ReadDec(ds) + k);
      assert false;
    }
    assert (Placeholder(ds, k) + x)[1..] == m + x;
    assert ("$" + ds + y)[1..] == ds + y;
  }

  lemma DirtyNumber(s: string, k: nat, x: string, y: string)
    requires |s| > 1 && s[0] == '$' && IsDigit(s[1]) && !IsDigit(s[|s| - 1]) && k > 0
    ensures ShiftText(s, k) + x != s + y
  {
    var t := s[1..];
    var n := DigitRun(t);
    assert n < |t| by {
      assert s[|s| - 1] == t[|t| - 1];
    }
    var q := t[n..];
    assert ShiftText(s, k) == Placeholder(t[..n], k) + ShiftText(q, k);
    NumberMoves(t[..n], k, ShiftText(q, k) + x, q + y);
    Assoc(Placeholder(t[..n], k), ShiftText(q, k), x);
    assert t == t[..n] + q;
    assert s + y == "$" + t[..n] + (q + y);
  }

  lemma SameFirst(c: char, a: string, b: string)
    requires a != b
    ensures [c] + a != [c] + b
  {
    assert ([c] + a)[1..] == a && ([c] + b)[1..] == b;
  }

  /** A text with a `$` before a digit does not survive, whatever follows. */
  lemma {:induction false} ShiftTextDirty(s: string, k: nat, x: string, y: string)
    requires !Clean(s) && !IsDigit(s[|s| - 1]) && k > 0
    ensures ShiftText(s, k) + x != s + y
    decreases |s|
  {
    if s[0] == '$' && |s| > 1 && IsDigit(s[1]) {
      DirtyNumber(s, k, x, y);
    } else {
      var t := s[1..];
      var i :| 0 <= i < |s| - 1 && s[i] == '$' && IsDigit(s[i + 1]);
      assert t[i - 1] == '$' && IsDigit(t[i]);
      ShiftTextDirty(t, k, x, y);
      SameFirst(s[0], ShiftText(t, k) + x, t + y);
      Assoc([s[0]], ShiftText(t, k), x);
      Assoc([s[0]], t, y);
      assert s == [s[0]] + t;
    }
  }

  // ---- Over a whole clause ----

  predicate SafeName(name: string) {
    forall i :: 0 <= i < |name| ==> name[i] != '$'
  }

  predicate SafeToken(t: Token) {
    match t
    case Column(c) => SafeName(c.name)
    case Source(table, _) => SafeName(table)
    case _ => true
  }

  predicate CleanToken(t: Token) {
    t.Operator? ==> Clean(t.operator)
  }

  lemma TokenStart(t: Token)
    ensures TokenText(t) != "" && !IsDigit(TokenText(t)[0])
  {
    if t.Column? {
      assert AliasText(t.c.alias)[0] in {'b', 'f', 'r'};
    }
    if t.Word? {
      assert LiteralText(t.lit)[0] in {'n', 't', 'f'};
    }
  }

  lemma TextStart(ts: seq<Token>)
    ensures NonDigitStart(TextOf(ts))
  {
    if ts != [] {
      TokenStart(ts[0]);
    }
  }

  lemma AliasHasNoDollar(a: Alias)
    ensures SafeName(AliasText(a))
  {
  }

  lemma SafeIsClean(s: string)
    requires SafeName(s)
    ensures Clean(s)
  {
  }

  lemma PaddedIsClean(operator: string)
    requires Clean(operator)
    ensures Clean(" " + operator + " ")
  {
    var s := " " + operator + " ";
    forall i | 0 <= i < |s| - 1 ensures !(s[i] == '$' && IsDigit(s[i + 1])) {
      if 1 <= i <= |operator| {
        assert s[i] == operator[i - 1];
      }
    }
  }

  lemma TokenTextIsClean(t: Token)
    requires SafeToken(t) && CleanToken(t) && !t.Param?
    ensures Clean(TokenText(t))
  {
    match t
    case Column(c) =>
      AliasHasNoDollar(c.alias);
      SafeIsClean(TokenText(t));
    case Source(table, alias) =>
      AliasHasNoDollar(alias);
      SafeIsClean(TokenText(t));
    case Operator(operator) => PaddedIsClean(operator);
    case _ => SafeIsClean(TokenText(t));
  }

  lemma ShiftTokenText(t: Token, k: nat)
    requires SafeToken(t) && CleanToken(t)
    ensures ShiftText(TokenText(t), k) == TokenText(ShiftToken(t, k))
  {
    if t.Param? {
      ShiftTextParam(t.n, k);
    } else {
      TokenTextIsClean(t);
      ShiftTextClean(TokenText(t), k);
    }
  }

  lemma DirtyOperator(operator: string)
    requires !Clean(operator)
    ensures var s := " " + operator + " "; !Clean(s) && !IsDigit(s[|s| - 1])
  {
    var s := " " + operator + " ";
    var i :| 0 <= i < |operator| - 1 && operator[i] == '$' && IsDigit(operator[i + 1]);
    assert s[i + 1] == '$' && IsDigit(s[i + 2]);
  }

  /** Renumbering the text equals printing the renumbered clause exactly when no
      operator text carries a `$` before a digit. */
  lemma {:induction false} ShiftTextIsShift(ts: seq<Token>, k: nat)
    requires k > 0 && forall i :: 0 <= i < |ts| ==> SafeToken(ts[i])
    ensures ShiftText(TextOf(ts), k) == TextOf(ShiftTokens(ts, k))
        <==> forall i :: 0 <= i < |ts| ==> CleanToken(ts[i])
  {
    if ts != [] {
      var first, rest := TokenText(ts[0]), TextOf(ts[1..]);
      TextStart(ts[1..]);
      ShiftTextAppend(first, rest, k);
      ShiftTextIsShift(ts[1..], k);
      var shifted := ShiftTokens(ts, k);
      assert shifted[0] == ShiftToken(ts[0], k) && shifted[1..] == ShiftTokens(ts[1..], k);
      if CleanToken(ts[0]) {
        ShiftTokenText(ts[0], k);
        var head := TokenText(shifted[0]);
        assert (head + ShiftText(rest, k))[|head|..] == ShiftText(rest, k);
        assert (head + TextOf(shifted[1..]))[|head|..] == TextOf(shifted[1..]);
      } else {
        DirtyOperator(ts[0].operator);
        ShiftTextDirty(first, k, ShiftText(rest, k), TextOf(shifted[1..]));
      }
    }
  }
}
