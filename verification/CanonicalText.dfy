/** Canonical text unit by unit: the order of the keys, the words, the escapes,
    and what a signature is computed over. */
module CanonicalText {
  import opened Text
  import opened Json
  import opened Canonical

  // ---- The order of keys ----

  /** A key comes before another when, after what they share, it ends or has the
      smaller UTF-16 unit. */
  predicate Before(a: Ustr, b: Ustr) {
    exists i :: 0 <= i <= |a| && i < |b| && a[..i] == b[..i] && (i == |a| || a[i] < b[i])
  }

  lemma {:induction false} LessExactly(a: Ustr, b: Ustr)
    ensures Less(a, b) <==> Before(a, b)
  {
    if a != [] && b != [] && a[0] == b[0] {
      LessExactly(a[1..], b[1..]);
      if Before(a[1..], b[1..]) {
        var i :| 0 <= i <= |a| - 1 && i < |b| - 1 && a[1..][..i] == b[1..][..i]
          && (i == |a| - 1 || a[1..][i] < b[1..][i]);
        SharedMore(a, b, i);
      }
      if Before(a, b) {
        var i :| 0 <= i <= |a| && i < |b| && a[..i] == b[..i] && (i == |a| || a[i] < b[i]);
        SharedLess(a, b, i);
      }
    } else if b != [] && (a == [] || a[0] < b[0]) {
      assert a[..0] == b[..0];
    } else {
      forall i | 0 < i <= |a| && i < |b| ensures a[..i] != b[..i] {
        assert a[..i][0] == a[0] && b[..i][0] == b[0];
      }
    }
  }

  lemma SharedMore(a: Ustr, b: Ustr, i: nat)
    requires a != [] && b != [] && a[0] == b[0] && i <= |a| - 1 && i < |b| - 1 && a[1..][..i] == b[1..][..i]
    requires i == |a| - 1 || a[1..][i] < b[1..][i]
    ensures Before(a, b)
  {
    assert a[..i + 1] == [a[0]] + a[1..][..i] && b[..i + 1] == [b[0]] + b[1..][..i];
  }

  lemma SharedLess(a: Ustr, b: Ustr, i: nat)
    requires a != [] && b != [] && a[0] == b[0] && i <= |a| && i < |b| && a[..i] == b[..i]
    requires i == |a| || a[i] < b[i]
    ensures Before(a[1..], b[1..])
  {
    assert i > 0;
    assert a[1..][..i - 1] == a[..i][1..] && b[1..][..i - 1] == b[..i][1..];
  }

  /** The keys in the order of the entries. */
  function KeyList<T>(es: Entries<T>): (ks: seq<Ustr>)
    ensures forall k :: k in ks <==> k in Keys(es)
  {
    match es case Empty => [] case Entry(k, _, tail) => [k] + KeyList(tail)
  }

  lemma {:induction false} AscendingList<T>(es: Entries<T>)
    requires Ascending(es)
    ensures forall i, j :: 0 <= i < j < |KeyList(es)| ==> Before(KeyList(es)[i], KeyList(es)[j])
  {
    if es.Entry? {
      var ks, rest := KeyList(es), KeyList(es.tail);
      AscendingList(es.tail);
      forall i, j | 0 <= i < j < |ks| ensures Before(ks[i], ks[j]) {
        if i == 0 {
          assert ks[j] == rest[j - 1] && rest[j - 1] in Keys(es.tail);
          AscendingBelow(es.key, es.tail, ks[j]);
          LessExactly(ks[0], ks[j]);
        } else {
          assert ks[i] == rest[i - 1] && ks[j] == rest[j - 1];
        }
      }
    }
  }

  /** `"key":value` for these keys, in this order, with commas between. */
  function Pairs(ks: seq<Ustr>, members: Entries<Json>): Ustr
    requires forall k :: k in ks ==> k in Keys(members)
  {
    if ks == [] then []
    else ['"' as int] + Escape(ks[0]) + ['"' as int, ':' as int] + Canonicalize(Lookup(members, ks[0]))
         + (if |ks| == 1 then [] else [',' as int] + Pairs(ks[1..], members))
  }

  lemma {:induction false} LookupText(members: Entries<Json>, k: Ustr)
    requires k in Keys(members)
    ensures Lookup(CanonicalizeMembers(members), k) == Canonicalize(Lookup(members, k))
    decreases members
  {
    if members.key != k {
      LookupText(members.tail, k);
    }
  }

  lemma {:induction false} LookupInserted<T>(k: Ustr, v: T, es: Entries<T>, other: Ustr)
    requires k !in Keys(es) && other in Keys(es) + {k}
    ensures Lookup(Insert(k, v, es), other) == if other == k then v else Lookup(es, other)
  {
    if es.Entry? && !Less(k, es.key) && other != es.key {
      LookupInserted(k, v, es.tail, other);
    }
  }

  lemma {:induction false} LookupSorted<T>(es: Entries<T>, k: Ustr)
    requires Distinct(es) && k in Keys(es)
    ensures Lookup(Sort(es), k) == Lookup(es, k)
  {
    LookupInserted(es.key, es.value, Sort(es.tail), k);
    if k != es.key {
      LookupSorted(es.tail, k);
    }
  }

  lemma OnePair(k: Ustr, text: Ustr)
    ensures Quoted(k) + [COLON] + text == ['"' as int] + Escape(k) + ['"' as int, ':' as int] + text
  {
    assert ['"' as int, ':' as int] == [QUOTE] + [COLON];
  }

  lemma {:induction false} MembersArePairs(texts: Entries<Ustr>, members: Entries<Json>)
    requires Distinct(texts) && Keys(texts) <= Keys(members)
    requires forall k :: k in Keys(texts) ==> Lookup(texts, k) == Canonicalize(Lookup(members, k))
    ensures Members(texts) == Pairs(KeyList(texts), members)
    decreases texts
  {
    if texts.Entry? {
      var k := texts.key;
      assert Lookup(texts, k) == texts.value;
      OnePair(k, texts.value);
      assert KeyList(texts)[1..] == KeyList(texts.tail);
      assert |KeyList(texts)| == 1 <==> texts.tail.Empty?;
      forall x | x in Keys(texts.tail) ensures Lookup(texts.tail, x) == Canonicalize(Lookup(members, x)) {
        assert x in Keys(texts) && x != k;
      }
      MembersArePairs(texts.tail, members);
    }
  }

  lemma SortedTexts(members: Entries<Json>) returns (sorted: Entries<Ustr>)
    requires Distinct(members)
    ensures sorted == Sort(CanonicalizeMembers(members))
    ensures Keys(sorted) == Keys(members) && Distinct(sorted) && Ascending(sorted)
    ensures forall k :: k in Keys(sorted) ==> Lookup(sorted, k) == Canonicalize(Lookup(members, k))
  {
    var texts := CanonicalizeMembers(members);
    sorted := Sort(texts);
    TextsDistinct(members);
    SortAscending(texts);
    AscendingDistinct(sorted);
    forall k | k in Keys(sorted) ensures Lookup(sorted, k) == Canonicalize(Lookup(members, k)) {
      LookupSorted(texts, k);
      LookupText(members, k);
    }
  }

  /** An object is written with all its keys and no other, in the one order in
      which each is before those that follow it, each with its own value. */
  lemma ObjectText(members: Entries<Json>) returns (ks: seq<Ustr>)
    requires Distinct(members)
    ensures forall k :: k in ks <==> k in Keys(members)
    ensures forall i, j :: 0 <= i < j < |ks| ==> Before(ks[i], ks[j])
    ensures Canonicalize(JObj(members)) == ['{' as int] + Pairs(ks, members) + ['}' as int]
  {
    var sorted := SortedTexts(members);
    ks := KeyList(sorted);
    AscendingList(sorted);
    MembersArePairs(sorted, members);
  }

  lemma {:induction false} TextsDistinct(members: Entries<Json>)
    requires Distinct(members)
    ensures Distinct(CanonicalizeMembers(members))
    decreases members
  {
    if members.Entry? {
      TextsDistinct(members.tail);
    }
  }

  /** And the order in which a list of keys is like that is decided by the keys. */
  lemma {:induction false} OneOrder(ks: seq<Ustr>, ls: seq<Ustr>)
    requires forall k :: k in ks <==> k in ls
    requires forall i, j :: 0 <= i < j < |ks| ==> Before(ks[i], ks[j])
    requires forall i, j :: 0 <= i < j < |ls| ==> Before(ls[i], ls[j])
    ensures ks == ls
  {
    assert ks == [] <==> ls == [] by {
      if ks != [] { assert ks[0] in ks; }
      if ls != [] { assert ls[0] in ls; }
    }
    if ks != [] {
      SameFirst(ks, ls);
      forall k ensures k in ks[1..] <==> k in ls[1..] {
        RestExactly(ks, k);
        RestExactly(ls, k);
      }
      forall i, j | 0 <= i < j < |ks[1..]| ensures Before(ks[1..][i], ks[1..][j]) {
        assert Before(ks[i + 1], ks[j + 1]);
      }
      forall i, j | 0 <= i < j < |ls[1..]| ensures Before(ls[1..][i], ls[1..][j]) {
        assert Before(ls[i + 1], ls[j + 1]);
      }
      OneOrder(ks[1..], ls[1..]);
    }
  }

  lemma BeforeOneWay(a: Ustr, b: Ustr)
    ensures !(Before(a, b) && Before(b, a)) && !Before(a, a)
  {
    LessExactly(a, b);
    LessExactly(b, a);
    LessExactly(a, a);
    LessTotal(a, b);
  }

  lemma SameFirst(ks: seq<Ustr>, ls: seq<Ustr>)
    requires ks != [] && ls != [] && forall k :: k in ks <==> k in ls
    requires forall i, j :: 0 <= i < j < |ks| ==> Before(ks[i], ks[j])
    requires forall i, j :: 0 <= i < j < |ls| ==> Before(ls[i], ls[j])
    ensures ks[0] == ls[0]
  {
    assert ks[0] in ls && ls[0] in ks;
    var i :| 0 <= i < |ls| && ls[i] == ks[0];
    var j :| 0 <= j < |ks| && ks[j] == ls[0];
    if i > 0 && j > 0 {
      assert Before(ls[0], ls[i]) && Before(ks[0], ks[j]);
      BeforeOneWay(ls[0], ks[0]);
    }
  }

  lemma RestExactly(ks: seq<Ustr>, k: Ustr)
    requires ks != [] && forall i, j :: 0 <= i < j < |ks| ==> Before(ks[i], ks[j])
    ensures k in ks[1..] <==> k in ks && k != ks[0]
  {
    BeforeOneWay(ks[0], ks[0]);
    if k in ks[1..] {
      var i :| 0 <= i < |ks[1..]| && ks[1..][i] == k;
      assert Before(ks[0], ks[i + 1]);
      assert ks[i + 1] == k;
    }
    if k in ks && k != ks[0] {
      var i :| 0 <= i < |ks| && ks[i] == k;
      assert ks[1..][i - 1] == k;
    }
  }

  // ---- Words, lists and strings ----

  lemma Words()
    ensures Canonicalize(JNull) == ['n' as int, 'u' as int, 'l' as int, 'l' as int]
    ensures Canonicalize(JUndefined) == Canonicalize(JNull)
    ensures Canonicalize(JBool(true)) == ['t' as int, 'r' as int, 'u' as int, 'e' as int]
    ensures Canonicalize(JBool(false)) == ['f' as int, 'a' as int, 'l' as int, 's' as int, 'e' as int]
  {
  }

  /** A number is its shortest text, minus zero zero, and what is not finite null. */
  lemma NumberWords(n: Number)
    ensures Canonicalize(JNum(n))
         == if n.Numeral? then n.text else if n.NegativeZero? then ['0' as int] else Canonicalize(JNull)
  {
  }

  function Commas(items: Items): Ustr {
    match items
    case NoItems => []
    case Item(h, t) => Canonicalize(h) + (if t.NoItems? then [] else [',' as int] + Commas(t))
  }

  lemma {:induction false} CommasAre(items: Items)
    ensures CanonicalizeItems(items) == Commas(items)
  {
    if items.Item? {
      CommasAre(items.tail);
    }
  }

  /** An array is written in order; nothing is sorted but keys. */
  lemma ArrayText(items: Items)
    ensures Canonicalize(JArr(items)) == ['[' as int] + Commas(items) + [']' as int]
  {
    CommasAre(items);
  }

  function Hex(d: nat): Unit
    requires d < 16
  {
    if d < 10 then '0' as int + d else 'a' as int + (d - 10)
  }

  /** What follows the backslash of a short escape. */
  function Short(u: Unit): Option<char> {
    if u == 34 then Some('"')
    else if u == 92 then Some('\\')
    else if u == 8 then Some('b')
    else if u == 9 then Some('t')
    else if u == 10 then Some('n')
    else if u == 12 then Some('f')
    else if u == 13 then Some('r')
    else None
  }

  function HexEscape(u: Unit): Ustr {
    ['\\' as int, 'u' as int, Hex(u / 4096), Hex(u / 256 % 16), Hex(u / 16 % 16), Hex(u % 16)]
  }

  lemma HexEscapeIs(u: Unit)
    ensures UnicodeEscape(u) == HexEscape(u)
  {
    assert u / 16 / 16 / 16 == u / 4096 && u / 16 / 16 % 16 == u / 256 % 16;
  }

  /** The escapes of `JSON.stringify`: a short one where there is one, a hex one
      for the other controls and for surrogates without a partner. */
  lemma EscapesExactly(u: Unit)
    ensures EscapeUnit(u)
         == if Short(u).Some? then ['\\' as int, Short(u).value as int]
            else if u < 32 || 0xD800 <= u <= 0xDFFF then HexEscape(u)
            else [u]
  {
    HexEscapeIs(u);
  }

  /** A pair of surrogates is written as it is. */
  lemma PairText(high: Unit, low: Unit)
    requires 0xD800 <= high <= 0xDBFF && 0xDC00 <= low <= 0xDFFF
    ensures Canonicalize(JStr([high, low])) == ['"' as int, high, low, '"' as int]
  {
    assert [high, low][2..] == [];
    assert Escape([high, low]) == [high, low];
  }

  predicate Ordinary(u: Unit) { u >= 32 && u != 34 && u != 92 && !(0xD800 <= u <= 0xDFFF) }

  lemma {:induction false} OrdinaryText(s: Ustr)
    requires forall i :: 0 <= i < |s| ==> Ordinary(s[i])
    ensures Escape(s) == s
  {
    if s != [] {
      OrdinaryText(s[1..]);
      assert [s[0]] + s[1..] == s;
    }
  }

  // ---- White space ----

  lemma {:induction false} SpaceSkipped(before: Ustr, s: Ustr)
    requires forall i :: 0 <= i < |before| ==> before[i] in {9, 10, 13, 32}
    ensures Skip(before + s) == Skip(s)
  {
    if before == [] {
      assert before + s == s;
    } else {
      assert (before + s)[1..] == before[1..] + s;
      SpaceSkipped(before[1..], s);
    }
  }

  /** Blanks before a value change nothing, and nothing else is a blank. */
  lemma SpaceBefore(r: Reader, before: Ustr, s: Ustr)
    requires forall i :: 0 <= i < |before| ==> before[i] in {9, 10, 13, 32}
    ensures Parse(r, before + s) == Parse(r, s)
  {
    SpaceSkipped(before, s);
  }

  // ---- What is signed ----

  /** An empty body and one that is no JSON are signed as they are; JSON in its
      canonical form, blanks before it or not. */
  lemma SignedBody(r: Reader, body: Ustr)
    ensures body == [] ==> SigningBody(r, body) == []
    ensures Parse(r, body).Fail? ==> SigningBody(r, body) == body
    ensures body != [] && Parse(r, body).Got? ==> SigningBody(r, body) == Canonicalize(Parse(r, body).value)
  {
  }

  lemma MessageMore(line: Ustr, lines: seq<Ustr>, body: Ustr)
    ensures Message([line] + lines, body) == line + [10] + Message(lines, body)
  {
    assert ([line] + lines)[1..] == lines;
  }

  /** Method, path, timestamp, nonce and body, in this order, a newline after each
      but the last. */
  lemma SignedMessage(verb: Ustr, path: Ustr, timestamp: Ustr, nonce: Ustr, body: Ustr)
    ensures Message([verb, path, timestamp, nonce], body)
         == verb + [10] + (path + [10] + (timestamp + [10] + (nonce + [10] + body)))
  {
    MessageMore(verb, [path, timestamp, nonce], body);
    MessageMore(path, [timestamp, nonce], body);
    MessageMore(timestamp, [nonce], body);
    assert [verb] + [path, timestamp, nonce] == [verb, path, timestamp, nonce];
    assert [path] + [timestamp, nonce] == [path, timestamp, nonce] && [timestamp] + [nonce] == [timestamp, nonce];
    MessageOne(nonce, body);
  }

  // ---- Numbers and hex digits in JSON ----

  predicate DigitsOnly(s: Ustr) { s != [] && forall i :: 0 <= i < |s| ==> '0' as int <= s[i] <= '9' as int }

  predicate Whole(w: Ustr) { DigitsOnly(w) && (w[0] == '0' as int ==> |w| == 1) }

  predicate Fraction(f: Ustr) { f != [] ==> f[0] == '.' as int && DigitsOnly(f[1..]) }

  predicate Exponent(e: Ustr) {
    e != [] ==>
      (e[0] == 'e' as int || e[0] == 'E' as int) && |e| > 1
      && DigitsOnly(if e[1] == '+' as int || e[1] == '-' as int then e[2..] else e[1..])
  }

  predicate Sign(s: Ustr) { s == [] || s == ['-' as int] }

  lemma {:induction false} DigitsOf(s: Ustr)
    ensures forall i :: 0 <= i < Digits(s) ==> '0' as int <= s[i] <= '9' as int
    ensures Digits(s) < |s| ==> !('0' as int <= s[Digits(s)] <= '9' as int)
  {
    if s != [] && '0' as int <= s[0] <= '9' as int {
      DigitsOf(s[1..]);
    }
  }

  lemma {:induction false} DigitsOfRun(d: Ustr, rest: Ustr)
    requires forall i :: 0 <= i < |d| ==> '0' as int <= d[i] <= '9' as int
    requires rest == [] || !('0' as int <= rest[0] <= '9' as int)
    ensures Digits(d + rest) == |d| && (d + rest)[..|d|] == d && (d + rest)[|d|..] == rest
  {
    if d == [] {
      assert d + rest == rest;
    } else {
      assert (d + rest)[1..] == d[1..] + rest;
      DigitsOfRun(d[1..], rest);
    }
  }

  lemma ExponentExactly(e: Ustr)
    ensures ExponentText(e) <==> Exponent(e)
  {
    if e != [] {
      var u := if |e| > 1 && (e[1] == 43 || e[1] == 45) then e[2..] else e[1..];
      DigitsOf(u);
      if DigitsOnly(u) {
        DigitsOfRun(u, []);
        assert u + [] == u;
      }
    }
  }

  lemma FractionReads(f: Ustr, e: Ustr)
    requires Fraction(f) && Exponent(e)
    ensures FractionText(f + e)
  {
    ExponentExactly(e);
    if f == [] {
      assert f + e == e;
    } else {
      assert (f + e)[1..] == f[1..] + e;
      DigitsOfRun(f[1..], e);
    }
  }

  lemma FractionCut(t: Ustr) returns (f: Ustr, e: Ustr)
    requires FractionText(t)
    ensures Fraction(f) && Exponent(e) && t == f + e
  {
    if t != [] && t[0] == '.' as int {
      var m := Digits(t[1..]);
      f, e := t[..m + 1], t[m + 1..];
      DigitsOf(t[1..]);
      assert f[1..] == t[1..][..m] && e == t[1..][m..];
    } else {
      f, e := [], t;
    }
    ExponentExactly(e);
  }

  predicate Cut(s: Ustr, sign: Ustr, w: Ustr, f: Ustr, e: Ustr) {
    Sign(sign) && Whole(w) && Fraction(f) && Exponent(e) && s == sign + (w + (f + e))
  }

  lemma WholeCut(t: Ustr) returns (w: Ustr, f: Ustr, e: Ustr)
    requires Digits(t) >= 1 && (t[0] == 48 ==> Digits(t) == 1) && FractionText(t[Digits(t)..])
    ensures Whole(w) && Fraction(f) && Exponent(e) && t == w + (f + e)
  {
    var n := Digits(t);
    DigitsOf(t);
    w := t[..n];
    f, e := FractionCut(t[n..]);
    assert t == t[..n] + t[n..];
  }

  lemma NumberCut(s: Ustr) returns (sign: Ustr, w: Ustr, f: Ustr, e: Ustr)
    requires NumberText(s)
    ensures Cut(s, sign, w, f, e)
  {
    var t := if s[0] == 45 then s[1..] else s;
    sign := if s[0] == 45 then [45] else [];
    w, f, e := WholeCut(t);
    assert s == sign + t;
  }

  /** The numbers of section 6 of RFC 8259: a sign, digits without a zero in front,
      a fraction, an exponent. */
  lemma NumberExactly(s: Ustr)
    ensures NumberText(s) <==> exists sign, w, f, e :: Cut(s, sign, w, f, e)
  {
    if NumberText(s) {
      var sign, w, f, e := NumberCut(s);
    }
    if sign, w, f, e :| Cut(s, sign, w, f, e) {
      NumberReads(s, sign, w, f, e);
    }
  }

  lemma NumberReads(s: Ustr, sign: Ustr, w: Ustr, f: Ustr, e: Ustr)
    requires Cut(s, sign, w, f, e)
    ensures NumberText(s)
  {
    var t := w + (f + e);
    assert sign == [] ==> s == t;
    assert sign != [] ==> s[0] == 45 && s[1..] == t;
    assert t[0] == w[0];
    DigitsOfRun(w, f + e);
    FractionReads(f, e);
  }

  /** Hex digits are read in either case. */
  lemma HexReads(u: Unit, d: nat)
    requires d < 16
    ensures HexValue(u) == d <==> u == Hex(d) || (d >= 10 && u == 'A' as int + (d - 10))
    ensures -1 <= HexValue(u) < 16
  {
  }

  /** Of a key that is repeated the last value counts, in the place of the first. */
  lemma RepeatedKey(k: Ustr, v: Json, members: Entries<Json>)
    ensures Lookup(Settle(Entry(k, v, members)), k) == if k in Keys(members) then Lookup(Settle(members), k) else v
    ensures Settle(Entry(k, v, members)).key == k
  {
  }

  // ---- Numbers are read as written ----

  predicate InNumber(u: Unit) { '0' as int <= u <= '9' as int || u in {43, 45, 46, 69, 101} }

  lemma PartsInNumber(s: Ustr, sign: Ustr, w: Ustr, f: Ustr, e: Ustr)
    requires Cut(s, sign, w, f, e)
    ensures forall i :: 0 <= i < |s| ==> InNumber(s[i])
  {
    assert forall i :: 0 < i < |f| ==> f[i] == f[1..][i - 1];
    assert forall i :: 0 < i < |e| ==> e[i] == e[1..][i - 1];
    assert |e| > 1 ==> forall i :: 1 < i < |e| ==> e[i] == e[2..][i - 2];
    assert forall i :: 0 <= i < |e| ==> InNumber(e[i]);
    assert forall i :: 0 <= i < |f| ==> InNumber(f[i]);
  }

  /** Every number JSON has is read, up to what follows it. */
  lemma NumberIsRead(r: Reader, s: Ustr, rest: Ustr)
    requires NumberText(s) && (rest == [] || !InNumber(rest[0]))
    ensures ParseNumber(r, s + rest) == Got(JNum(r.read(s)), rest)
  {
    var sign, w, f, e := NumberCut(s);
    PartsInNumber(s, sign, w, f, e);
    RunIs(s, rest);
    assert (s + rest)[..|s|] == s && (s + rest)[|s|..] == rest;
  }

  lemma {:induction false} RunIs(s: Ustr, rest: Ustr)
    requires (forall i :: 0 <= i < |s| ==> InNumber(s[i])) && (rest == [] || !InNumber(rest[0]))
    ensures NumberRun(s + rest) == |s|
  {
    if s == [] {
      assert s + rest == rest;
    } else {
      assert (s + rest)[1..] == s[1..] + rest;
      RunIs(s[1..], rest);
    }
  }
}
