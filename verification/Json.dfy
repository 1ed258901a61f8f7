/** JSON over UTF-16 code units: values, the text `JSON.parse` accepts, and the
    escapes `JSON.stringify` writes. */
module Json {

  type Unit = u: nat | u < 0x10000
  type Ustr = seq<Unit>

  const NULL_TEXT: Ustr := [110, 117, 108, 108]
  const TRUE_TEXT: Ustr := [116, 114, 117, 101]
  const FALSE_TEXT: Ustr := [102, 97, 108, 115, 101]
  const ZERO: Ustr := [48]
  const QUOTE: Unit := 34
  const COMMA: Unit := 44
  const COLON: Unit := 58
  const OPEN_ARRAY: Unit := 91
  const CLOSE_ARRAY: Unit := 93
  const OPEN_OBJECT: Unit := 123
  const CLOSE_OBJECT: Unit := 125
  const BACKSLASH: Unit := 92

  /** A number is the shortest text that denotes it, or one of the two kinds of
      number whose printed text does not read back as themselves. */
  datatype Number = Numeral(text: Ustr) | NegativeZero | NotFinite

  /** Keyed entries in insertion order, as an object holds its properties. */
  datatype Entries<T> = Empty | Entry(key: Ustr, value: T, tail: Entries<T>)

  datatype Json =
    | JNull
    | JUndefined
    | JBool(b: bool)
    | JNum(n: Number)
    | JStr(s: Ustr)
    | JArr(items: Items)
    | JObj(members: Entries<Json>)

  datatype Items = NoItems | Item(head: Json, tail: Items)

  // ---- Numbers ----

  predicate IsDigit(u: Unit) { 48 <= u <= 57 }

  predicate NumberUnit(u: Unit) {
    IsDigit(u) || u == 43 || u == 45 || u == 46 || u == 69 || u == 101
  }

  function Digits(s: Ustr): (n: nat)
    ensures n <= |s|
  {
    if s != [] && IsDigit(s[0]) then 1 + Digits(s[1..]) else 0
  }

  /** `-? (0 | [1-9][0-9]*) (. [0-9]+)? ([eE] [+-]? [0-9]+)?` */
  predicate NumberText(s: Ustr) {
    var t := if s != [] && s[0] == 45 then s[1..] else s;
    var n := Digits(t);
    n >= 1 && (t[0] == 48 ==> n == 1) && FractionText(t[n..])
  }

  predicate FractionText(t: Ustr) {
    if t != [] && t[0] == 46 then Digits(t[1..]) >= 1 && ExponentText(t[1..][Digits(t[1..])..])
    else ExponentText(t)
  }

  predicate ExponentText(t: Ustr) {
    if t == [] then true
    else if t[0] != 69 && t[0] != 101 then false
    else
      var u := if |t| > 1 && (t[1] == 43 || t[1] == 45) then t[2..] else t[1..];
      u != [] && Digits(u) == |u|
  }

  /** How numbers are read: an arbitrary reading of number texts into numbers
      whose shortest texts are number texts that read back as themselves. */
  datatype Reader = Reader(read: Ustr -> Number)

  predicate Shortest(r: Reader, t: Ustr) {
    NumberText(t) && AllNumber(t) && r.read(t) == Numeral(t)
  }

  ghost predicate Sound(r: Reader) {
    Shortest(r, ZERO) && forall t :: NumberText(t) && r.read(t).Numeral? ==> Shortest(r, r.read(t).text)
  }

  predicate AllNumber(s: Ustr) {
    forall i :: 0 <= i < |s| ==> NumberUnit(s[i])
  }

  // ---- What makes a value well formed ----

  function Keys<T>(es: Entries<T>): set<Ustr> {
    match es case Empty => {} case Entry(k, _, tail) => {k} + Keys(tail)
  }

  predicate Distinct<T>(es: Entries<T>) {
    match es case Empty => true case Entry(k, _, tail) => k !in Keys(tail) && Distinct(tail)
  }

  predicate WellFormed(r: Reader, v: Json)
    decreases v
  {
    match v
    case JNum(Numeral(t)) => Shortest(r, t)
    case JArr(items) => WellFormedItems(r, items)
    case JObj(members) => Distinct(members) && WellFormedMembers(r, members)
    case _ => true
  }

  predicate WellFormedItems(r: Reader, items: Items)
    decreases items
  {
    match items case NoItems => true case Item(h, t) => WellFormed(r, h) && WellFormedItems(r, t)
  }

  predicate WellFormedMembers(r: Reader, members: Entries<Json>)
    decreases members
  {
    match members case Empty => true case Entry(_, v, t) => WellFormed(r, v) && WellFormedMembers(r, t)
  }

  // ---- Strings ----

  predicate High(u: Unit) { 0xD800 <= u <= 0xDBFF }
  predicate Low(u: Unit) { 0xDC00 <= u <= 0xDFFF }

  function HexUnit(d: nat): Unit
    requires d < 16
  {
    if d < 10 then 48 + d else 87 + d
  }

  function HexValue(u: Unit): int {
    if 48 <= u <= 57 then u - 48 else if 97 <= u <= 102 then u - 87 else if 65 <= u <= 70 then u - 55 else -1
  }

  function UnicodeEscape(u: Unit): (e: Ustr)
    ensures |e| == 6
  {
    var q := u / 16;
    [BACKSLASH, 117, HexUnit(q / 16 / 16), HexUnit(q / 16 % 16), HexUnit(q % 16), HexUnit(u % 16)]
  }

  function EscapeUnit(u: Unit): Ustr {
    if u == QUOTE || u == BACKSLASH then [BACKSLASH, u]
    else if u == 8 then [BACKSLASH, 98]
    else if u == 9 then [BACKSLASH, 116]
    else if u == 10 then [BACKSLASH, 110]
    else if u == 12 then [BACKSLASH, 102]
    else if u == 13 then [BACKSLASH, 114]
    else if u < 32 || High(u) || Low(u) then UnicodeEscape(u)
    else [u]
  }

  /** The body `JSON.stringify` writes: surrogate pairs stay, lone surrogates are
      escaped. */
  function Escape(s: Ustr): Ustr {
    if s == [] then []
    else if High(s[0]) && |s| > 1 && Low(s[1]) then [s[0], s[1]] + Escape(s[2..])
    else EscapeUnit(s[0]) + Escape(s[1..])
  }

  function Quoted(s: Ustr): Ustr { [QUOTE] + Escape(s) + [QUOTE] }

  datatype Parsed<+T> = Fail | Got(value: T, rest: Ustr)

  function UnicodeValue(s: Ustr): int
    requires |s| >= 4
  {
    if HexValue(s[0]) < 0 || HexValue(s[1]) < 0 || HexValue(s[2]) < 0 || HexValue(s[3]) < 0 then -1
    else 4096 * HexValue(s[0]) + 256 * HexValue(s[1]) + 16 * HexValue(s[2]) + HexValue(s[3])
  }

  /** One escape, behind its backslash. */
  function ParseEscape(s: Ustr): (p: Parsed<Unit>)
    ensures p.Got? ==> |p.rest| < |s|
  {
    if s == [] then Fail
    else if s[0] == QUOTE || s[0] == BACKSLASH || s[0] == 47 then Got(s[0], s[1..])
    else if s[0] == 98 then Got(8, s[1..])
    else if s[0] == 102 then Got(12, s[1..])
    else if s[0] == 110 then Got(10, s[1..])
    else if s[0] == 114 then Got(13, s[1..])
    else if s[0] == 116 then Got(9, s[1..])
    else if s[0] == 117 && |s| >= 5 && 0 <= UnicodeValue(s[1..5]) < 0x10000 then Got(UnicodeValue(s[1..5]), s[5..])
    else Fail
  }

  /** A string, behind its opening quote. */
  function ParseString(s: Ustr): (p: Parsed<Ustr>)
    ensures p.Got? ==> |p.rest| < |s|
  {
    if s == [] || s[0] < 32 then Fail
    else if s[0] == QUOTE then Got([], s[1..])
    else if s[0] == BACKSLASH then
      var e := ParseEscape(s[1..]);
      if e.Fail? then Fail
      else
        var more := ParseString(e.rest);
        if more.Fail? then Fail else Got([e.value] + more.value, more.rest)
    else
      var more := ParseString(s[1..]);
      if more.Fail? then Fail else Got([s[0]] + more.value, more.rest)
  }

  // ---- Values ----

  predicate IsSpace(u: Unit) { u == 32 || u == 9 || u == 10 || u == 13 }

  function Skip(s: Ustr): (r: Ustr)
    ensures |r| <= |s|
  {
    if s != [] && IsSpace(s[0]) then Skip(s[1..]) else s
  }

  function NumberRun(s: Ustr): (n: nat)
    ensures n <= |s|
  {
    if s != [] && NumberUnit(s[0]) then 1 + NumberRun(s[1..]) else 0
  }

  function Lookup<T>(es: Entries<T>, k: Ustr): T
    requires k in Keys(es)
  {
    if es.key == k then es.value else Lookup(es.tail, k)
  }

  function Remove<T>(es: Entries<T>, k: Ustr): (r: Entries<T>)
    ensures Keys(r) == Keys(es) - {k}
    ensures Distinct(es) ==> Distinct(r)
  {
    match es
    case Empty => Empty
    case Entry(key, v, tail) => if key == k then Remove(tail, k) else Entry(key, v, Remove(tail, k))
  }

  /** Repeated keys keep the first place and the last value. */
  function Settle<T>(es: Entries<T>): (r: Entries<T>)
    ensures Keys(r) == Keys(es) && Distinct(r)
  {
    match es
    case Empty => Empty
    case Entry(k, v, tail) =>
      var rest := Settle(tail);
      if k in Keys(rest) then Entry(k, Lookup(rest, k), Remove(rest, k)) else Entry(k, v, rest)
  }

  function ParseValue(r: Reader, s: Ustr): (p: Parsed<Json>)
    ensures p.Got? ==> |p.rest| < |s|
    decreases |s|, 1
  {
    var t := Skip(s);
    if t == [] then Fail
    else if t[0] == OPEN_OBJECT then
      var u := Skip(t[1..]);
      if u != [] && u[0] == CLOSE_OBJECT then Got(JObj(Empty), u[1..])
      else
        var ms := ParseMembers(r, t[1..]);
        if ms.Fail? then Fail else Got(JObj(Settle(ms.value)), ms.rest)
    else if t[0] == OPEN_ARRAY then
      var u := Skip(t[1..]);
      if u != [] && u[0] == CLOSE_ARRAY then Got(JArr(NoItems), u[1..])
      else
        var body := ParseItems(r, t[1..]);
        if body.Fail? then Fail else Got(JArr(body.value), body.rest)
    else if t[0] == QUOTE then
      var q := ParseString(t[1..]);
      if q.Fail? then Fail else Got(JStr(q.value), q.rest)
    else if NULL_TEXT <= t then Got(JNull, t[4..])
    else if TRUE_TEXT <= t then Got(JBool(true), t[4..])
    else if FALSE_TEXT <= t then Got(JBool(false), t[5..])
    else ParseNumber(r, t)
  }

  function ParseNumber(r: Reader, t: Ustr): (p: Parsed<Json>)
    ensures p.Got? ==> |p.rest| < |t|
  {
    var n := NumberRun(t);
    if n > 0 && NumberText(t[..n]) then Got(JNum(r.read(t[..n])), t[n..]) else Fail
  }

  /** The items of a non-empty array, up to its closing bracket. */
  function ParseItems(r: Reader, s: Ustr): (p: Parsed<Items>)
    ensures p.Got? ==> |p.rest| < |s|
    decreases |s|, 2
  {
    var v := ParseValue(r, s);
    if v.Fail? then Fail
    else
      var t := Skip(v.rest);
      if t == [] then Fail
      else if t[0] == CLOSE_ARRAY then Got(Item(v.value, NoItems), t[1..])
      else if t[0] != COMMA then Fail
      else
        var more := ParseItems(r, t[1..]);
        if more.Fail? then Fail else Got(Item(v.value, more.value), more.rest)
  }

  /** One `"key":`. */
  function ParseKey(s: Ustr): (p: Parsed<Ustr>)
    ensures p.Got? ==> |p.rest| < |s|
  {
    var t := Skip(s);
    if t == [] || t[0] != QUOTE then Fail
    else
      var k := ParseString(t[1..]);
      if k.Fail? then Fail
      else
        var u := Skip(k.rest);
        if u == [] || u[0] != COLON then Fail else Got(k.value, u[1..])
  }

  /** The members of a non-empty object, up to its closing brace. */
  function ParseMembers(r: Reader, s: Ustr): (p: Parsed<Entries<Json>>)
    ensures p.Got? ==> |p.rest| < |s|
    decreases |s|, 2
  {
    var k := ParseKey(s);
    if k.Fail? then Fail
    else
      var v := ParseValue(r, k.rest);
      if v.Fail? then Fail
      else
        var t := Skip(v.rest);
        if t == [] then Fail
        else if t[0] == CLOSE_OBJECT then Got(Entry(k.value, v.value, Empty), t[1..])
        else if t[0] != COMMA then Fail
        else
          var more := ParseMembers(r, t[1..]);
          if more.Fail? then Fail else Got(Entry(k.value, v.value, more.value), more.rest)
  }

  /** `JSON.parse`. */
  function Parse(r: Reader, s: Ustr): Parsed<Json> {
    var v := ParseValue(r, s);
    if v.Got? && Skip(v.rest) == [] then v else Fail
  }

  // ---- What parsing yields is well formed ----

  lemma {:induction false} LookupWellFormed(r: Reader, es: Entries<Json>, k: Ustr)
    requires WellFormedMembers(r, es) && k in Keys(es)
    ensures WellFormed(r, Lookup(es, k))
  {
    if es.key != k {
      LookupWellFormed(r, es.tail, k);
    }
  }

  lemma {:induction false} RemoveWellFormed(r: Reader, es: Entries<Json>, k: Ustr)
    requires WellFormedMembers(r, es)
    ensures WellFormedMembers(r, Remove(es, k))
  {
    if es.Entry? {
      RemoveWellFormed(r, es.tail, k);
    }
  }

  lemma {:induction false} SettleWellFormed(r: Reader, es: Entries<Json>)
    requires WellFormedMembers(r, es)
    ensures WellFormedMembers(r, Settle(es))
  {
    if es.Entry? {
      var rest := Settle(es.tail);
      SettleWellFormed(r, es.tail);
      if es.key in Keys(rest) {
        LookupWellFormed(r, rest, es.key);
        RemoveWellFormed(r, rest, es.key);
      }
    }
  }

  lemma {:induction false} ParseValueWellFormed(r: Reader, s: Ustr)
    requires Sound(r) && ParseValue(r, s).Got?
    ensures WellFormed(r, ParseValue(r, s).value)
    decreases |s|, 1
  {
    var t := Skip(s);
    if t[0] == OPEN_OBJECT && !(Skip(t[1..]) != [] && Skip(t[1..])[0] == CLOSE_OBJECT) {
      ParseMembersWellFormed(r, t[1..]);
      SettleWellFormed(r, ParseMembers(r, t[1..]).value);
    } else if t[0] == OPEN_ARRAY && !(Skip(t[1..]) != [] && Skip(t[1..])[0] == CLOSE_ARRAY) {
      ParseItemsWellFormed(r, t[1..]);
    }
  }

  lemma {:induction false} ParseItemsWellFormed(r: Reader, s: Ustr)
    requires Sound(r) && ParseItems(r, s).Got?
    ensures WellFormedItems(r, ParseItems(r, s).value)
    decreases |s|, 2
  {
    var v := ParseValue(r, s);
    ParseValueWellFormed(r, s);
    var t := Skip(v.rest);
    if t[0] == COMMA {
      ParseItemsWellFormed(r, t[1..]);
    }
  }

  lemma {:induction false} ParseMembersWellFormed(r: Reader, s: Ustr)
    requires Sound(r) && ParseMembers(r, s).Got?
    ensures WellFormedMembers(r, ParseMembers(r, s).value)
    decreases |s|, 2
  {
    var k := ParseKey(s);
    var v := ParseValue(r, k.rest);
    ParseValueWellFormed(r, k.rest);
    var t := Skip(v.rest);
    if t[0] == COMMA {
      ParseMembersWellFormed(r, t[1..]);
    }
  }

  // ---- Reading back what is written ----

  function Prepend(u: Unit, more: Parsed<Ustr>): Parsed<Ustr> {
    if more.Fail? then Fail else Got([u] + more.value, more.rest)
  }

  lemma UnicodeEscapeBack(u: Unit, rest: Ustr)
    ensures ParseString(UnicodeEscape(u) + rest) == Prepend(u, ParseString(rest))
  {
    var s := UnicodeEscape(u) + rest;
    assert s[1..][1..5] == UnicodeEscape(u)[2..];
    assert s[1..][5..] == rest;
    assert ParseEscape(s[1..]) == Got(u, rest);
  }

  lemma EscapeUnitBack(u: Unit, rest: Ustr)
    ensures ParseString(EscapeUnit(u) + rest) == Prepend(u, ParseString(rest))
  {
    if u == QUOTE || u == BACKSLASH || u in {8, 9, 10, 12, 13} {
      assert (EscapeUnit(u) + rest)[1..][1..] == rest;
    } else if u < 32 || High(u) || Low(u) {
      UnicodeEscapeBack(u, rest);
    }
  }

  lemma AssocUnits(a: Ustr, b: Ustr, c: Ustr, d: Ustr)
    ensures a + b + c + d == a + (b + c + d)
  {
  }

  lemma {:induction false} EscapeBack(s: Ustr, rest: Ustr)
    ensures ParseString(Escape(s) + [QUOTE] + rest) == Got(s, rest)
  {
    if s == [] {
      assert (Escape(s) + [QUOTE] + rest)[1..] == rest;
    } else if High(s[0]) && |s| > 1 && Low(s[1]) {
      var tail := Escape(s[2..]) + [QUOTE] + rest;
      EscapeBack(s[2..], rest);
      AssocUnits([s[0], s[1]], Escape(s[2..]), [QUOTE], rest);
      assert [s[0], s[1]] + tail == [s[0]] + ([s[1]] + tail);
      assert [s[0]] + ([s[1]] + s[2..]) == s;
    } else {
      EscapeBack(s[1..], rest);
      AssocUnits(EscapeUnit(s[0]), Escape(s[1..]), [QUOTE], rest);
      EscapeUnitBack(s[0], Escape(s[1..]) + [QUOTE] + rest);
      assert [s[0]] + s[1..] == s;
    }
  }

  /** The rest of a text behind a value: nothing that could extend a number. */
  predicate Bounded(rest: Ustr) {
    rest == [] || rest[0] == COMMA || rest[0] == CLOSE_ARRAY || rest[0] == CLOSE_OBJECT
  }

  lemma {:induction false} NumberRunBack(t: Ustr, rest: Ustr)
    requires AllNumber(t) && Bounded(rest)
    ensures NumberRun(t + rest) == |t|
  {
    if t == [] {
      assert t + rest == rest;
    } else {
      assert (t + rest)[1..] == t[1..] + rest;
      NumberRunBack(t[1..], rest);
    }
  }
}
