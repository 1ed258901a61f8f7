/** Canonical JSON, the text a request signature is computed over (sections
    3.2.2 and 3.2.3 of RFC 8785), and the signed message built from it. */
module Canonical {
  import opened Json

  // ---- Key order ----

  /** Order of UTF-16 code units, as `Array.prototype.sort` compares strings. */
  predicate Less(a: Ustr, b: Ustr) {
    b != [] && (a == [] || a[0] < b[0] || (a[0] == b[0] && Less(a[1..], b[1..])))
  }

  lemma {:induction false} LessTotal(a: Ustr, b: Ustr)
    ensures Less(a, b) || a == b || Less(b, a)
    ensures !(Less(a, b) && Less(b, a)) && !(a == b && Less(a, b))
  {
    if a != [] && b != [] && a[0] == b[0] {
      LessTotal(a[1..], b[1..]);
      assert a == [a[0]] + a[1..] && b == [b[0]] + b[1..];
    }
  }

  lemma {:induction false} LessTransitive(a: Ustr, b: Ustr, c: Ustr)
    requires Less(a, b) && Less(b, c)
    ensures Less(a, c)
  {
    if a != [] && a[0] == b[0] && b[0] == c[0] {
      LessTransitive(a[1..], b[1..], c[1..]);
    }
  }

  function Insert<T>(k: Ustr, v: T, es: Entries<T>): (r: Entries<T>)
    ensures Keys(r) == {k} + Keys(es)
  {
    match es
    case Empty => Entry(k, v, Empty)
    case Entry(key, value, tail) =>
      if Less(k, key) then Entry(k, v, es) else Entry(key, value, Insert(k, v, tail))
  }

  function Sort<T>(es: Entries<T>): (r: Entries<T>)
    ensures Keys(r) == Keys(es)
  {
    match es case Empty => Empty case Entry(k, v, tail) => Insert(k, v, Sort(tail))
  }

  // ---- The canonical text ----

  function NumberAsText(n: Number): Ustr {
    match n case Numeral(t) => t case NegativeZero => ZERO case NotFinite => NULL_TEXT
  }

  function Canonicalize(v: Json): Ustr
    decreases v
  {
    match v
    case JNull => NULL_TEXT
    case JUndefined => NULL_TEXT
    case JBool(b) => if b then TRUE_TEXT else FALSE_TEXT
    case JNum(n) => NumberAsText(n)
    case JStr(s) => Quoted(s)
    case JArr(items) => [OPEN_ARRAY] + CanonicalizeItems(items) + [CLOSE_ARRAY]
    case JObj(members) => [OPEN_OBJECT] + Members(Sort(CanonicalizeMembers(members))) + [CLOSE_OBJECT]
  }

  function CanonicalizeItems(items: Items): Ustr
    decreases items
  {
    match items
    case NoItems => []
    case Item(h, t) => Canonicalize(h) + (if t.NoItems? then [] else [COMMA] + CanonicalizeItems(t))
  }

  function CanonicalizeMembers(members: Entries<Json>): (texts: Entries<Ustr>)
    ensures Keys(texts) == Keys(members)
    decreases members
  {
    match members
    case Empty => Empty
    case Entry(k, v, t) => Entry(k, Canonicalize(v), CanonicalizeMembers(t))
  }

  /** `"key":text` pairs joined by commas. */
  function Members(texts: Entries<Ustr>): Ustr {
    match texts
    case Empty => []
    case Entry(k, text, t) => Quoted(k) + [COLON] + text + (if t.Empty? then [] else [COMMA] + Members(t))
  }

  // ---- What a value says, apart from the order of its members ----

  datatype Meaning =
    | MNull
    | MUndefined
    | MBool(b: bool)
    | MNum(n: Number)
    | MStr(s: Ustr)
    | MArr(items: seq<Meaning>)
    | MObj(members: map<Ustr, Meaning>)

  function Meant(v: Json): Meaning
    decreases v
  {
    match v
    case JNull => MNull
    case JUndefined => MUndefined
    case JBool(b) => MBool(b)
    case JNum(n) => MNum(n)
    case JStr(s) => MStr(s)
    case JArr(items) => MArr(MeantItems(items))
    case JObj(members) => MObj(MeantMembers(members))
  }

  function MeantItems(items: Items): seq<Meaning>
    decreases items
  {
    match items case NoItems => [] case Item(h, t) => [Meant(h)] + MeantItems(t)
  }

  function MeantMembers(members: Entries<Json>): (m: map<Ustr, Meaning>)
    ensures m.Keys == Keys(members)
    decreases members
  {
    match members case Empty => map[] case Entry(k, v, t) => MeantMembers(t)[k := Meant(v)]
  }

  /** What survives being written: `undefined` and numbers that are not finite
      become null, minus zero becomes zero. */
  function Carried(v: Json): Json
    decreases v
  {
    match v
    case JUndefined => JNull
    case JNum(NotFinite) => JNull
    case JNum(NegativeZero) => JNum(Numeral(ZERO))
    case JArr(items) => JArr(CarriedItems(items))
    case JObj(members) => JObj(CarriedMembers(members))
    case _ => v
  }

  function CarriedItems(items: Items): Items
    decreases items
  {
    match items case NoItems => NoItems case Item(h, t) => Item(Carried(h), CarriedItems(t))
  }

  function CarriedMembers(members: Entries<Json>): (r: Entries<Json>)
    ensures Keys(r) == Keys(members)
    decreases members
  {
    match members case Empty => Empty case Entry(k, v, t) => Entry(k, Carried(v), CarriedMembers(t))
  }

  /** Members sorted at every level. */
  function Sorted(v: Json): Json
    decreases v
  {
    match v
    case JArr(items) => JArr(SortedItems(items))
    case JObj(members) => JObj(Sort(SortedMembers(members)))
    case _ => v
  }

  function SortedItems(items: Items): Items
    decreases items
  {
    match items case NoItems => NoItems case Item(h, t) => Item(Sorted(h), SortedItems(t))
  }

  function SortedMembers(members: Entries<Json>): (r: Entries<Json>)
    ensures Keys(r) == Keys(members)
    decreases members
  {
    match members case Empty => Empty case Entry(k, v, t) => Entry(k, Sorted(v), SortedMembers(t))
  }

  /** The value whose own text, written in its own order, is canonical. */
  function Normal(v: Json): Json { Sorted(Carried(v)) }

  // ---- Sorting keeps the members and decides their order ----

  predicate Below<T>(k: Ustr, es: Entries<T>) {
    es.Entry? ==> Less(k, es.key)
  }

  predicate Ascending<T>(es: Entries<T>) {
    match es case Empty => true case Entry(k, _, t) => Below(k, t) && Ascending(t)
  }

  lemma {:induction false} AscendingBelow<T>(k: Ustr, es: Entries<T>, other: Ustr)
    requires Below(k, es) && Ascending(es) && other in Keys(es)
    ensures Less(k, other)
    decreases es
  {
    if other != es.key {
      AscendingBelow(es.key, es.tail, other);
      LessTransitive(k, es.key, other);
    }
  }

  lemma {:induction false} InsertAscending<T>(k: Ustr, v: T, es: Entries<T>)
    requires Ascending(es) && k !in Keys(es)
    ensures Ascending(Insert(k, v, es))
  {
    if es.Entry? {
      LessTotal(k, es.key);
      if !Less(k, es.key) {
        InsertAscending(k, v, es.tail);
      }
    }
  }

  lemma {:induction false} SortAscending<T>(es: Entries<T>)
    requires Distinct(es)
    ensures Ascending(Sort(es))
  {
    if es.Entry? {
      SortAscending(es.tail);
      InsertAscending(es.key, es.value, Sort(es.tail));
    }
  }

  lemma {:induction false} AscendingDistinct<T>(es: Entries<T>)
    requires Ascending(es)
    ensures Distinct(es)
  {
    if es.Entry? {
      AscendingDistinct(es.tail);
      if es.key in Keys(es.tail) {
        AscendingBelow(es.key, es.tail, es.key);
        LessTotal(es.key, es.key);
      }
    }
  }

  lemma UpdatesCommute(m: map<Ustr, Meaning>, a: Ustr, x: Meaning, b: Ustr, y: Meaning)
    requires a != b
    ensures m[a := x][b := y] == m[b := y][a := x]
  {
  }

  lemma {:induction false} InsertMeant(k: Ustr, v: Json, es: Entries<Json>)
    requires k !in Keys(es)
    ensures MeantMembers(Insert(k, v, es)) == MeantMembers(es)[k := Meant(v)]
  {
    if es.Entry? && !Less(k, es.key) {
      InsertMeant(k, v, es.tail);
      UpdatesCommute(MeantMembers(es.tail), k, Meant(v), es.key, Meant(es.value));
    }
  }

  lemma {:induction false} SortMeant(es: Entries<Json>)
    requires Distinct(es)
    ensures MeantMembers(Sort(es)) == MeantMembers(es)
  {
    if es.Entry? {
      SortMeant(es.tail);
      InsertMeant(es.key, es.value, Sort(es.tail));
    }
  }

  // ---- Sorting and carrying change no meaning ----

  lemma {:induction false} SortedMeant(v: Json)
    requires DistinctAll(v)
    ensures Meant(Sorted(v)) == Meant(v)
    decreases v
  {
    match v
    case JArr(items) => SortedItemsMeant(items);
    case JObj(members) =>
      SortedMembersMeant(members);
      SameKeysDistinct(members, SortedMembers(members));
      SortMeant(SortedMembers(members));
    case _ =>
  }

  lemma {:induction false} SortedItemsMeant(items: Items)
    requires DistinctItems(items)
    ensures MeantItems(SortedItems(items)) == MeantItems(items)
    decreases items
  {
    if items.Item? {
      SortedMeant(items.head);
      SortedItemsMeant(items.tail);
    }
  }

  lemma {:induction false} SortedMembersMeant(members: Entries<Json>)
    requires DistinctMembers(members)
    ensures MeantMembers(SortedMembers(members)) == MeantMembers(members)
    decreases members
  {
    if members.Entry? {
      SortedMeant(members.value);
      SortedMembersMeant(members.tail);
    }
  }

  /** Every object of the value has distinct keys. */
  predicate DistinctAll(v: Json)
    decreases v
  {
    match v
    case JArr(items) => DistinctItems(items)
    case JObj(members) => Distinct(members) && DistinctMembers(members)
    case _ => true
  }

  predicate DistinctItems(items: Items)
    decreases items
  {
    match items case NoItems => true case Item(h, t) => DistinctAll(h) && DistinctItems(t)
  }

  predicate DistinctMembers(members: Entries<Json>)
    decreases members
  {
    match members case Empty => true case Entry(_, v, t) => DistinctAll(v) && DistinctMembers(t)
  }

  lemma {:induction false} SameKeysDistinct(members: Entries<Json>, others: Entries<Json>)
    requires Distinct(members) && (others == SortedMembers(members) || others == CarriedMembers(members))
    ensures Distinct(others)
  {
    if members.Entry? {
      SameKeysDistinct(members.tail, others.tail);
    }
  }

  // ---- Canonical text is the plain text of the normal value ----

  /** A value written in its own order; what `JSON.stringify` would write. */
  function Written(v: Json): Ustr
    decreases v
  {
    match v
    case JArr(items) => [OPEN_ARRAY] + WrittenItems(items) + [CLOSE_ARRAY]
    case JObj(members) => [OPEN_OBJECT] + Members(WrittenMembers(members)) + [CLOSE_OBJECT]
    case _ => Canonicalize(v)
  }

  function WrittenItems(items: Items): Ustr
    decreases items
  {
    match items
    case NoItems => []
    case Item(h, t) => Written(h) + (if t.NoItems? then [] else [COMMA] + WrittenItems(t))
  }

  function WrittenMembers(members: Entries<Json>): (texts: Entries<Ustr>)
    ensures Keys(texts) == Keys(members)
    decreases members
  {
    match members
    case Empty => Empty
    case Entry(k, v, t) => Entry(k, Written(v), WrittenMembers(t))
  }

  lemma {:induction false} InsertWritten(k: Ustr, v: Json, es: Entries<Json>)
    ensures WrittenMembers(Insert(k, v, es)) == Insert(k, Written(v), WrittenMembers(es))
  {
    if es.Entry? {
      InsertWritten(k, v, es.tail);
    }
  }

  lemma {:induction false} SortWritten(es: Entries<Json>)
    ensures WrittenMembers(Sort(es)) == Sort(WrittenMembers(es))
  {
    if es.Entry? {
      SortWritten(es.tail);
      InsertWritten(es.key, es.value, Sort(es.tail));
    }
  }

  lemma {:induction false} CanonicalIsWritten(v: Json)
    ensures Canonicalize(v) == Written(Normal(v))
    decreases v
  {
    match v
    case JArr(items) => CanonicalItemsWritten(items);
    case JObj(members) =>
      CanonicalMembersWritten(members);
      SortWritten(SortedMembers(CarriedMembers(members)));
    case _ =>
  }

  lemma {:induction false} CanonicalItemsWritten(items: Items)
    ensures CanonicalizeItems(items) == WrittenItems(SortedItems(CarriedItems(items)))
    decreases items
  {
    if items.Item? {
      CanonicalIsWritten(items.head);
      CanonicalItemsWritten(items.tail);
    }
  }

  lemma {:induction false} CanonicalMembersWritten(members: Entries<Json>)
    ensures CanonicalizeMembers(members) == WrittenMembers(SortedMembers(CarriedMembers(members)))
    decreases members
  {
    if members.Entry? {
      CanonicalIsWritten(members.value);
      CanonicalMembersWritten(members.tail);
    }
  }

  // ---- Parsing inverts writing ----

  /** Values that writing loses nothing of. */
  predicate Clean(r: Reader, v: Json)
    decreases v
  {
    match v
    case JUndefined => false
    case JNum(n) => n.Numeral? && Shortest(r, n.text)
    case JArr(items) => CleanItems(r, items)
    case JObj(members) => Distinct(members) && CleanMembers(r, members)
    case _ => true
  }

  predicate CleanItems(r: Reader, items: Items)
    decreases items
  {
    match items case NoItems => true case Item(h, t) => Clean(r, h) && CleanItems(r, t)
  }

  predicate CleanMembers(r: Reader, members: Entries<Json>)
    decreases members
  {
    match members case Empty => true case Entry(_, v, t) => Clean(r, v) && CleanMembers(r, t)
  }

  lemma {:induction false} WrittenBack(r: Reader, v: Json, rest: Ustr)
    requires Clean(r, v) && Bounded(rest)
    ensures ParseValue(r, Written(v) + rest) == Got(v, rest)
    decreases v
  {
    match v
    case JArr(items) =>
      if items.Item? {
        WrittenItemsBack(r, items, rest);
      }
      ArrayBack(r, items, rest);
    case JObj(members) =>
      if members.Entry? {
        WrittenMembersBack(r, members, rest);
      }
      ObjectBack(r, members, rest);
    case JNum(n) => NumberBack(r, n.text, rest);
    case JStr(s) => StringBack(r, s, rest);
    case _ =>
  }

  lemma NumberBack(r: Reader, text: Ustr, rest: Ustr)
    requires Shortest(r, text) && Bounded(rest)
    ensures ParseValue(r, text + rest) == Got(JNum(Numeral(text)), rest)
  {
    var s := text + rest;
    assert NumberUnit(text[0]) && s[0] == text[0];
    NumberRunBack(text, rest);
    assert s[..|text|] == text && s[|text|..] == rest;
    assert ParseNumber(r, s) == Got(JNum(Numeral(text)), rest);
  }

  lemma StringBack(r: Reader, s: Ustr, rest: Ustr)
    ensures ParseValue(r, Quoted(s) + rest) == Got(JStr(s), rest)
  {
    EscapeBack(s, rest);
    assert (Quoted(s) + rest)[1..] == Escape(s) + [QUOTE] + rest;
  }

  lemma ArrayBack(r: Reader, items: Items, rest: Ustr)
    requires CleanItems(r, items)
    requires items.Item? ==> ParseItems(r, WrittenItems(items) + [CLOSE_ARRAY] + rest) == Got(items, rest)
    ensures ParseValue(r, Written(JArr(items)) + rest) == Got(JArr(items), rest)
  {
    if items.NoItems? {
      assert Written(JArr(items)) == [OPEN_ARRAY, CLOSE_ARRAY];
    } else {
      var body := WrittenItems(items) + [CLOSE_ARRAY] + rest;
      assert body[0] == Written(items.head)[0];
      AssocUnits([OPEN_ARRAY], WrittenItems(items), [CLOSE_ARRAY], rest);
    }
  }

  lemma ObjectBack(r: Reader, members: Entries<Json>, rest: Ustr)
    requires Distinct(members)
    requires members.Entry? ==>
      ParseMembers(r, Members(WrittenMembers(members)) + [CLOSE_OBJECT] + rest) == Got(members, rest)
    ensures ParseValue(r, Written(JObj(members)) + rest) == Got(JObj(members), rest)
  {
    if members.Empty? {
      assert Written(JObj(members)) == [OPEN_OBJECT, CLOSE_OBJECT];
    } else {
      var texts := WrittenMembers(members);
      var body := Members(texts) + [CLOSE_OBJECT] + rest;
      assert body[0] == Members(texts)[0] == QUOTE;
      SettleDistinct(members);
      AssocUnits([OPEN_OBJECT], Members(texts), [CLOSE_OBJECT], rest);
    }
  }

  lemma {:induction false} SettleDistinct(es: Entries<Json>)
    requires Distinct(es)
    ensures Settle(es) == es
  {
    if es.Entry? {
      SettleDistinct(es.tail);
    }
  }

  lemma OneMoreItem(r: Reader, s: Ustr, v: Json, more: Ustr, items: Items, rest: Ustr)
    requires ParseValue(r, s) == Got(v, [COMMA] + more) && ParseItems(r, more) == Got(items, rest)
    ensures ParseItems(r, s) == Got(Item(v, items), rest)
  {
    assert ([COMMA] + more)[1..] == more;
  }

  lemma {:induction false} WrittenItemsBack(r: Reader, items: Items, rest: Ustr)
    requires items.Item? && CleanItems(r, items)
    ensures ParseItems(r, WrittenItems(items) + [CLOSE_ARRAY] + rest) == Got(items, rest)
    decreases items
  {
    var head := Written(items.head);
    if items.tail.NoItems? {
      WrittenBack(r, items.head, [CLOSE_ARRAY] + rest);
      assert WrittenItems(items) + [CLOSE_ARRAY] + rest == head + ([CLOSE_ARRAY] + rest);
    } else {
      var tail := WrittenItems(items.tail);
      var more := tail + [CLOSE_ARRAY] + rest;
      WrittenItemsBack(r, items.tail, rest);
      WrittenBack(r, items.head, [COMMA] + more);
      OneMoreItem(r, head + ([COMMA] + more), items.head, more, items.tail, rest);
      assert WrittenItems(items) == head + ([COMMA] + tail);
      AfterComma(head, tail, [CLOSE_ARRAY], rest);
    }
  }

  lemma AfterComma(head: Ustr, tail: Ustr, close: Ustr, rest: Ustr)
    ensures head + ([COMMA] + tail) + close + rest == head + ([COMMA] + (tail + close + rest))
  {
  }

  lemma KeyBack(k: Ustr, rest: Ustr)
    ensures ParseKey(Quoted(k) + [COLON] + rest) == Got(k, rest)
  {
    var s := Quoted(k) + [COLON] + rest;
    EscapeBack(k, [COLON] + rest);
    assert s[1..] == Escape(k) + [QUOTE] + ([COLON] + rest);
    assert ([COLON] + rest)[1..] == rest;
  }

  lemma LastMember(r: Reader, k: Ustr, s: Ustr, v: Json, rest: Ustr)
    requires ParseValue(r, s) == Got(v, [CLOSE_OBJECT] + rest)
    ensures ParseMembers(r, Quoted(k) + [COLON] + s) == Got(Entry(k, v, Empty), rest)
  {
    KeyBack(k, s);
    assert ([CLOSE_OBJECT] + rest)[1..] == rest;
  }

  lemma OneMoreMember(r: Reader, k: Ustr, s: Ustr, v: Json, more: Ustr, members: Entries<Json>, rest: Ustr)
    requires ParseValue(r, s) == Got(v, [COMMA] + more) && ParseMembers(r, more) == Got(members, rest)
    ensures ParseMembers(r, Quoted(k) + [COLON] + s) == Got(Entry(k, v, members), rest)
  {
    KeyBack(k, s);
    assert ([COMMA] + more)[1..] == more;
  }

  lemma LastText(lead: Ustr, text: Ustr, close: Ustr, rest: Ustr)
    ensures lead + text + [] + close + rest == lead + (text + (close + rest))
  {
  }

  lemma MoreText(lead: Ustr, text: Ustr, more: Ustr)
    ensures lead + text + more == lead + (text + more)
  {
  }

  lemma {:induction false} WrittenMembersBack(r: Reader, members: Entries<Json>, rest: Ustr)
    requires members.Entry? && CleanMembers(r, members)
    ensures ParseMembers(r, Members(WrittenMembers(members)) + [CLOSE_OBJECT] + rest) == Got(members, rest)
    decreases members
  {
    var texts := WrittenMembers(members);
    var lead, text := Quoted(members.key) + [COLON], Written(members.value);
    if members.tail.Empty? {
      WrittenBack(r, members.value, [CLOSE_OBJECT] + rest);
      LastMember(r, members.key, text + ([CLOSE_OBJECT] + rest), members.value, rest);
      LastText(lead, text, [CLOSE_OBJECT], rest);
    } else {
      var tail := Members(texts.tail);
      var more := tail + [CLOSE_OBJECT] + rest;
      WrittenMembersBack(r, members.tail, rest);
      WrittenBack(r, members.value, [COMMA] + more);
      OneMoreMember(r, members.key, text + ([COMMA] + more), members.value, more, members.tail, rest);
      AfterComma(lead + text, tail, [CLOSE_OBJECT], rest);
      MoreText(lead, text, [COMMA] + more);
    }
  }

  // ---- The main results ----

  lemma {:induction false} CarriedClean(r: Reader, v: Json)
    requires Sound(r) && WellFormed(r, v)
    ensures Clean(r, Carried(v)) && DistinctAll(Carried(v))
    decreases v
  {
    match v
    case JArr(items) => CarriedItemsClean(r, items);
    case JObj(members) =>
      CarriedMembersClean(r, members);
      SameKeysDistinct(members, CarriedMembers(members));
    case _ =>
  }

  lemma {:induction false} CarriedItemsClean(r: Reader, items: Items)
    requires Sound(r) && WellFormedItems(r, items)
    ensures CleanItems(r, CarriedItems(items)) && DistinctItems(CarriedItems(items))
    decreases items
  {
    if items.Item? {
      CarriedClean(r, items.head);
      CarriedItemsClean(r, items.tail);
    }
  }

  lemma {:induction false} CarriedMembersClean(r: Reader, members: Entries<Json>)
    requires Sound(r) && WellFormedMembers(r, members)
    ensures CleanMembers(r, CarriedMembers(members)) && DistinctMembers(CarriedMembers(members))
    decreases members
  {
    if members.Entry? {
      CarriedClean(r, members.value);
      CarriedMembersClean(r, members.tail);
    }
  }

  lemma {:induction false} InsertClean(r: Reader, k: Ustr, v: Json, es: Entries<Json>)
    requires Clean(r, v) && CleanMembers(r, es)
    ensures CleanMembers(r, Insert(k, v, es))
  {
    if es.Entry? {
      InsertClean(r, k, v, es.tail);
    }
  }

  lemma {:induction false} SortClean(r: Reader, es: Entries<Json>)
    requires CleanMembers(r, es)
    ensures CleanMembers(r, Sort(es))
  {
    if es.Entry? {
      SortClean(r, es.tail);
      InsertClean(r, es.key, es.value, Sort(es.tail));
    }
  }

  lemma {:induction false} SortedClean(r: Reader, v: Json)
    requires Clean(r, v)
    ensures Clean(r, Sorted(v))
    decreases v
  {
    match v
    case JArr(items) => SortedItemsClean(r, items);
    case JObj(members) =>
      SortedMembersClean(r, members);
      SameKeysDistinct(members, SortedMembers(members));
      SortClean(r, SortedMembers(members));
      SortAscending(SortedMembers(members));
      AscendingDistinct(Sort(SortedMembers(members)));
    case _ =>
  }

  lemma {:induction false} SortedItemsClean(r: Reader, items: Items)
    requires CleanItems(r, items)
    ensures CleanItems(r, SortedItems(items))
    decreases items
  {
    if items.Item? {
      SortedClean(r, items.head);
      SortedItemsClean(r, items.tail);
    }
  }

  lemma {:induction false} SortedMembersClean(r: Reader, members: Entries<Json>)
    requires CleanMembers(r, members)
    ensures CleanMembers(r, SortedMembers(members))
    decreases members
  {
    if members.Entry? {
      SortedClean(r, members.value);
      SortedMembersClean(r, members.tail);
    }
  }

  /** Parsing a canonical text gives the value back, apart from the order of
      members and what no text carries. */
  lemma ParseInvertsCanonicalize(r: Reader, v: Json)
    requires Sound(r) && WellFormed(r, v)
    ensures Parse(r, Canonicalize(v)) == Got(Normal(v), [])
    ensures Meant(Normal(v)) == Meant(Carried(v))
  {
    CarriedClean(r, v);
    SortedClean(r, Carried(v));
    SortedMeant(Carried(v));
    CanonicalIsWritten(v);
    WrittenBack(r, Normal(v), []);
    assert Written(Normal(v)) + [] == Written(Normal(v));
  }

  // ---- Equal meanings have one canonical text ----

  predicate InOrder(v: Json)
    decreases v
  {
    match v
    case JArr(items) => InOrderItems(items)
    case JObj(members) => Ascending(members) && InOrderMembers(members)
    case _ => true
  }

  predicate InOrderItems(items: Items)
    decreases items
  {
    match items case NoItems => true case Item(h, t) => InOrder(h) && InOrderItems(t)
  }

  predicate InOrderMembers(members: Entries<Json>)
    decreases members
  {
    match members case Empty => true case Entry(_, v, t) => InOrder(v) && InOrderMembers(t)
  }

  lemma {:induction false} InsertInOrder(k: Ustr, v: Json, es: Entries<Json>)
    requires InOrder(v) && InOrderMembers(es)
    ensures InOrderMembers(Insert(k, v, es))
  {
    if es.Entry? {
      InsertInOrder(k, v, es.tail);
    }
  }

  lemma {:induction false} SortInOrder(es: Entries<Json>)
    requires InOrderMembers(es)
    ensures InOrderMembers(Sort(es))
  {
    if es.Entry? {
      SortInOrder(es.tail);
      InsertInOrder(es.key, es.value, Sort(es.tail));
    }
  }

  lemma {:induction false} SortedInOrder(v: Json)
    requires DistinctAll(v)
    ensures InOrder(Sorted(v))
    decreases v
  {
    match v
    case JArr(items) => SortedItemsInOrder(items);
    case JObj(members) =>
      SortedMembersInOrder(members);
      SameKeysDistinct(members, SortedMembers(members));
      SortInOrder(SortedMembers(members));
      SortAscending(SortedMembers(members));
    case _ =>
  }

  lemma {:induction false} SortedItemsInOrder(items: Items)
    requires DistinctItems(items)
    ensures InOrderItems(SortedItems(items))
    decreases items
  {
    if items.Item? {
      SortedInOrder(items.head);
      SortedItemsInOrder(items.tail);
    }
  }

  lemma {:induction false} SortedMembersInOrder(members: Entries<Json>)
    requires DistinctMembers(members)
    ensures InOrderMembers(SortedMembers(members))
    decreases members
  {
    if members.Entry? {
      SortedInOrder(members.value);
      SortedMembersInOrder(members.tail);
    }
  }

  /** A value in order is decided by what it says. */
  lemma {:induction false} MeaningDecides(v: Json, w: Json)
    requires InOrder(v) && InOrder(w) && Meant(v) == Meant(w)
    ensures v == w
    decreases v
  {
    match v
    case JArr(items) => MeaningDecidesItems(items, w.items);
    case JObj(members) => MeaningDecidesMembers(members, w.members);
    case _ =>
  }

  lemma {:induction false} MeaningDecidesItems(a: Items, b: Items)
    requires InOrderItems(a) && InOrderItems(b) && MeantItems(a) == MeantItems(b)
    ensures a == b
    decreases a
  {
    if a.Item? && b.Item? {
      assert MeantItems(a)[0] == Meant(a.head) && MeantItems(b)[0] == Meant(b.head);
      assert MeantItems(a)[1..] == MeantItems(a.tail) && MeantItems(b)[1..] == MeantItems(b.tail);
      MeaningDecides(a.head, b.head);
      MeaningDecidesItems(a.tail, b.tail);
    }
  }

  lemma LeastKey(a: Entries<Json>, b: Entries<Json>)
    requires a.Entry? && b.Entry? && Ascending(a) && Ascending(b) && Keys(a) == Keys(b)
    ensures a.key == b.key && Keys(a.tail) == Keys(b.tail)
  {
    assert a.key in Keys(b) && b.key in Keys(a);
    LessTotal(a.key, b.key);
    if a.key != b.key {
      AscendingBelow(a.key, a.tail, b.key);
      AscendingBelow(b.key, b.tail, a.key);
    }
    AscendingDistinct(a);
    AscendingDistinct(b);
    assert Keys(a.tail) == Keys(a) - {a.key} && Keys(b.tail) == Keys(b) - {b.key};
  }

  lemma {:induction false} MeaningDecidesMembers(a: Entries<Json>, b: Entries<Json>)
    requires Ascending(a) && Ascending(b) && InOrderMembers(a) && InOrderMembers(b)
    requires MeantMembers(a) == MeantMembers(b)
    ensures a == b
    decreases a
  {
    var m, n := MeantMembers(a), MeantMembers(b);
    assert Keys(a) == m.Keys == n.Keys == Keys(b);
    if a.Entry? {
      assert a.key in Keys(b);
      LeastKey(a, b);
      AscendingDistinct(a);
      AscendingDistinct(b);
      assert m[a.key] == Meant(a.value) && n[b.key] == Meant(b.value);
      MeaningDecides(a.value, b.value);
      assert MeantMembers(a.tail) == m - {a.key} && MeantMembers(b.tail) == n - {b.key};
      MeaningDecidesMembers(a.tail, b.tail);
    } else {
      assert Keys(b) == {};
    }
  }

  /** Two values have the same canonical text exactly when, once carried by
      text, they say the same: the order of keys does not count and nothing else
      is lost. */
  lemma CanonicalExactly(r: Reader, v: Json, w: Json)
    requires Sound(r) && WellFormed(r, v) && WellFormed(r, w)
    ensures Canonicalize(v) == Canonicalize(w) <==> Meant(Carried(v)) == Meant(Carried(w))
  {
    ParseInvertsCanonicalize(r, v);
    ParseInvertsCanonicalize(r, w);
    if Meant(Carried(v)) == Meant(Carried(w)) {
      CarriedClean(r, v);
      CarriedClean(r, w);
      SortedInOrder(Carried(v));
      SortedInOrder(Carried(w));
      MeaningDecides(Normal(v), Normal(w));
      CanonicalIsWritten(v);
      CanonicalIsWritten(w);
    }
  }

  lemma {:induction false} CleanIsCarried(r: Reader, v: Json)
    requires Clean(r, v)
    ensures Carried(v) == v && WellFormed(r, v)
    decreases v
  {
    match v
    case JArr(items) => CleanItemsCarried(r, items);
    case JObj(members) => CleanMembersCarried(r, members);
    case _ =>
  }

  lemma {:induction false} CleanItemsCarried(r: Reader, items: Items)
    requires CleanItems(r, items)
    ensures CarriedItems(items) == items && WellFormedItems(r, items)
    decreases items
  {
    if items.Item? {
      CleanIsCarried(r, items.head);
      CleanItemsCarried(r, items.tail);
    }
  }

  lemma {:induction false} CleanMembersCarried(r: Reader, members: Entries<Json>)
    requires CleanMembers(r, members)
    ensures CarriedMembers(members) == members && WellFormedMembers(r, members)
    decreases members
  {
    if members.Entry? {
      CleanIsCarried(r, members.value);
      CleanMembersCarried(r, members.tail);
    }
  }

  /** Canonical text is injective up to key order on values JSON can carry. */
  lemma CanonicalInjective(r: Reader, v: Json, w: Json)
    requires Sound(r) && Clean(r, v) && Clean(r, w)
    ensures Canonicalize(v) == Canonicalize(w) <==> Meant(v) == Meant(w)
  {
    CleanIsCarried(r, v);
    CleanIsCarried(r, w);
    CanonicalExactly(r, v, w);
  }

  // ---- The signed body ----

  /** `deriveSigningBody`: JSON is signed in canonical form, anything else as it is. */
  function SigningBody(r: Reader, body: Ustr): Ustr {
    if body == [] then [] else match Parse(r, body) case Got(v, _) => Canonicalize(v) case Fail => body
  }

  /** Signing what was signed changes nothing. */
  lemma SigningBodyIdempotent(r: Reader, body: Ustr)
    requires Sound(r)
    ensures SigningBody(r, SigningBody(r, body)) == SigningBody(r, body)
  {
    if body != [] && Parse(r, body).Got? {
      var v := Parse(r, body).value;
      ParseValueWellFormed(r, body);
      ParseInvertsCanonicalize(r, v);
      CarriedClean(r, v);
      SortedClean(r, Carried(v));
      CleanIsCarried(r, Carried(v));
      CleanIsCarried(r, Normal(v));
      CanonicalExactly(r, Normal(v), v);
    }
  }

  /** Two JSON bodies are signed alike exactly when they say the same. */
  lemma SigningBodyExactly(r: Reader, a: Ustr, b: Ustr)
    requires Sound(r) && Parse(r, a).Got? && Parse(r, b).Got?
    ensures SigningBody(r, a) == SigningBody(r, b)
        <==> Meant(Carried(Parse(r, a).value)) == Meant(Carried(Parse(r, b).value))
  {
    ParseValueWellFormed(r, a);
    ParseValueWellFormed(r, b);
    CanonicalExactly(r, Parse(r, a).value, Parse(r, b).value);
  }

  /** A number too large for a double is signed like null. */
  lemma OverflowSignsLikeNull(r: Reader, a: Ustr, b: Ustr)
    requires Sound(r) && Parse(r, a) == Got(JNum(NotFinite), []) && Parse(r, b) == Got(JNull, [])
    ensures SigningBody(r, a) == SigningBody(r, b)
  {
    SigningBodyExactly(r, a, b);
  }

  // ---- The signed message ----

  const NEWLINE: Unit := 10

  /** Method, path, timestamp, nonce and body, one to a line. */
  function Message(lines: seq<Ustr>, body: Ustr): Ustr {
    if lines == [] then body else lines[0] + [NEWLINE] + Message(lines[1..], body)
  }

  predicate OneLine(s: Ustr) {
    forall i :: 0 <= i < |s| ==> s[i] != NEWLINE
  }

  lemma FirstLine(a: Ustr, x: Ustr, b: Ustr, y: Ustr)
    requires OneLine(a) && OneLine(b) && a + [NEWLINE] + x == b + [NEWLINE] + y
    ensures a == b && x == y
  {
    var s := a + [NEWLINE] + x;
    assert s[|a|] == NEWLINE && s[|b|] == NEWLINE;
    assert forall i :: 0 <= i < |a| ==> s[i] == a[i];
    assert forall i :: 0 <= i < |b| ==> s[i] == b[i];
    assert |a| == |b|;
    assert a == s[..|a|] && b == s[..|b|] && x == s[|a| + 1..] && y == s[|b| + 1..];
  }

  /** The message determines each of its parts when the parts before the body
      hold no newline. */
  lemma {:induction false} MessageDetermines(lines: seq<Ustr>, body: Ustr, others: seq<Ustr>, other: Ustr)
    requires |lines| == |others| && Message(lines, body) == Message(others, other)
    requires forall i :: 0 <= i < |lines| ==> OneLine(lines[i]) && OneLine(others[i])
    ensures lines == others && body == other
  {
    if lines != [] {
      FirstLine(lines[0], Message(lines[1..], body), others[0], Message(others[1..], other));
      MessageDetermines(lines[1..], body, others[1..], other);
    }
  }

  // ---- Newlines inside a part ----

  function Newlines(s: Ustr): nat {
    if s == [] then 0 else (if s[0] == NEWLINE then 1 else 0) + Newlines(s[1..])
  }

  lemma {:induction false} NewlinesAppend(a: Ustr, b: Ustr)
    ensures Newlines(a + b) == Newlines(a) + Newlines(b)
  {
    if a == [] {
      assert a + b == b;
    } else {
      assert (a + b)[1..] == a[1..] + b;
      NewlinesAppend(a[1..], b);
    }
  }

  lemma {:induction false} OneLineExactly(s: Ustr)
    ensures OneLine(s) <==> Newlines(s) == 0
  {
    if s != [] {
      OneLineExactly(s[1..]);
      assert OneLine(s) <==> s[0] != NEWLINE && OneLine(s[1..]) by {
        assert forall i :: 0 <= i < |s| - 1 ==> s[1..][i] == s[i + 1];
        assert forall i :: 0 < i < |s| ==> s[i] == s[1..][i - 1];
      }
    }
  }

  predicate AllOneLine(lines: seq<Ustr>, body: Ustr) {
    if lines == [] then OneLine(body) else OneLine(lines[0]) && AllOneLine(lines[1..], body)
  }

  lemma {:induction false} MessageNewlines(lines: seq<Ustr>, body: Ustr)
    ensures Newlines(Message(lines, body)) >= |lines|
    ensures Newlines(Message(lines, body)) == |lines| <==> AllOneLine(lines, body)
  {
    if lines == [] {
      OneLineExactly(body);
    } else {
      MessageNewlines(lines[1..], body);
      OneLineExactly(lines[0]);
      NewlinesAppend(lines[0] + [NEWLINE], Message(lines[1..], body));
      NewlinesAppend(lines[0], [NEWLINE]);
    }
  }

  lemma {:induction false} EachOneLine(lines: seq<Ustr>, body: Ustr)
    requires AllOneLine(lines, body)
    ensures forall i :: 0 <= i < |lines| ==> OneLine(lines[i])
  {
    if lines != [] {
      EachOneLine(lines[1..], body);
      assert forall i :: 0 < i < |lines| ==> lines[i] == lines[1..][i - 1];
    }
  }

  lemma CutAtNewline(s: Ustr) returns (x: Ustr, y: Ustr)
    requires !OneLine(s)
    ensures s == x + [NEWLINE] + y
  {
    var j :| 0 <= j < |s| && s[j] == NEWLINE;
    x, y := s[..j], s[j + 1..];
  }

  /** One newline moves over the end of a line. */
  lemma MoveOut(x: Ustr, y: Ustr, next: Ustr)
    ensures (x + [NEWLINE] + y) + [NEWLINE] + next == x + [NEWLINE] + (y + [NEWLINE] + next)
  {
  }

  lemma MessageOne(line: Ustr, body: Ustr)
    ensures Message([line], body) == line + [NEWLINE] + body
  {
    assert [line][1..] == [];
  }

  /** A newline inside a part can move into its neighbour. */
  lemma {:induction false} NewlineMoves(lines: seq<Ustr>, body: Ustr) returns (others: seq<Ustr>, other: Ustr)
    requires lines != [] && !AllOneLine(lines, body)
    ensures |others| == |lines| && Message(others, other) == Message(lines, body)
    ensures (others, other) != (lines, body)
    decreases |lines|
  {
    if !OneLine(lines[0]) {
      var x, y := CutAtNewline(lines[0]);
      MoveOut(x, y, Message(lines[1..], body));
      if |lines| == 1 {
        others, other := [x], y + [NEWLINE] + body;
        MessageOne(x, other);
      } else {
        var rest := [y + [NEWLINE] + lines[1]] + lines[2..];
        others, other := [x] + rest, body;
        assert others[1..] == rest && rest[1..] == lines[2..] && lines[1..][1..] == lines[2..];
        MoveOut(y, lines[1], Message(lines[2..], body));
      }
    } else if |lines| == 1 {
      var x, y := CutAtNewline(body);
      MoveOut(lines[0], x, y);
      others, other := [lines[0] + [NEWLINE] + x], y;
      MessageOne(others[0], other);
      MessageOne(lines[0], body);
    } else {
      var rest;
      rest, other := NewlineMoves(lines[1..], body);
      others := [lines[0]] + rest;
      assert others[1..] == rest;
    }
  }

  /** With any parts allowed, the message determines them exactly when neither a
      line nor the body holds a newline. */
  lemma DeterminedExactly(lines: seq<Ustr>, body: Ustr)
    requires lines != []
    ensures AllOneLine(lines, body)
       <==> forall others, other ::
              |others| == |lines| && Message(others, other) == Message(lines, body) ==> others == lines && other == body
  {
    if AllOneLine(lines, body) {
      forall others, other | |others| == |lines| && Message(others, other) == Message(lines, body)
        ensures others == lines && other == body
      {
        MessageNewlines(lines, body);
        MessageNewlines(others, other);
        EachOneLine(lines, body);
        EachOneLine(others, other);
        MessageDetermines(lines, body, others, other);
      }
    } else {
      var others, other := NewlineMoves(lines, body);
    }
  }
}
