/** Links between contracts: the lookup for one contract, the batched lookup that
    must give every contract in a list the same answer, and the three places
    that ask whether something carries a contract's work on. */
module ContractLinks {
  import opened Text
  import Sql
  import QueryFilters
  import OrExpression

  // ---- Identifiers ----

  predicate HexChar(c: char) { '0' <= c <= '9' || 'a' <= c <= 'f' || 'A' <= c <= 'F' }

  predicate IsUuid(s: string) {
    |s| == 36
    && forall i :: 0 <= i < 36 ==> if i in {8, 13, 18, 23} then s[i] == '-' else HexChar(s[i])
  }

  function LowerChar(c: char): char { if 'A' <= c <= 'Z' then c + ('a' - 'A') else c }

  function Lower(s: string): (t: string)
    ensures |t| == |s|
  {
    if s == "" then "" else [LowerChar(s[0])] + Lower(s[1..])
  }

  /** The form in which the database gives an id back. */
  predicate Canonical(id: string) { Lower(id) == id }

  // ---- Rows ----

  datatype Far = Far(id: string, title: Option<string>, status: Option<string>)

  /** An embedded contract: absent, an object, or an array of at most one. */
  datatype Embed = Absent | Object(value: Far) | Array(values: seq<Far>)

  datatype Row = Row(fromId: string, toId: string, linkType: string, note: Option<string>, createdAt: string,
                     createdBy: Option<string>, fromContract: Embed, toContract: Embed)

  datatype Direction = Outgoing | Incoming

  datatype Summary = Summary(contractId: string, title: string, status: string, linkType: string, direction: Direction,
                             note: Option<string>, linkedAt: string, linkedBy: Option<string>)

  const LINK_TYPES: seq<string> := ["continues", "supersedes", "delegates_to"]

  predicate Truthy(s: Option<string>) { s.Some? && s.value != "" }

  function One(e: Embed): Option<Far> {
    match e
    case Absent => None
    case Object(f) => Some(f)
    case Array(fs) => if fs == [] then None else Some(fs[0])
  }

  /** `normalizeLinkRow`. */
  function Normalize(row: Row, self: string): Option<Summary> {
    if row.linkType !in LINK_TYPES then None
    else
      var outgoing := row.fromId == self;
      var far := One(if outgoing then row.toContract else row.fromContract);
      if far.None? || far.value.id == "" || !Truthy(far.value.title) then None
      else Some(Summary(if outgoing then row.toId else row.fromId, far.value.title.value,
                        if Truthy(far.value.status) then far.value.status.value else "closed",
                        row.linkType, if outgoing then Outgoing else Incoming, row.note, row.createdAt, row.createdBy))
  }

  // ---- Queries ----

  /** The database compares ids without regard to case. */
  predicate Touches(row: Row, id: string) { Lower(row.fromId) == Lower(id) || Lower(row.toId) == Lower(id) }

  predicate TouchesAny(row: Row, ids: seq<string>) { exists i :: 0 <= i < |ids| && Touches(row, ids[i]) }

  function Touching(id: string): Row -> bool { (row: Row) => Touches(row, id) }

  function TouchingAny(ids: seq<string>): Row -> bool { (row: Row) => TouchesAny(row, ids) }

  function Successions(id: string): Row -> bool {
    (row: Row) => row.toId == id && row.linkType in ["continues", "supersedes"]
  }

  function Delegations(id: string): Row -> bool { (row: Row) => row.fromId == id && row.linkType == "delegates_to" }

  function Select(links: seq<Row>, keep: Row -> bool): seq<Row> {
    if links == [] then []
    else (if keep(links[0]) then [links[0]] else []) + Select(links[1..], keep)
  }

  lemma UuidIsPlain(id: string)
    requires IsUuid(id)
    ensures OrExpression.PlainId(id)
  {
  }

  lemma ColumnsArePlain()
    ensures OrExpression.PlainId("from_contract_id") && OrExpression.PlainId("to_contract_id")
  {
  }

  /** The text of the single lookup asks the database for the rows that touch the
      id, however it decides that two spellings are one id: `canon` gives what it
      compares. For ids with their hyphens that is `Lower`, and then the rows are
      those of `Touches`. */
  lemma SingleQueryMeans(d: Sql.Dialect, canon: string -> string, db: Sql.Database,
                         catalogue: seq<QueryFilters.ForeignKey>, cells: Sql.Row, row: Row, id: string)
    requires OrExpression.PlainId(id) && OrExpression.ComparesBy(d, canon)
    requires cells("from_contract_id") == Sql.Str(row.fromId) && cells("to_contract_id") == Sql.Str(row.toId)
    ensures var fs := OrExpression.ParseOr(OrExpression.EitherIs("from_contract_id", "to_contract_id", id));
      fs.Some?
      && QueryFilters.AskAny(d, db, catalogue, "contract_links", cells, fs.value)
         == Sql.Of(canon(row.fromId) == canon(id) || canon(row.toId) == canon(id))
    ensures canon == Lower ==> (Touches(row, id) <==> canon(row.fromId) == canon(id) || canon(row.toId) == canon(id))
  {
    ColumnsArePlain();
    OrExpression.EitherColumnIs(d, canon, db, catalogue, "contract_links", cells, "from_contract_id", "to_contract_id",
                                id, row.fromId, row.toId);
  }

  /** And that of the batched lookup for the rows that touch any of them. */
  lemma BatchedQueryMeans(d: Sql.Dialect, db: Sql.Database, catalogue: seq<QueryFilters.ForeignKey>, cells: Sql.Row,
                          row: Row, ids: seq<string>)
    requires ids != [] && (forall i :: 0 <= i < |ids| ==> IsUuid(ids[i])) && OrExpression.ComparesBy(d, Lower)
    requires cells("from_contract_id") == Sql.Str(row.fromId) && cells("to_contract_id") == Sql.Str(row.toId)
    ensures var fs := OrExpression.ParseOr(OrExpression.EitherIn("from_contract_id", "to_contract_id", ids));
      fs.Some? && QueryFilters.AskAny(d, db, catalogue, "contract_links", cells, fs.value)
        == Sql.Of(TouchesAny(row, ids))
  {
    forall i | 0 <= i < |ids| ensures OrExpression.PlainId(ids[i]) {
      UuidIsPlain(ids[i]);
    }
    ColumnsArePlain();
    OrExpression.EitherColumnIn(d, Lower, db, catalogue, "contract_links", cells, "from_contract_id", "to_contract_id",
                                ids, row.fromId, row.toId);
    TouchesAnyNames(row, ids);
  }

  lemma TouchesAnyNames(row: Row, ids: seq<string>)
    ensures TouchesAny(row, ids)
      <==> OrExpression.Names(Lower, ids, row.fromId) || OrExpression.Names(Lower, ids, row.toId)
  {
    if i :| 0 <= i < |ids| && Lower(ids[i]) == Lower(row.fromId) {
      assert Touches(row, ids[i]);
    }
    if i :| 0 <= i < |ids| && Lower(ids[i]) == Lower(row.toId) {
      assert Touches(row, ids[i]);
    }
    if i :| 0 <= i < |ids| && Touches(row, ids[i]) {
      assert Lower(ids[i]) == Lower(row.fromId) || Lower(ids[i]) == Lower(row.toId);
    }
  }

  // ---- One contract ----

  function Summaries(rows: seq<Row>, self: string): seq<Summary> {
    if rows == [] then []
    else (match Normalize(rows[0], self) case None => [] case Some(x) => [x]) + Summaries(rows[1..], self)
  }

  /** `getRelatedContracts`, on the links in the order the query asks for. */
  function Related(links: seq<Row>, id: string): seq<Summary> {
    Summaries(Select(links, Touching(id)), id)
  }

  // ---- Many contracts ----

  function SafeIds(ids: seq<string>): (r: seq<string>)
    ensures forall id :: id in r <==> id in ids && IsUuid(id)
  {
    if ids == [] then [] else (if IsUuid(ids[0]) then [ids[0]] else []) + SafeIds(ids[1..])
  }

  /** What the rows put in the bucket of one end, in order. */
  function Bucket(rows: seq<Row>, end: string): seq<Summary> {
    if rows == [] then [] else Bucket(rows[..|rows| - 1], end) + RowBucket(rows[|rows| - 1], end)
  }

  function RowBucket(row: Row, end: string): seq<Summary> {
    EndBucket(row, row.fromId, end) + EndBucket(row, row.toId, end)
  }

  function EndBucket(row: Row, at: string, end: string): seq<Summary> {
    if at != end || Normalize(row, end).None? then [] else [Normalize(row, end).value]
  }

  type Buckets = map<string, seq<Summary>>

  function At(out: Buckets, id: string): seq<Summary> { if id in out then out[id] else [] }

  /** `getRelatedContractsForContracts`. */
  method RelatedForContracts(links: seq<Row>, ids: seq<string>) returns (out: Buckets)
    ensures forall id :: id in out ==> id in ids && out[id] != []
    ensures forall id :: id in ids ==>
      At(out, id) == if SafeIds(ids) == [] then [] else Bucket(Select(links, TouchingAny(SafeIds(ids))), id)
  {
    out := map[];
    if |ids| == 0 { return; }
    var list := SafeIds(ids);
    if list == [] { return; }
    var rows := Select(links, TouchingAny(list));
    var wanted := set id | id in ids;
    for i := 0 to |rows|
      invariant Filled(out, wanted)
      invariant forall id :: id in wanted ==> At(out, id) == Bucket(rows[..i], id)
    {
      out := FileRow(rows[i], wanted, out);
      forall id | id in wanted ensures Bucket(rows[..i + 1], id) == Bucket(rows[..i], id) + RowBucket(rows[i], id) {
        BucketNext(rows, i, id);
      }
    }
    assert rows[..|rows|] == rows;
  }

  lemma BucketNext(rows: seq<Row>, i: nat, id: string)
    requires i < |rows|
    ensures Bucket(rows[..i + 1], id) == Bucket(rows[..i], id) + RowBucket(rows[i], id)
  {
    assert rows[..i + 1][..i] == rows[..i];
  }

  predicate Filled(out: Buckets, wanted: set<string>) { forall id :: id in out ==> id in wanted && out[id] != [] }

  /** The inner loop: one row, filed under each of its ends that is wanted. */
  method FileRow(row: Row, wanted: set<string>, before: Buckets) returns (out: Buckets)
    requires Filled(before, wanted)
    ensures Filled(out, wanted)
    ensures forall id :: id in wanted ==> At(out, id) == At(before, id) + RowBucket(row, id)
  {
    var one := FileUnder(row, row.fromId, wanted, before);
    out := FileUnder(row, row.toId, wanted, one);
    forall id | id in wanted ensures At(out, id) == At(before, id) + RowBucket(row, id) {
      Append(At(before, id), EndBucket(row, row.fromId, id), EndBucket(row, row.toId, id));
    }
  }

  lemma Append(a: seq<Summary>, b: seq<Summary>, c: seq<Summary>)
    ensures (a + b) + c == a + (b + c)
  {
  }

  method FileUnder(row: Row, end: string, wanted: set<string>, before: Buckets) returns (out: Buckets)
    requires Filled(before, wanted)
    ensures Filled(out, wanted)
    ensures forall id :: id in wanted ==> At(out, id) == At(before, id) + EndBucket(row, end, id)
  {
    out := before;
    if end !in wanted { return; }
    var summary := Normalize(row, end);
    if summary.None? { return; }
    out := out[end := At(out, end) + [summary.value]];
  }

  /** The ends of some rows. */
  function Ends(rows: seq<Row>): set<string> {
    if rows == [] then {} else Ends(rows[..|rows| - 1]) + {rows[|rows| - 1].fromId, rows[|rows| - 1].toId}
  }

  function DelegationsTouching(list: seq<string>): Row -> bool {
    (row: Row) => row.linkType == "delegates_to" && TouchesAny(row, list)
  }

  /** `getDelegationMembers`. */
  method DelegationMembers(links: seq<Row>, ids: seq<string>) returns (members: set<string>)
    ensures members == if SafeIds(ids) == [] then {}
                       else Ends(Select(links, DelegationsTouching(SafeIds(ids)))) * (set id | id in ids)
  {
    var list := SafeIds(ids);
    if list == [] { return {}; }
    members := EndsAmong(Select(links, DelegationsTouching(list)), set id | id in ids);
  }

  method EndsAmong(rows: seq<Row>, wanted: set<string>) returns (members: set<string>)
    ensures members == Ends(rows) * wanted
  {
    members := {};
    for i := 0 to |rows|
      invariant members == Ends(rows[..i]) * wanted
    {
      EndsNext(rows, i);
      if rows[i].fromId in wanted { members := members + {rows[i].fromId}; }
      if rows[i].toId in wanted { members := members + {rows[i].toId}; }
    }
    assert rows[..|rows|] == rows;
  }

  lemma EndsNext(rows: seq<Row>, i: nat)
    requires i < |rows|
    ensures Ends(rows[..i + 1]) == Ends(rows[..i]) + {rows[i].fromId, rows[i].toId}
  {
    assert rows[..i + 1][..i] == rows[..i];
  }

  lemma {:induction false} EndsExactly(rows: seq<Row>, id: string)
    ensures id in Ends(rows) <==> exists i :: 0 <= i < |rows| && (rows[i].fromId == id || rows[i].toId == id)
  {
    if rows != [] {
      var init := rows[..|rows| - 1];
      EndsExactly(init, id);
      if i :| 0 <= i < |rows| && (rows[i].fromId == id || rows[i].toId == id) {
        assert i < |init| ==> init[i] == rows[i];
      }
      if j :| 0 <= j < |init| && (init[j].fromId == id || init[j].toId == id) {
        assert rows[j] == init[j];
      }
    }
  }

  predicate DelegationOf(row: Row, id: string) {
    row.linkType == "delegates_to" && (row.fromId == id || row.toId == id)
  }

  /** An id of the list is a member exactly when some delegation has it for an
      end: the other members of the list do not matter. */
  lemma MembersExactly(links: seq<Row>, ids: seq<string>, id: string)
    requires id in ids && IsUuid(id)
    ensures id in Ends(Select(links, DelegationsTouching(SafeIds(ids))))
       <==> exists i :: 0 <= i < |links| && DelegationOf(links[i], id)
  {
    var keep := DelegationsTouching(SafeIds(ids));
    var rows := Select(links, keep);
    EndsExactly(rows, id);
    assert id in SafeIds(ids);
    if i :| 0 <= i < |links| && DelegationOf(links[i], id) {
      KeepsDelegation(links[i], SafeIds(ids), id);
      SelectedKeeps(links, keep, i);
      var j :| 0 <= j < |rows| && rows[j] == links[i];
    }
    if j :| 0 <= j < |rows| && (rows[j].fromId == id || rows[j].toId == id) {
      SelectedFrom(links, keep, rows[j]);
    }
  }

  lemma KeepsDelegation(row: Row, list: seq<string>, id: string)
    requires DelegationOf(row, id) && id in list
    ensures DelegationsTouching(list)(row)
  {
    var i :| 0 <= i < |list| && list[i] == id;
    assert Touches(row, list[i]);
  }

  lemma {:induction false} SelectedFrom(links: seq<Row>, keep: Row -> bool, row: Row)
    requires row in Select(links, keep)
    ensures keep(row) && exists i :: 0 <= i < |links| && links[i] == row
  {
    if !keep(links[0]) || row != links[0] {
      SelectedFrom(links[1..], keep, row);
      var i :| 0 <= i < |links[1..]| && links[1..][i] == row;
      assert links[i + 1] == row;
    }
  }

  // ---- The batch is the single lookup ----

  /** What the table's constraints say: ids as the database writes them, and no
      contract linked to itself. */
  predicate WellFormed(row: Row) { Canonical(row.fromId) && Canonical(row.toId) && row.fromId != row.toId }

  predicate AllWellFormed(links: seq<Row>) { forall i :: 0 <= i < |links| ==> WellFormed(links[i]) }

  lemma {:induction false} SelectedWellFormed(links: seq<Row>, keep: Row -> bool)
    requires AllWellFormed(links)
    ensures AllWellFormed(Select(links, keep))
  {
    if links != [] {
      SelectedWellFormed(links[1..], keep);
    }
  }

  /** Filing from the first row on. */
  lemma {:induction false} BucketFirst(rows: seq<Row>, end: string)
    requires rows != []
    ensures Bucket(rows, end) == RowBucket(rows[0], end) + Bucket(rows[1..], end)
  {
    var last := rows[|rows| - 1];
    if |rows| == 1 {
      assert rows[..0] == [] && rows[1..] == [];
    } else {
      BucketFirst(rows[..|rows| - 1], end);
      assert rows[..|rows| - 1][1..] == rows[1..][..|rows| - 2];
    }
  }

  /** A row that touches the id is filed under it once, as the single lookup
      would list it; another is not filed under it. */
  lemma RowAgrees(row: Row, id: string)
    requires WellFormed(row) && Canonical(id)
    ensures RowBucket(row, id) == if Touches(row, id) then Summaries([row], id) else []
  {
    assert [row][1..] == [];
  }

  lemma {:induction false} BucketAgrees(links: seq<Row>, list: seq<string>, id: string)
    requires AllWellFormed(links) && Canonical(id) && id in list
    ensures Bucket(Select(links, TouchingAny(list)), id) == Related(links, id)
  {
    if links != [] {
      var row, rest := links[0], links[1..];
      BucketAgrees(rest, list, id);
      RowAgrees(row, id);
      OneMore(row, Select(rest, TouchingAny(list)), TouchesAny(row, list), id);
      OneMoreSummary(row, Select(rest, Touching(id)), Touches(row, id), id);
      assert Touches(row, id) ==> TouchesAny(row, list);
    }
  }

  lemma OneMore(row: Row, rows: seq<Row>, kept: bool, id: string)
    ensures Bucket((if kept then [row] else []) + rows, id)
      == (if kept then RowBucket(row, id) else []) + Bucket(rows, id)
  {
    if kept {
      BucketFirst([row] + rows, id);
      assert ([row] + rows)[1..] == rows;
    } else {
      assert [] + rows == rows;
    }
  }

  lemma OneMoreSummary(row: Row, rows: seq<Row>, kept: bool, id: string)
    ensures Summaries((if kept then [row] else []) + rows, id)
      == (if kept then Summaries([row], id) else []) + Summaries(rows, id)
  {
    if kept {
      assert ([row] + rows)[1..] == rows && [row][1..] == [];
    } else {
      assert [] + rows == rows;
    }
  }

  /** Every id of the batch, written as the database writes it, gets exactly what
      the lookup for it alone gives, in the same order. */
  lemma BatchIsSingle(links: seq<Row>, ids: seq<string>, id: string)
    requires AllWellFormed(links) && id in ids && IsUuid(id) && Canonical(id)
    ensures SafeIds(ids) != [] && Bucket(Select(links, TouchingAny(SafeIds(ids))), id) == Related(links, id)
  {
    assert id in SafeIds(ids);
    BucketAgrees(links, SafeIds(ids), id);
  }

  lemma {:induction false} OtherCaseIsEmpty(rows: seq<Row>, id: string)
    requires AllWellFormed(rows) && !Canonical(id)
    ensures Bucket(rows, id) == []
  {
    if rows != [] {
      assert WellFormed(rows[|rows| - 1]);
      OtherCaseIsEmpty(rows[..|rows| - 1], id);
    }
  }

  /** No link at the id yields a contract to show. */
  predicate NothingToShow(links: seq<Row>, id: string) {
    forall i :: 0 <= i < |links| && Touches(links[i], id) ==> Normalize(links[i], id).None?
  }

  lemma {:induction false} RelatedExactly(links: seq<Row>, id: string)
    ensures Related(links, id) == [] <==> NothingToShow(links, id)
  {
    if links != [] {
      var row, rest := links[0], links[1..];
      RelatedExactly(rest, id);
      OneMoreSummary(row, Select(rest, Touching(id)), Touches(row, id), id);
      assert [row][1..] == [];
      assert NothingToShow(links, id) ==> NothingToShow(rest, id) by {
        assert forall i :: 0 <= i < |rest| ==> rest[i] == links[i + 1];
      }
      assert NothingToShow(rest, id) && (Touches(row, id) ==> Normalize(row, id).None?) ==>
        NothingToShow(links, id) by {
        assert forall i :: 0 < i < |links| ==> links[i] == rest[i - 1];
      }
    }
  }

  /** An id in capitals is looked up alone but not in a batch: the two agree
      exactly when the id is written as the database writes it or no link at it
      yields a contract to show. */
  lemma BatchAgreesExactly(links: seq<Row>, ids: seq<string>, id: string)
    requires AllWellFormed(links) && id in ids && IsUuid(id)
    ensures Bucket(Select(links, TouchingAny(SafeIds(ids))), id) == Related(links, id)
       <==> Canonical(id) || NothingToShow(links, id)
  {
    RelatedExactly(links, id);
    if Canonical(id) {
      BatchIsSingle(links, ids, id);
    } else {
      SelectedWellFormed(links, TouchingAny(SafeIds(ids)));
      OtherCaseIsEmpty(Select(links, TouchingAny(SafeIds(ids))), id);
    }
  }

  // ---- Has something carried the work on? ----

  predicate CarriesOn(row: Row, id: string) {
    (row.toId == id && (row.linkType == "continues" || row.linkType == "supersedes"))
    || (row.fromId == id && row.linkType == "delegates_to")
  }

  /** `hasSuccessorLink`: two queries, each cut off after one row. */
  predicate HasSuccessorLink(links: seq<Row>, id: string) {
    var incoming := Select(links, Successions(id));
    var outgoing := Select(links, Delegations(id));
    |incoming[..Least(1, |incoming|)]| > 0 || |outgoing[..Least(1, |outgoing|)]| > 0
  }

  function Least(a: nat, b: nat): (m: nat)
    ensures m <= a && m <= b && (m == a || m == b)
  {
    if a < b then a else b
  }

  /** The two `not exists` conditions on a candidate predecessor. */
  predicate NotCarriedOn(links: seq<Row>, id: string) {
    !(exists i :: 0 <= i < |links| && links[i].toId == id && links[i].linkType in ["continues", "supersedes"])
    && !(exists i :: 0 <= i < |links| && links[i].fromId == id && links[i].linkType == "delegates_to")
  }

  predicate IsSuccession(x: Summary) {
    (x.direction == Outgoing && x.linkType == "delegates_to")
    || (x.direction == Incoming && (x.linkType == "continues" || x.linkType == "supersedes"))
  }

  /** What the protocol inspector concludes from the related contracts. */
  predicate InspectorSees(related: seq<Summary>) { exists i :: 0 <= i < |related| && IsSuccession(related[i]) }

  lemma {:induction false} SelectedSome(links: seq<Row>, keep: Row -> bool)
    ensures Select(links, keep) != [] <==> exists i :: 0 <= i < |links| && keep(links[i])
  {
    if links != [] {
      SelectedSome(links[1..], keep);
      if i :| 0 <= i < |links| && keep(links[i]) {
        assert i > 0 ==> keep(links[1..][i - 1]);
      }
      if j :| 0 <= j < |links[1..]| && keep(links[1..][j]) {
        assert keep(links[j + 1]);
      }
    }
  }

  /** The lookup behind the closing hint and the query for predecessors ask the
      same question. */
  lemma LookupsAgree(links: seq<Row>, id: string)
    ensures HasSuccessorLink(links, id) <==> !NotCarriedOn(links, id)
  {
    SelectedSome(links, Successions(id));
    SelectedSome(links, Delegations(id));
  }

  /** A link of this row is shown: its far contract came back with a title. */
  predicate Shown(row: Row, id: string) { Normalize(row, id).Some? }

  predicate Own(rows: seq<Row>, id: string) {
    rows == [] || (WellFormed(rows[0]) && (rows[0].fromId == id || rows[0].toId == id) && Own(rows[1..], id))
  }

  lemma OwnFirst(row: Row, rest: seq<Row>, id: string)
    requires WellFormed(row) && Canonical(id) && Own(rest, id)
    ensures Own((if Touches(row, id) then [row] else []) + rest, id)
  {
    assert ([row] + rest)[1..] == rest && [] + rest == rest;
  }

  lemma {:induction false} SelectedOwn(links: seq<Row>, id: string)
    requires AllWellFormed(links) && Canonical(id)
    ensures Own(Select(links, Touching(id)), id)
  {
    if links != [] {
      SelectedOwn(links[1..], id);
      OwnFirst(links[0], Select(links[1..], Touching(id)), id);
    }
  }

  lemma {:induction false} SeenInSummaries(rows: seq<Row>, id: string)
    requires Own(rows, id)
    ensures InspectorSees(Summaries(rows, id)) <==> CarriedOnVisibly(rows, id)
  {
    if rows != [] {
      assert [rows[0]] + rows[1..] == rows;
      SeenInSummaries(rows[1..], id);
      SeenFirst(rows[0], rows[1..], id);
      VisibleFirst(rows, id);
    }
  }

  lemma VisibleFirst(rows: seq<Row>, id: string)
    requires rows != []
    ensures CarriedOnVisibly(rows, id)
      <==> (CarriesOn(rows[0], id) && Shown(rows[0], id)) || CarriedOnVisibly(rows[1..], id)
  {
    var rest := rows[1..];
    if i :| 0 <= i < |rows| && CarriesOn(rows[i], id) && Shown(rows[i], id) {
      assert i > 0 ==> rest[i - 1] == rows[i];
    }
    if j :| 0 <= j < |rest| && CarriesOn(rest[j], id) && Shown(rest[j], id) {
      assert rows[j + 1] == rest[j];
    }
  }

  lemma SeesFirst(x: Summary, tail: seq<Summary>)
    ensures InspectorSees([x] + tail) <==> IsSuccession(x) || InspectorSees(tail)
  {
    var all := [x] + tail;
    assert all[0] == x;
    if i :| 0 <= i < |tail| && IsSuccession(tail[i]) {
      assert IsSuccession(all[i + 1]);
    }
    if i :| 0 <= i < |all| && IsSuccession(all[i]) {
      assert i > 0 ==> IsSuccession(tail[i - 1]);
    }
  }

  lemma SeenFirst(row: Row, rest: seq<Row>, id: string)
    requires WellFormed(row) && (row.fromId == id || row.toId == id)
    ensures InspectorSees(Summaries([row] + rest, id))
       <==> (CarriesOn(row, id) && Shown(row, id)) || InspectorSees(Summaries(rest, id))
  {
    var all, tail := Summaries([row] + rest, id), Summaries(rest, id);
    assert ([row] + rest)[1..] == rest;
    if Shown(row, id) {
      assert all == [Normalize(row, id).value] + tail;
      SeesFirst(Normalize(row, id).value, tail);
    } else {
      assert all == tail;
    }
  }

  ghost predicate CarriedOnVisibly(links: seq<Row>, id: string) {
    exists i :: 0 <= i < |links| && CarriesOn(links[i], id) && Shown(links[i], id)
  }

  ghost predicate CarriedOn(links: seq<Row>, id: string) { exists i :: 0 <= i < |links| && CarriesOn(links[i], id) }

  lemma VisibleInSelection(links: seq<Row>, id: string)
    ensures CarriedOnVisibly(links, id) <==> CarriedOnVisibly(Select(links, Touching(id)), id)
  {
    var rows := Select(links, Touching(id));
    if i :| 0 <= i < |links| && CarriesOn(links[i], id) && Shown(links[i], id) {
      SelectedKeeps(links, Touching(id), i);
      var j :| 0 <= j < |rows| && rows[j] == links[i];
    }
    if j :| 0 <= j < |rows| && CarriesOn(rows[j], id) && Shown(rows[j], id) {
      SelectedFrom(links, Touching(id), rows[j]);
    }
  }

  lemma LookupIsCarriedOn(links: seq<Row>, id: string)
    ensures HasSuccessorLink(links, id) <==> CarriedOn(links, id)
  {
    LookupsAgree(links, id);
    if i :| 0 <= i < |links| && CarriesOn(links[i], id) {
      assert (links[i].toId == id && links[i].linkType in ["continues", "supersedes"])
             || (links[i].fromId == id && links[i].linkType == "delegates_to");
    }
  }

  /** The inspector sees a successor exactly when some link that carries the work
      on is shown. */
  lemma InspectorSeesExactly(links: seq<Row>, id: string)
    requires AllWellFormed(links) && Canonical(id)
    ensures InspectorSees(Related(links, id)) <==> CarriedOnVisibly(links, id)
  {
    var rows := Select(links, Touching(id));
    SelectedOwn(links, id);
    SeenInSummaries(rows, id);
    VisibleInSelection(links, id);
  }

  /** The three notions of having a successor: the two lookups always agree; what
      the inspector sees is always there; and it sees it when the far ends of
      such links came back with titles. */
  lemma SuccessorsAgree(links: seq<Row>, id: string)
    requires AllWellFormed(links) && Canonical(id)
    ensures HasSuccessorLink(links, id) <==> !NotCarriedOn(links, id)
    ensures InspectorSees(Related(links, id)) ==> HasSuccessorLink(links, id)
    ensures (forall i :: 0 <= i < |links| && CarriesOn(links[i], id) ==> Shown(links[i], id)) ==>
      (InspectorSees(Related(links, id)) <==> HasSuccessorLink(links, id))
  {
    LookupsAgree(links, id);
    LookupIsCarriedOn(links, id);
    InspectorSeesExactly(links, id);
  }

  lemma {:induction false} SelectedKeeps(links: seq<Row>, keep: Row -> bool, i: nat)
    requires i < |links| && keep(links[i])
    ensures links[i] in Select(links, keep)
  {
    if i > 0 {
      SelectedKeeps(links[1..], keep, i - 1);
    }
  }

  // ---- Ids and rows by their parts ----

  predicate Hex(s: string, n: nat) {
    |s| == n && forall i :: 0 <= i < n ==> s[i] in "0123456789abcdefABCDEF"
  }

  lemma HexIs(c: char)
    ensures HexChar(c) <==> c in "0123456789abcdefABCDEF"
  {
    var digits, small, large := "0123456789", "abcdef", "ABCDEF";
    assert forall i :: 0 <= i < 10 ==> digits[i] == '0' + i as char;
    assert forall i :: 0 <= i < 6 ==> small[i] == 'a' + i as char && large[i] == 'A' + i as char;
    assert "0123456789abcdefABCDEF" == digits + small + large;
    if '0' <= c <= '9' {
      assert digits[c as int - '0' as int] == c;
    } else if 'a' <= c <= 'f' {
      assert small[c as int - 'a' as int] == c;
    } else if 'A' <= c <= 'F' {
      assert large[c as int - 'A' as int] == c;
    }
  }

  /** Five groups of hexadecimal digits, of 8, 4, 4, 4 and 12. */
  lemma UuidExactly(s: string)
    ensures IsUuid(s)
       <==> |s| == 36 && Hex(s[..8], 8) && Hex(s[9..13], 4) && Hex(s[14..18], 4) && Hex(s[19..23], 4)
            && Hex(s[24..], 12) && s[8] == '-' && s[13] == '-' && s[18] == '-' && s[23] == '-'
  {
    forall c {
      HexIs(c);
    }
    if |s| == 36 {
      assert forall i :: 0 <= i < 8 ==> s[..8][i] == s[i];
      assert forall i :: 9 <= i < 13 ==> s[9..13][i - 9] == s[i];
      assert forall i :: 14 <= i < 18 ==> s[14..18][i - 14] == s[i];
      assert forall i :: 19 <= i < 23 ==> s[19..23][i - 19] == s[i];
      assert forall i :: 24 <= i < 36 ==> s[24..][i - 24] == s[i];
    }
  }

  /** Comparing without regard to case: the letters A to Z alone have another
      form. */
  lemma {:induction false} LowerExactly(s: string, i: nat)
    requires i < |s|
    ensures var c := s[i] as int;
      Lower(s)[i] as int == if 65 <= c <= 90 then c + 32 else c
  {
    if i > 0 {
      LowerExactly(s[1..], i - 1);
    }
  }

  /** A link out of a contract is shown with the contract it leads to, one into it
      with the one it comes from; only a known kind of link to a contract that came
      back with an id and a title is shown, and one without a status as closed. */
  lemma SummaryExactly(row: Row, self: string, far: Far)
    requires row.fromId != row.toId && (self == row.fromId || self == row.toId)
    requires One(if self == row.fromId then row.toContract else row.fromContract) == Some(far)
    ensures Normalize(row, self)
         == if row.linkType !in {"continues", "supersedes", "delegates_to"} || far.id == "" || far.title.None?
               || far.title.value == ""
            then None
            else Some(Summary(if self == row.fromId then row.toId else row.fromId, far.title.value,
                              if far.status.None? || far.status.value == "" then "closed" else far.status.value,
                              row.linkType, if self == row.fromId then Outgoing else Incoming,
                              row.note, row.createdAt, row.createdBy))
  {
  }

  lemma OneExactly(f: Far, fs: seq<Far>)
    ensures One(Absent) == None && One(Object(f)) == Some(f) && One(Array([])) == None
    ensures One(Array([f] + fs)) == Some(f)
  {
  }

  /** What carries a contract's work on: a link into it that continues or supersedes
      it, or one out of it that delegates. */
  lemma SelectsExactly(row: Row, id: string)
    ensures Successions(id)(row) <==> row.toId == id && (row.linkType == "continues" || row.linkType == "supersedes")
    ensures Delegations(id)(row) <==> row.fromId == id && row.linkType == "delegates_to"
  {
  }
}
