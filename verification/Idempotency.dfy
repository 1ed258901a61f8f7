/** Idempotency keys: requests that claim a key, replay what is stored under it,
    or are told that another one is at work, each statement one step. A claim
    stores a null response; `nullable` says whether the table's schema lets it. */
module Idempotency {
  import opened Text

  const MAX_KEY_LENGTH := 256
  const DAY_MS := 86400000

  /** A key belongs to one agent and one endpoint. */
  datatype Triple = Triple(key: string, agent: string, endpoint: string)

  /** Status 0 marks a claim whose response is not known yet. */
  datatype Record = Record(status: nat, response: Option<string>, expiresAt: int)

  type Table = map<Triple, Record>

  // ---- What a query gives back ----

  datatype Cardinality = Many | Single | MaybeSingle

  datatype Shaped<T> = Failed(code: string) | Rows(rows: seq<T>) | One(row: Option<T>)

  /** `shape`: how many rows the caller asked for decides what is an error. */
  function Shape<T>(rows: seq<T>, cardinality: Cardinality): Shaped<T> {
    if cardinality == Single && |rows| != 1 then Failed("PGRST116")
    else if cardinality == MaybeSingle && |rows| > 1 then Failed("PGRST116")
    else if cardinality == Many then Rows(rows)
    else One(if rows == [] then None else Some(rows[0]))
  }

  // ---- The statements ----

  function Claimed(now: int): Record { Record(0, None, now + DAY_MS) }

  /** `insert … on conflict do nothing returning`: no row when the key is there,
      and an error, whether it is there or not, when null is not allowed. */
  function ClaimResult(t: Table, k: Triple, now: int, nullable: bool): Shaped<Record> {
    if !nullable then Failed("23502") else Shape(if k in t then [] else [Claimed(now)], Single)
  }

  function AfterClaim(t: Table, k: Triple, now: int, nullable: bool): Table {
    if !nullable || k in t then t else t[k := Claimed(now)]
  }

  function Select(t: Table, k: Triple): seq<Record> { if k in t then [t[k]] else [] }

  /** `insert … on conflict do update`. */
  function AfterStore(t: Table, k: Triple, status: nat, response: string, now: int): Table {
    t[k := Record(status, Some(response), now + DAY_MS)]
  }

  datatype Answer =
    | Proceed
    | Conflict
    | Replay(status: nat, response: Option<string>)
    | DeleteAndProceed

  /** What a request that lost the claim makes of the row it reads. */
  function Judge(row: Shaped<Record>, now: int): Answer {
    if row.Failed? || row.Rows? || row.row.None? then Proceed
    else if row.row.value.status == 0 then Conflict
    else if row.row.value.expiresAt < now then DeleteAndProceed
    else Replay(row.row.value.status, row.row.value.response)
  }

  datatype Check = Unkeyed | Invalid | Keyed(answer: Answer)

  /** The table, and `checkIdempotency` when nothing comes between its
      statements. */
  class KeyTable {
    var rows: Table
    const nullable: bool

    constructor (nullable: bool)
      ensures rows == map[] && this.nullable == nullable
    {
      rows := map[];
      this.nullable := nullable;
    }

    method Claim(k: Triple, now: int) returns (row: Shaped<Record>)
      modifies this
      ensures rows == AfterClaim(old(rows), k, now, nullable)
      ensures row == ClaimResult(old(rows), k, now, nullable)
    {
      if !nullable { return Failed("23502"); }
      if k in rows {
        row := Shape([], Single);
      } else {
        rows := rows[k := Claimed(now)];
        row := Shape([rows[k]], Single);
      }
    }

    method Remove(k: Triple)
      modifies this
      ensures rows == old(rows) - {k}
    {
      rows := rows - {k};
    }

    method Store(key: Option<string>, agent: string, endpoint: string, status: nat, response: string, now: int)
      modifies this
      ensures rows == if key.None? || key.value == "" then old(rows)
                      else AfterStore(old(rows), Triple(key.value, agent, endpoint), status, response, now)
    {
      if key.None? || key.value == "" { return; }
      rows := rows[Triple(key.value, agent, endpoint) := Record(status, Some(response), now + DAY_MS)];
    }

    /** A fresh key is claimed, where it can be; a claim without a response is a
        conflict however old it is; a stored response is replayed until it
        expires. */
    method CheckIdempotency(key: Option<string>, agent: string, endpoint: string, now: int) returns (check: Check)
      modifies this
      ensures key.None? || key.value == "" ==> check == Unkeyed && rows == old(rows)
      ensures key.Some? && |key.value| > 256 ==> check == Invalid && rows == old(rows)
      ensures key.Some? && 0 < |key.value| <= 256 ==>
        var k := Triple(key.value, agent, endpoint);
        if k !in old(rows) then
          check == Keyed(Proceed) && rows == (if nullable then old(rows)[k := Claimed(now)] else old(rows))
        else
          var r := old(rows)[k];
          if r.status == 0 then check == Keyed(Conflict) && rows == old(rows)
          else if r.expiresAt < now then check == Keyed(Proceed) && rows == old(rows) - {k}
          else check == Keyed(Replay(r.status, r.response)) && rows == old(rows)
    {
      if key.None? || key.value == "" { return Unkeyed; }
      if |key.value| > MAX_KEY_LENGTH { return Invalid; }
      var k := Triple(key.value, agent, endpoint);
      var upserted := Claim(k, now);
      if !upserted.Failed? { return Keyed(Proceed); }
      var answer := Judge(Shape(if k in rows then [rows[k]] else [], Single), now);
      if answer == DeleteAndProceed {
        Remove(k);
        return Keyed(Proceed);
      }
      check := Keyed(answer);
    }
  }

  // ---- Many requests ----

  datatype Phase =
    | Checking
    | Lost
    | Deleting
    | Proceeding
    | Done(status: nat, response: Option<string>)
    | Replayed(status: nat, response: Option<string>)
    | Refused

  datatype Request = Request(triple: Triple, phase: Phase)

  type Req = string

  datatype State = State(rows: Table, requests: map<Req, Request>, clock: int, nullable: bool)

  datatype Action =
    | Begin(req: Req, triple: Triple)
    | ClaimKey(req: Req)
    | Read(req: Req)
    | Delete(req: Req)
    | Store(req: Req, status: nat, response: string)
    | Tick(now: int)

  predicate In(s: State, req: Req, phase: Phase) { req in s.requests && s.requests[req].phase == phase }

  predicate Enabled(s: State, a: Action) {
    match a
    case Begin(req, _) => req !in s.requests
    case ClaimKey(req) => In(s, req, Checking)
    case Read(req) => In(s, req, Lost)
    case Delete(req) => In(s, req, Deleting)
    case Store(req, status, _) => In(s, req, Proceeding) && status != 0
    case Tick(now) => s.clock <= now
  }

  function Move(s: State, req: Req, phase: Phase): State
    requires req in s.requests
  {
    s.(requests := s.requests[req := s.requests[req].(phase := phase)])
  }

  function PhaseOf(answer: Answer): Phase {
    match answer
    case Proceed => Proceeding
    case Conflict => Refused
    case Replay(status, response) => Replayed(status, response)
    case DeleteAndProceed => Deleting
  }

  function Apply(s: State, a: Action): State
    requires Enabled(s, a)
  {
    match a
    case Begin(req, triple) => s.(requests := s.requests[req := Request(triple, Checking)])
    case ClaimKey(req) =>
      var k := s.requests[req].triple;
      var lost := ClaimResult(s.rows, k, s.clock, s.nullable).Failed?;
      Move(s, req, if lost then Lost else Proceeding).(rows := AfterClaim(s.rows, k, s.clock, s.nullable))
    case Read(req) => Move(s, req, PhaseOf(Judge(Shape(Select(s.rows, s.requests[req].triple), Single), s.clock)))
    case Delete(req) => Move(s, req, Proceeding).(rows := s.rows - {s.requests[req].triple})
    case Store(req, status, response) =>
      var stored := AfterStore(s.rows, s.requests[req].triple, status, response, s.clock);
      Move(s, req, Done(status, Some(response))).(rows := stored)
    case Tick(now) => s.(clock := now)
  }

  predicate Runs(s: State, run: seq<Action>)
    decreases |run|
  {
    run == [] || (Enabled(s, run[0]) && Runs(Apply(s, run[0]), run[1..]))
  }

  function After(s: State, run: seq<Action>): State
    requires Runs(s, run)
    decreases |run|
  {
    if run == [] then s else After(Apply(s, run[0]), run[1..])
  }

  // ---- What every step keeps, until something expires ----

  predicate Won(p: Phase) { p.Proceeding? || p.Done? }

  /** No record there is expires by `until`. */
  predicate Fresh(s: State, until: int) {
    until <= s.clock + DAY_MS && forall k :: k in s.rows ==> until <= s.rows[k].expiresAt
  }

  predicate Answered(s: State, k: Triple) { k in s.rows && s.rows[k].status != 0 }

  /** How far a request got, against the record under its key; there is more to
      say where a claim can be stored. */
  predicate Consistent(s: State, q: Request) {
    match q.phase
    case Checking => true
    case Lost => s.nullable ==> q.triple in s.rows
    case Deleting => false
    case Proceeding => s.nullable ==> q.triple in s.rows && s.rows[q.triple].status == 0
    case Done(status, response) => status != 0 && Stands(s, q.triple, status, response)
    case Replayed(status, response) => status != 0 && Stands(s, q.triple, status, response)
    case Refused => q.triple in s.rows
  }

  /** A response is there, and it is this one where a claim can be stored. */
  predicate Stands(s: State, k: Triple, status: nat, response: Option<string>) {
    Answered(s, k) && (s.nullable ==> s.rows[k].status == status && s.rows[k].response == response)
  }

  ghost predicate OneWinner(s: State) {
    forall q, r :: BothWon(s, q, r) ==> q == r
  }

  predicate BothWon(s: State, q: Req, r: Req) {
    q in s.requests && r in s.requests && s.requests[q].triple == s.requests[r].triple
    && Won(s.requests[q].phase) && Won(s.requests[r].phase)
  }

  ghost predicate Inv(s: State, until: int) {
    Fresh(s, until) && (s.nullable ==> OneWinner(s)) && forall q :: q in s.requests ==> Consistent(s, s.requests[q])
  }

  lemma StepConsistent(s: State, a: Action, until: int, q: Req)
    requires Inv(s, until) && Enabled(s, a) && Apply(s, a).clock <= until && q in Apply(s, a).requests
    ensures Consistent(Apply(s, a), Apply(s, a).requests[q])
  {
    if !a.Begin? && !a.Tick? {
      assert Consistent(s, s.requests[a.req]);
    }
    if q in s.requests {
      assert Consistent(s, s.requests[q]);
      if s.nullable && a.Store? && a.req != q && s.requests[q].triple == s.requests[a.req].triple {
        assert !BothWon(s, q, a.req);
      }
    }
  }

  lemma StepInv(s: State, a: Action, until: int)
    requires Inv(s, until) && Enabled(s, a) && Apply(s, a).clock <= until
    ensures Inv(Apply(s, a), until)
  {
    var t := Apply(s, a);
    forall q | q in t.requests ensures Consistent(t, t.requests[q]) {
      StepConsistent(s, a, until, q);
    }
    if !a.Begin? && !a.Tick? {
      assert Consistent(s, s.requests[a.req]);
    }
    forall q, r | s.nullable && BothWon(t, q, r) ensures q == r {
      if q in s.requests {
        assert Consistent(s, s.requests[q]);
      }
      if r in s.requests {
        assert Consistent(s, s.requests[r]);
      }
      assert BothWon(s, q, r) ==> q == r;
    }
  }

  lemma {:induction false} ClockGrows(s: State, run: seq<Action>)
    requires Runs(s, run)
    ensures s.clock <= After(s, run).clock
    decreases |run|
  {
    if run != [] {
      ClockGrows(Apply(s, run[0]), run[1..]);
    }
  }

  lemma {:induction false} RunInv(s: State, run: seq<Action>, until: int)
    requires Inv(s, until) && Runs(s, run) && After(s, run).clock <= until
    ensures Inv(After(s, run), until) && After(s, run).nullable == s.nullable
    decreases |run|
  {
    if run != [] {
      ClockGrows(Apply(s, run[0]), run[1..]);
      StepInv(s, run[0], until);
      RunInv(Apply(s, run[0]), run[1..], until);
    }
  }

  /** Nothing under way; whatever is stored lasts until `until`, and so would
      anything stored from now on. */
  predicate Quiet(s: State, until: int) { s.requests == map[] && Fresh(s, until) }

  // ---- The protocol's promises ----

  /** Of the requests with one key, agent and endpoint, at most one is told to
      proceed, when claims can be stored. */
  lemma AtMostOneProceeds(s: State, run: seq<Action>, until: int, q: Req, r: Req)
    requires s.nullable && Quiet(s, until) && Runs(s, run) && After(s, run).clock <= until
    requires BothWon(After(s, run), q, r)
    ensures q == r
  {
    RunInv(s, run, until);
  }

  /** In no run do two requests with the same key both proceed. */
  ghost predicate Exclusive(s: State, until: int) {
    forall run, q, r :: Runs(s, run) && After(s, run).clock <= until && BothWon(After(s, run), q, r) ==> q == r
  }

  lemma RunsCons(s: State, a: Action, rest: seq<Action>)
    requires Enabled(s, a) && Runs(Apply(s, a), rest)
    ensures Runs(s, [a] + rest) && After(s, [a] + rest) == After(Apply(s, a), rest)
  {
    assert ([a] + rest)[1..] == rest;
  }

  /** Where null is refused, a request that finds nothing stored proceeds, and
      leaves nothing for the next one to find. */
  lemma UnclaimedProceeds(s: State, req: Req, k: Triple, rest: seq<Action>)
    requires !s.nullable && req !in s.requests && k !in s.rows
    requires Runs(s.(requests := s.requests[req := Request(k, Proceeding)]), rest)
    ensures var run := [Begin(req, k)] + ([ClaimKey(req)] + ([Read(req)] + rest));
      Runs(s, run) && After(s, run) == After(s.(requests := s.requests[req := Request(k, Proceeding)]), rest)
  {
    var s1 := Apply(s, Begin(req, k));
    var s2 := Apply(s1, ClaimKey(req));
    var s3 := Apply(s2, Read(req));
    assert s3 == s.(requests := s.requests[req := Request(k, Proceeding)]);
    RunsCons(s2, Read(req), rest);
    RunsCons(s1, ClaimKey(req), [Read(req)] + rest);
    RunsCons(s, Begin(req, k), [ClaimKey(req)] + ([Read(req)] + rest));
  }

  lemma BothProceedUnclaimed(s: State, k: Triple) returns (run: seq<Action>)
    requires !s.nullable && s.requests == map[] && k !in s.rows
    ensures Runs(s, run) && After(s, run).clock == s.clock && BothWon(After(s, run), "a", "b")
  {
    var one := s.(requests := map["a" := Request(k, Proceeding)]);
    var two := one.(requests := one.requests["b" := Request(k, Proceeding)]);
    var second := [Begin("b", k)] + ([ClaimKey("b")] + ([Read("b")] + []));
    run := [Begin("a", k)] + ([ClaimKey("a")] + ([Read("a")] + second));
    assert Runs(two, []);
    UnclaimedProceeds(one, "b", k, []);
    assert s.requests["a" := Request(k, Proceeding)] == one.requests;
    UnclaimedProceeds(s, "a", k, second);
  }

  /** A key keeps concurrent requests apart exactly when the schema lets a claim
      be stored. The schema in the repository does not: its `response` column
      refuses null. */
  lemma ExclusiveExactly(s: State, until: int, k: Triple)
    requires Quiet(s, until) && s.clock <= until && k !in s.rows
    ensures Exclusive(s, until) <==> s.nullable
  {
    if s.nullable {
      forall run, q, r | Runs(s, run) && After(s, run).clock <= until && BothWon(After(s, run), q, r) ensures q == r {
        AtMostOneProceeds(s, run, until, q, r);
      }
    } else {
      var run := BothProceedUnclaimed(s, k);
      assert BothWon(After(s, run), "a", "b");
    }
  }

  /** No request is ever told to throw a record away; none proceeds over one when
      claims can be stored. */
  lemma NothingIsDeleted(s: State, run: seq<Action>, until: int, k: Triple)
    requires Quiet(s, until) && Runs(s, run) && After(s, run).clock <= until && k in s.rows
    ensures k in After(s, run).rows && (Answered(s, k) ==> Answered(After(s, run), k))
    ensures s.nullable && Answered(s, k) ==> After(s, run).rows[k] == s.rows[k]
  {
    KeptFrom(s, run, until, k);
  }

  lemma {:induction false} KeptFrom(s: State, run: seq<Action>, until: int, k: Triple)
    requires Inv(s, until) && Runs(s, run) && After(s, run).clock <= until && k in s.rows
    ensures After(s, run).nullable == s.nullable
    ensures k in After(s, run).rows && (Answered(s, k) ==> Answered(After(s, run), k))
    ensures s.nullable && Answered(s, k) ==> After(s, run).rows[k] == s.rows[k]
    decreases |run|
  {
    if run != [] {
      var a := run[0];
      ClockGrows(Apply(s, a), run[1..]);
      if !a.Begin? && !a.Tick? {
        assert Consistent(s, s.requests[a.req]);
      }
      StepInv(s, a, until);
      KeptFrom(Apply(s, a), run[1..], until, k);
    }
  }

  // ---- Whatever the schema allows ----

  datatype Reply = Reply(status: nat, response: Option<string>)

  /** The responses that a run stores under a key, in order. */
  function StoredBy(s: State, run: seq<Action>, k: Triple): seq<Reply>
    requires Runs(s, run)
    decreases |run|
  {
    if run == [] then []
    else
      var a, later := run[0], StoredBy(Apply(s, run[0]), run[1..], k);
      if a.Store? && s.requests[a.req].triple == k then [Reply(a.status, Some(a.response))] + later else later
  }

  /** The response stored last under a key, or the one that was there. */
  function LastStored(s: State, run: seq<Action>, k: Triple): Option<Reply>
    requires Runs(s, run)
  {
    var stored := StoredBy(s, run, k);
    if stored != [] then Some(stored[|stored| - 1])
    else if Answered(s, k) then Some(Reply(s.rows[k].status, s.rows[k].response))
    else None
  }

  /** What the table answers for a key was stored last. */
  lemma {:induction false} TableHoldsLast(s: State, run: seq<Action>, k: Triple)
    requires Runs(s, run)
    ensures var t := After(s, run);
      Answered(t, k) ==> LastStored(s, run, k) == Some(Reply(t.rows[k].status, t.rows[k].response))
    decreases |run|
  {
    if run != [] {
      TableHoldsLast(Apply(s, run[0]), run[1..], k);
    }
  }

  /** Under any schema, at any time, and after any deletions: a response that is
      replayed is the one stored last under that key. */
  lemma ReplayIsLastStored(s: State, run: seq<Action>, q: Req)
    requires Runs(s, run) && Enabled(After(s, run), Read(q))
    ensures var t := Apply(After(s, run), Read(q)); var p := t.requests[q].phase;
      p.Replayed? ==> LastStored(s, run, t.requests[q].triple) == Some(Reply(p.status, p.response))
  {
    TableHoldsLast(s, run, After(s, run).requests[q].triple);
  }

  /** No claim without a response, as where null is refused. */
  predicate NoClaims(s: State) { forall k :: k in s.rows ==> s.rows[k].status != 0 }

  lemma {:induction false} NothingClaimed(s: State, run: seq<Action>, until: int, k: Triple)
    requires !s.nullable && NoClaims(s) && Inv(s, until) && Runs(s, run) && After(s, run).clock <= until
    ensures !After(s, run).nullable && NoClaims(After(s, run))
    ensures LastStored(s, run, k).Some? <==> k in After(s, run).rows
    decreases |run|
  {
    if run != [] {
      var t := Apply(s, run[0]);
      ClockGrows(t, run[1..]);
      StepInv(s, run[0], until);
      NoDeletes(s, run[0], until);
      NothingClaimed(t, run[1..], until, k);
    }
  }

  lemma NoDeletes(s: State, a: Action, until: int)
    requires Inv(s, until) && Enabled(s, a)
    ensures !a.Delete?
  {
    assert a.Delete? ==> Consistent(s, s.requests[a.req]);
  }

  /** Under the repository's own schema a request proceeds exactly when nothing
      was stored under its key by the time it reads, and otherwise replays the
      response stored last: it is never told to wait. */
  lemma ProceedsExactly(s: State, run: seq<Action>, until: int, q: Req)
    requires !s.nullable && NoClaims(s) && Quiet(s, until)
    requires Runs(s, run) && After(s, run).clock <= until && Enabled(After(s, run), Read(q))
    ensures var k := After(s, run).requests[q].triple;
      Apply(After(s, run), Read(q)).requests[q].phase
      == match LastStored(s, run, k) case None => Proceeding case Some(r) => Replayed(r.status, r.response)
  {
    var k := After(s, run).requests[q].triple;
    RunInv(s, run, until);
    NothingClaimed(s, run, until, k);
    TableHoldsLast(s, run, k);
  }

  /** A request whose claim is still to be judged when a response is there. */
  predicate Late(s: State, q: Req, k: Triple) {
    q in s.requests && s.requests[q].triple == k ==>
      s.requests[q].phase in {Checking, Lost} || s.requests[q].phase.Replayed?
  }

  lemma {:induction false} LateStaysOut(s: State, run: seq<Action>, until: int, k: Triple, q: Req)
    requires Inv(s, until) && Answered(s, k) && Late(s, q, k)
    requires Runs(s, run) && After(s, run).clock <= until
    ensures Late(After(s, run), q, k)
    decreases |run|
  {
    if run != [] {
      var t := Apply(s, run[0]);
      ClockGrows(t, run[1..]);
      StepInv(s, run[0], until);
      KeptFrom(s, [run[0]], until, k);
      assert [run[0]][1..] == [];
      LateStaysOut(t, run[1..], until, k, q);
    }
  }

  /** Under any schema: once a request has its response stored, no request that
      comes later, or has not yet read, proceeds or is told to wait. */
  lemma StoredEndsIt(s: State, before: seq<Action>, run: seq<Action>, until: int, w: Req, q: Req)
    requires Quiet(s, until) && Runs(s, before)
    requires var m := After(s, before);
      Runs(m, run) && After(m, run).clock <= until
      && w in m.requests && m.requests[w].phase.Done? && Late(m, q, m.requests[w].triple)
    ensures var m := After(s, before); Late(After(m, run), q, m.requests[w].triple)
  {
    var m := After(s, before);
    ClockGrows(m, run);
    RunInv(s, before, until);
    assert Consistent(m, m.requests[w]);
    LateStaysOut(m, run, until, m.requests[w].triple, q);
  }

  /** A request with another key, agent or endpoint changes nothing here. */
  lemma OtherKeysUntouched(s: State, a: Action, k: Triple, q: Req)
    requires Enabled(s, a) && !a.Begin? && !a.Tick? && s.requests[a.req].triple != k
    requires q in s.requests && s.requests[q].triple == k
    ensures var t := Apply(s, a);
      (k in t.rows <==> k in s.rows) && (k in s.rows ==> t.rows[k] == s.rows[k]) && t.requests[q] == s.requests[q]
  {
  }

  /** Whatever was replayed was stored under that key, or was there. */
  lemma {:induction false} ReplayWasStored(s: State, run: seq<Action>, q: Req)
    requires Runs(s, run) && q in After(s, run).requests && After(s, run).requests[q].phase.Replayed?
    ensures var r := After(s, run).requests[q]; var reply := Reply(r.phase.status, r.phase.response);
      (q in s.requests && s.requests[q] == r) || reply in StoredBy(s, run, r.triple)
      || (Answered(s, r.triple) && reply == Reply(s.rows[r.triple].status, s.rows[r.triple].response))
    decreases |run|
  {
    if run != [] {
      ReplayWasStored(Apply(s, run[0]), run[1..], q);
    }
  }

  /** A replayed response was stored under its key, and the key stays answered;
      where claims can be stored it is the one stored, the winner's, and the only
      one replayed. */
  lemma ReplayIsTheStoredResponse(s: State, run: seq<Action>, until: int, q: Req, w: Req)
    requires Quiet(s, until) && Runs(s, run) && After(s, run).clock <= until
    requires var t := After(s, run);
      q in t.requests && t.requests[q].phase.Replayed? && w in t.requests
        && t.requests[w].triple == t.requests[q].triple
    ensures var t := After(s, run); var p, k := t.requests[q].phase, t.requests[q].triple;
      Answered(t, k)
      && (Reply(p.status, p.response) in StoredBy(s, run, k)
          || (Answered(s, k) && Reply(p.status, p.response) == Reply(s.rows[k].status, s.rows[k].response)))
      && (s.nullable ==> p == Replayed(t.rows[k].status, t.rows[k].response))
    ensures var t := After(s, run); var p, v := t.requests[q].phase, t.requests[w].phase;
      s.nullable ==>
        !v.Proceeding? && (v.Done? ==> p == Replayed(v.status, v.response)) && (v.Replayed? ==> v == p)
  {
    RunInv(s, run, until);
    ReplayWasStored(s, run, q);
    var t := After(s, run);
    assert Consistent(t, t.requests[q]) && Consistent(t, t.requests[w]);
  }

  lemma NoRefusal(s: State, a: Action, until: int, q: Req)
    requires !s.nullable && NoClaims(s) && Inv(s, until) && Enabled(s, a)
    requires q in Apply(s, a).requests && (q in s.requests ==> !s.requests[q].phase.Refused?)
    ensures !Apply(s, a).requests[q].phase.Refused?
  {
  }

  lemma {:induction false} NoRefusals(s: State, run: seq<Action>, until: int, q: Req)
    requires !s.nullable && NoClaims(s) && Inv(s, until) && Runs(s, run) && After(s, run).clock <= until
    requires (q in s.requests ==> !s.requests[q].phase.Refused?) && q in After(s, run).requests
    ensures !After(s, run).requests[q].phase.Refused?
    decreases |run|
  {
    if run != [] {
      var t := Apply(s, run[0]);
      ClockGrows(t, run[1..]);
      StepInv(s, run[0], until);
      OneStepClaims(s, run[0], until);
      if q in t.requests {
        NoRefusal(s, run[0], until, q);
      }
      NoRefusals(t, run[1..], until, q);
    }
  }

  lemma OneStepClaims(s: State, a: Action, until: int)
    requires !s.nullable && NoClaims(s) && Inv(s, until) && Enabled(s, a)
    ensures !Apply(s, a).nullable && NoClaims(Apply(s, a))
  {
  }

  /** Beside one that stored its response, a request replays, is told to wait or
      has no answer yet; where claims can be stored it replays that response, and
      under the repository's own schema none is told to wait. */
  lemma EveryAnswerAccountedFor(s: State, run: seq<Action>, until: int, q: Req, w: Req)
    requires Quiet(s, until) && Runs(s, run) && After(s, run).clock <= until
    requires var t := After(s, run);
      q in t.requests && w in t.requests && q != w
      && t.requests[q].triple == t.requests[w].triple && t.requests[w].phase.Done?
    ensures var t := After(s, run); var p, v := t.requests[q].phase, t.requests[w].phase;
      !p.Deleting? && (s.nullable ==> p in {Checking, Lost, Refused, Replayed(v.status, v.response)})
      && (!s.nullable && NoClaims(s) ==> !p.Refused?)
  {
    RunInv(s, run, until);
    var t := After(s, run);
    assert Consistent(t, t.requests[q]) && Consistent(t, t.requests[w]);
    assert s.nullable ==> !BothWon(t, q, w);
    if !s.nullable && NoClaims(s) {
      NoRefusals(s, run, until, q);
    }
  }
}
