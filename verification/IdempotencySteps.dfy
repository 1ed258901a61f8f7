/** The steps of a request with an idempotency key said in the record under it,
    and the two runs a client sees: the first request and its repetition. */
module IdempotencySteps {
  import opened Text
  import opened Idempotency

  /** How many rows a caller asked for decides what is an error. */
  lemma ShapeExactly(rows: seq<Record>)
    ensures Shape(rows, Many) == Rows(rows)
    ensures Shape(rows, Single) == if |rows| == 1 then One(Some(rows[0])) else Failed("PGRST116")
    ensures Shape(rows, MaybeSingle)
         == if |rows| > 1 then Failed("PGRST116") else One(if |rows| == 1 then Some(rows[0]) else None)
  {
  }

  /** A claim answers with its record, with no row where one is there, and with the
      violation of `NOT NULL` where null cannot be stored. */
  lemma ClaimAnswers(t: Table, k: Triple, now: int)
    ensures ClaimResult(t, k, now, false) == Failed("23502")
    ensures ClaimResult(t, k, now, true)
         == if k in t then Failed("PGRST116") else One(Some(Record(0, None, now + 86400000)))
  {
  }

  function At(s: State, req: Req, triple: Triple, phase: Phase): State {
    s.(requests := s.requests[req := Request(triple, phase)])
  }

  lemma BeginExactly(s: State, req: Req, k: Triple)
    requires req !in s.requests
    ensures Enabled(s, Begin(req, k)) && Apply(s, Begin(req, k)) == At(s, req, k, Checking)
  {
  }

  /** A claim is won exactly where null can be stored and nothing is there; then it
      is a record without a response for a day, and otherwise nothing is written. */
  lemma ClaimExactly(s: State, req: Req, k: Triple)
    requires req in s.requests && s.requests[req] == Request(k, Checking)
    ensures Enabled(s, ClaimKey(req))
    ensures Apply(s, ClaimKey(req))
         == if s.nullable && k !in s.rows
            then At(s, req, k, Proceeding).(rows := s.rows[k := Record(0, None, s.clock + 86400000)])
            else At(s, req, k, Lost)
  {
  }

  /** A request that lost the claim proceeds where it reads nothing, is refused
      while there is no response, however old, and gets the stored response until
      that expires. */
  lemma ReadExactly(s: State, req: Req, k: Triple)
    requires req in s.requests && s.requests[req] == Request(k, Lost)
    ensures Enabled(s, Read(req))
    ensures Apply(s, Read(req))
         == At(s, req, k, if k !in s.rows then Proceeding
                          else if s.rows[k].status == 0 then Refused
                          else if s.rows[k].expiresAt < s.clock then Deleting
                          else Replayed(s.rows[k].status, s.rows[k].response))
  {
  }

  lemma DeleteExactly(s: State, req: Req, k: Triple)
    requires req in s.requests && s.requests[req] == Request(k, Deleting)
    ensures Enabled(s, Delete(req))
    ensures Apply(s, Delete(req)) == At(s, req, k, Proceeding).(rows := s.rows - {k})
  {
  }

  /** The response is stored for a day, over whatever is there. */
  lemma StoreExactly(s: State, req: Req, k: Triple, status: nat, response: string)
    requires req in s.requests && s.requests[req] == Request(k, Proceeding) && status != 0
    ensures Enabled(s, Store(req, status, response))
    ensures Apply(s, Store(req, status, response))
         == At(s, req, k, Done(status, Some(response)))
            .(rows := s.rows[k := Record(status, Some(response), s.clock + 86400000)])
  {
  }

  lemma TickExactly(s: State, now: int)
    requires s.clock <= now
    ensures Enabled(s, Tick(now)) && Apply(s, Tick(now)) == s.(clock := now)
  {
  }

  // ---- The first request and its repetition ----

  lemma Then(s: State, a: Action, rest: seq<Action>) returns (run: seq<Action>)
    requires Enabled(s, a) && Runs(Apply(s, a), rest)
    ensures Runs(s, run) && After(s, run) == After(Apply(s, a), rest)
  {
    run := [a] + rest;
    assert run[1..] == rest;
  }

  /** Under either schema the request comes to proceed. */
  lemma FreshProceeds(s: State, req: Req, k: Triple) returns (t: State, first: seq<Action>)
    requires req in s.requests && s.requests[req] == Request(k, Checking) && k !in s.rows
    ensures Runs(s, first) && After(s, first) == t && t.clock == s.clock
    ensures t.requests == s.requests[req := Request(k, Proceeding)]
    ensures t.rows == if s.nullable then s.rows[k := Record(0, None, s.clock + 86400000)] else s.rows
  {
    ClaimExactly(s, req, k);
    t := Apply(s, ClaimKey(req));
    first := [];
    if !s.nullable {
      ReadExactly(t, req, k);
      first := Then(t, Read(req), []);
      t := Apply(t, Read(req));
    }
    first := Then(s, ClaimKey(req), first);
  }

  lemma {:induction false} RunsAppend(s: State, run: seq<Action>, more: seq<Action>)
    requires Runs(s, run) && Runs(After(s, run), more)
    ensures Runs(s, run + more) && After(s, run + more) == After(After(s, run), more)
    decreases |run|
  {
    if run == [] {
      assert run + more == more;
    } else {
      assert (run + more)[1..] == run[1..] + more;
      RunsAppend(Apply(s, run[0]), run[1..], more);
    }
  }

  /** A request with a fresh key proceeds, under either schema, and its response is
      then stored. */
  lemma FreshIsAnswered(s: State, req: Req, k: Triple, status: nat, response: string) returns (run: seq<Action>)
    requires req !in s.requests && k !in s.rows && status != 0
    ensures Runs(s, run)
    ensures After(s, run).rows == s.rows[k := Record(status, Some(response), s.clock + 86400000)]
    ensures After(s, run).requests == s.requests[req := Request(k, Done(status, Some(response)))]
  {
    BeginExactly(s, req, k);
    var s1 := Apply(s, Begin(req, k));
    var t, first := FreshProceeds(s1, req, k);
    StoreExactly(t, req, k, status, response);
    run := Then(t, Store(req, status, response), []);
    RunsAppend(s1, first, run);
    run := Then(s, Begin(req, k), first + run);
  }

  /** Its repetition, while the response is kept, gets that response and writes
      nothing, under either schema. */
  lemma RepeatedIsReplayed(s: State, req: Req, k: Triple) returns (run: seq<Action>)
    requires req !in s.requests && k in s.rows && s.rows[k].status != 0 && s.clock <= s.rows[k].expiresAt
    ensures Runs(s, run) && After(s, run).rows == s.rows
    ensures After(s, run).requests == s.requests[req := Request(k, Replayed(s.rows[k].status, s.rows[k].response))]
  {
    var s1 := Apply(s, Begin(req, k));
    ClaimExactly(s1, req, k);
    var s2 := Apply(s1, ClaimKey(req));
    ReadExactly(s2, req, k);
    run := Then(s2, Read(req), []);
    run := Then(s1, ClaimKey(req), run);
    run := Then(s, Begin(req, k), run);
  }

  /** Under either schema an expired record is removed before its key is used. */
  lemma ExpiredProceeds(s: State, req: Req, k: Triple) returns (t: State, first: seq<Action>)
    requires req in s.requests && s.requests[req] == Request(k, Checking)
    requires k in s.rows && s.rows[k].status != 0 && s.rows[k].expiresAt < s.clock
    ensures Runs(s, first) && After(s, first) == t && t.clock == s.clock && t.rows == s.rows - {k}
    ensures req in t.requests && t.requests[req] == Request(k, Proceeding)
  {
    ClaimExactly(s, req, k);
    var s1 := Apply(s, ClaimKey(req));
    ReadExactly(s1, req, k);
    var s2 := Apply(s1, Read(req));
    DeleteExactly(s2, req, k);
    t := Apply(s2, Delete(req));
    first := Then(s2, Delete(req), []);
    first := Then(s1, Read(req), first);
    first := Then(s, ClaimKey(req), first);
  }

  /** And once it has expired the repetition proceeds, and its response replaces the
      old one. */
  lemma ExpiredIsAnsweredAgain(s: State, req: Req, k: Triple, status: nat, response: string)
    returns (run: seq<Action>)
    requires req !in s.requests && k in s.rows && s.rows[k].status != 0 && s.rows[k].expiresAt < s.clock && status != 0
    ensures Runs(s, run)
    ensures After(s, run).rows == s.rows[k := Record(status, Some(response), s.clock + 86400000)]
  {
    BeginExactly(s, req, k);
    var s1 := Apply(s, Begin(req, k));
    var t, first := ExpiredProceeds(s1, req, k);
    StoreExactly(t, req, k, status, response);
    run := Then(t, Store(req, status, response), []);
    RunsAppend(s1, first, run);
    run := Then(s, Begin(req, k), first + run);
    Replaced(s.rows, k, Record(status, Some(response), s.clock + 86400000));
  }

  lemma Replaced(t: Table, k: Triple, r: Record)
    ensures (t - {k})[k := r] == t[k := r]
  {
  }
}
