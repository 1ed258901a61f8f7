/** How often a delivery can be sent: the runs that reach the limit and the one
    that passes it, and what an operator's requeue can and cannot bring about. */
module WebhookLimits {
  import opened Text
  import opened WebhookDelivery

  // ---- One send too many ----

  lemma {:induction false} SentOfAppend(sent: seq<Sent>, x: Sent, id: Id)
    ensures SentOf(sent + [x], id) == SentOf(sent, id) + (if x.id == id then 1 else 0)
  {
    if sent == [] {
      assert sent + [x] == [x] && [x][1..] == [];
    } else {
      assert (sent + [x])[1..] == sent[1..] + [x];
      SentOfAppend(sent[1..], x, id);
    }
  }

  /** A delivery waits for its next attempt, and an idle worker is there. */
  predicate Waits(s: State, id: Id, w: WorkerId) {
    id in s.rows && s.rows[id].status == PendingRetry && StandardLimits(s.rows[id]) && s.rows[id].attempts < MAX_RETRIES
    && s.rows[id].webhook !in s.cleared && w in s.workers && s.workers[w] == Ready([])
  }

  function DueAt(s: State, id: Id): int
    requires id in s.rows
  {
    if s.rows[id].lastRetryAt.None? || s.rows[id].lastRetryAt.value + RETRY_DELAY_MS <= s.clock then s.clock
    else s.rows[id].lastRetryAt.value + RETRY_DELAY_MS
  }

  /** The worker has claimed the delivery as soon as it was due. */
  function ClaimedBy(s: State, id: Id, w: WorkerId): State
    requires Waits(s, id, w)
  {
    var now, d := DueAt(s, id), s.rows[id];
    s.(rows := s.rows[id := d.(status := Retrying, attempts := d.attempts + 1, lastRetryAt := Some(now))],
       workers := s.workers[w := Sending(Snapshot(id, d, false), now, [])],
       claims := s.claims + [ClaimMade(id, now)], clock := now)
  }

  lemma ClaimWhenDue(s: State, id: Id, w: WorkerId, rest: seq<Action>, end: State)
    requires Waits(s, id, w) && Runs(ClaimedBy(s, id, w), rest) && After(ClaimedBy(s, id, w), rest) == end
    ensures var run := [Fetch(w, [id], DueAt(s, id))] + ([Action.Claim(w, DueAt(s, id))] + rest);
      Runs(s, run) && After(s, run) == end
  {
    var now := DueAt(s, id);
    assert Due(s.rows, s.cleared, [id], now) == [Snapshot(id, s.rows[id], false)] by {
      assert [id][1..] == [];
    }
    var s1 := Apply(s, Fetch(w, [id], now));
    assert s1.workers[w].queue[1..] == [];
    assert Apply(s1, Action.Claim(w, now)) == ClaimedBy(s, id, w);
    RunsCons(s1, Action.Claim(w, now), rest, end);
    RunsCons(s, Fetch(w, [id], now), [Action.Claim(w, now)] + rest, end);
  }

  /** And its attempt has failed. */
  function FailedRound(s: State, id: Id, w: WorkerId): State
    requires Waits(s, id, w)
  {
    var now, d := DueAt(s, id), s.rows[id];
    var status := if d.attempts + 1 >= MAX_RETRIES then Failed else PendingRetry;
    s.(rows := s.rows[id := d.(status := status, attempts := d.attempts + 1, lastRetryAt := Some(now))],
       workers := s.workers[w := Ready([])], sent := s.sent + [Sent(id, d.attempts + 1, true)],
       claims := s.claims + [ClaimMade(id, now)], clock := now)
  }

  lemma FailingSteps(s: State, id: Id, w: WorkerId)
    requires Waits(s, id, w)
    ensures var s2 := ClaimedBy(s, id, w);
      Enabled(s2, Send(w, false)) && Enabled(Apply(s2, Send(w, false)), Action.Settle(w))
      && Apply(Apply(s2, Send(w, false)), Action.Settle(w)) == FailedRound(s, id, w)
  {
    var s3 := Apply(ClaimedBy(s, id, w), Send(w, false));
    assert s3.workers[w := Ready([])] == s.workers[w := Ready([])];
    assert Apply(s3, Action.Settle(w)).rows == FailedRound(s, id, w).rows;
  }

  /** One failing attempt of that worker. */
  lemma FailingRound(s: State, id: Id, w: WorkerId) returns (run: seq<Action>)
    requires Waits(s, id, w)
    ensures Runs(s, run) && After(s, run) == FailedRound(s, id, w)
    ensures SentOf(After(s, run).sent, id) == SentOf(s.sent, id) + 1
  {
    var s2, s4 := ClaimedBy(s, id, w), FailedRound(s, id, w);
    FailingSteps(s, id, w);
    SentOfAppend(s.sent, Sent(id, s.rows[id].attempts + 1, true), id);
    assert Runs(s4, []) && After(s4, []) == s4;
    RunsCons(Apply(s2, Send(w, false)), Action.Settle(w), [], s4);
    RunsCons(s2, Send(w, false), [Action.Settle(w)] + [], s4);
    var rest := [Send(w, false)] + ([Action.Settle(w)] + []);
    ClaimWhenDue(s, id, w, rest, s4);
    run := [Fetch(w, [id], DueAt(s, id))] + ([Action.Claim(w, DueAt(s, id))] + rest);
  }

  /** All the attempts that are left, each failing. */
  lemma {:induction false} FailingRounds(s: State, id: Id, w: WorkerId) returns (run: seq<Action>)
    requires Waits(s, id, w)
    ensures Runs(s, run) && SentOf(After(s, run).sent, id) == SentOf(s.sent, id) + (MAX_RETRIES - s.rows[id].attempts)
    ensures After(s, run).uncounted == s.uncounted
    decreases MAX_RETRIES - s.rows[id].attempts
  {
    run := FailingRound(s, id, w);
    if s.rows[id].attempts + 1 < MAX_RETRIES {
      var more := FailingRounds(After(s, run), id, w);
      RunsAppend(s, run, more);
      run := run + more;
    }
  }

  /** A first attempt that was not counted, failing, leaves all the retries. */
  lemma UncountedGoesOn(s: State, id: Id) returns (run: seq<Action>)
    requires Inv(s) && id in s.firsts && s.firsts[id] == FirstSending && id in s.uncounted
    ensures Runs(s, run) && SentOf(After(s, run).sent, id) == SentOf(s.sent, id) + MAX_RETRIES + 1
  {
    assert FirstInv(s, id) && RowInv(s, id);
    var w := FreshName(s.workers.Keys);
    var s1 := Apply(s, SendFirst(id, false));
    var s2 := Apply(s1, SettleFirst(id));
    SentOfAppend(s.sent, Sent(id, 1, false), id);
    var rounds := Rounds(s2, id, w);
    RunsCons(s1, SettleFirst(id), rounds, After(s2, rounds));
    RunsCons(s, SendFirst(id, false), [SettleFirst(id)] + rounds, After(s2, rounds));
    run := [SendFirst(id, false)] + ([SettleFirst(id)] + rounds);
  }

  /** A worker starts, the webhook has an address, and every attempt fails. */
  lemma Rounds(s: State, id: Id, w: WorkerId) returns (run: seq<Action>)
    requires w !in s.workers && id in s.rows && s.rows[id].status == PendingRetry && StandardLimits(s.rows[id])
    requires s.rows[id].attempts < MAX_RETRIES
    ensures Runs(s, run) && SentOf(After(s, run).sent, id) == SentOf(s.sent, id) + (MAX_RETRIES - s.rows[id].attempts)
  {
    var s1, s2 := Apply(s, Start(w)), AtWork(s, id, w);
    var rounds := FailingRounds(s2, id, w);
    RunsCons(s1, Restore(s.rows[id].webhook), rounds, After(s2, rounds));
    RunsCons(s, Start(w), [Restore(s.rows[id].webhook)] + rounds, After(s2, rounds));
    run := [Start(w)] + ([Restore(s.rows[id].webhook)] + rounds);
  }

  function AtWork(s: State, id: Id, w: WorkerId): State
    requires id in s.rows
  {
    s.(workers := s.workers[w := Ready([])], cleared := s.cleared - {s.rows[id].webhook})
  }

  /** The run that sends once more than the limit. */
  lemma UncountedFirstAttempt(id: Id, hook: HookId) returns (run: seq<Action>)
    ensures Runs(Initial(0), run) && SentOf(After(Initial(0), run).sent, id) == MAX_RETRIES + 1
  {
    var s1 := Apply(Initial(0), Insert(id, hook));
    var s2 := Apply(s1, CountFirstFails(id));
    InitialInv(0);
    StepInv(Initial(0), Insert(id, hook));
    StepInv(s1, CountFirstFails(id));
    var rest := UncountedGoesOn(s2, id);
    RunsCons(s1, CountFirstFails(id), rest, After(s2, rest));
    RunsCons(Initial(0), Insert(id, hook), [CountFirstFails(id)] + rest, After(s2, rest));
    run := [Insert(id, hook)] + ([CountFirstFails(id)] + rest);
  }

  lemma CountedFirst(s: State, a: Action, id: Id)
    requires Enabled(s, a) && id in s.rows && id in s.firsts && s.firsts[id] != Checking
    ensures var t := Apply(s, a); id in t.rows && id in t.firsts && t.firsts[id] != Checking
  {
  }

  lemma CountedFlag(s: State, a: Action, id: Id)
    requires Enabled(s, a) && id in s.firsts && s.firsts[id] != Checking && id !in s.uncounted
    ensures id !in Apply(s, a).uncounted
  {
  }

  lemma {:induction false} CountedStaysCounted(s: State, actions: seq<Action>, id: Id)
    requires Runs(s, actions) && id in s.rows && id in s.firsts && s.firsts[id] != Checking && id !in s.uncounted
    ensures id !in After(s, actions).uncounted && id in After(s, actions).rows
    decreases |actions|
  {
    if actions != [] {
      CountedFirst(s, actions[0], id);
      CountedFlag(s, actions[0], id);
      CountedStaysCounted(Apply(s, actions[0]), actions[1..], id);
    }
  }

  /** Once the counting of a first attempt was answered, and before it is sent,
      the limit can still be exceeded exactly when that counting failed. */
  lemma OverLimitExactly(clock: int, actions: seq<Action>, id: Id)
    requires Runs(Initial(clock), actions)
    requires var s := After(Initial(clock), actions); id in s.firsts && s.firsts[id] == FirstSending
    ensures var s := After(Initial(clock), actions);
      (exists more :: Runs(s, more) && SentOf(After(s, more).sent, id) > MAX_RETRIES) <==> id in s.uncounted
  {
    var s := After(Initial(clock), actions);
    InitialInv(clock);
    RunInv(Initial(clock), actions);
    assert FirstInv(s, id);
    if id in s.uncounted {
      var more := UncountedGoesOn(s, id);
      assert Runs(s, more) && SentOf(After(s, more).sent, id) > MAX_RETRIES;
    } else {
      forall more | Runs(s, more) ensures SentOf(After(s, more).sent, id) <= MAX_RETRIES {
        WithinLimit(clock, actions, more, id);
      }
    }
  }

  lemma WithinLimit(clock: int, actions: seq<Action>, more: seq<Action>, id: Id)
    requires Runs(Initial(clock), actions)
    requires var s := After(Initial(clock), actions);
      Inv(s) && Runs(s, more) && id in s.rows && id in s.firsts && s.firsts[id] != Checking && id !in s.uncounted
    ensures SentOf(After(After(Initial(clock), actions), more).sent, id) <= MAX_RETRIES
  {
    var s := After(Initial(clock), actions);
    RunsAppend(Initial(clock), actions, more);
    CountedStaysCounted(s, more, id);
    SendsBounded(clock, actions + more, id);
    RunInv(s, more);
    assert RowInv(After(s, more), id);
  }

  // ---- What a requeue brings about ----

  /** A requeued delivery can be claimed at once, however short a time ago it was
      claimed before. */
  lemma RequeuedAtOnce(s: State, id: Id, op: OperatorId) returns (run: seq<Action>)
    requires Inv(s) && op !in s.operators && id in s.rows && s.rows[id].status == PendingRetry
    requires s.rows[id].attempts < MAX_RETRIES
    ensures Runs(s, run) && After(s, run).claims == s.claims + [ClaimMade(id, s.clock)]
  {
    assert RowInv(s, id);
    var s1 := Apply(s, Inspect(op, id));
    var s2 := Apply(s1, Requeue(op));
    var rest := ClaimAtOnce(s2, id);
    RunsCons(s1, Requeue(op), rest, After(s2, rest));
    RunsCons(s, Inspect(op, id), [Requeue(op)] + rest, After(s2, rest));
    run := [Inspect(op, id)] + ([Requeue(op)] + rest);
  }

  lemma ClaimAtOnce(s: State, id: Id) returns (run: seq<Action>)
    requires id in s.rows && s.rows[id].status == PendingRetry && StandardLimits(s.rows[id])
    requires s.rows[id].attempts < MAX_RETRIES && s.rows[id].lastRetryAt == None
    ensures Runs(s, run) && After(s, run).claims == s.claims + [ClaimMade(id, s.clock)]
  {
    var w := FreshName(s.workers.Keys);
    var s1, s2 := Apply(s, Start(w)), AtWork(s, id, w);
    var end := ClaimedBy(s2, id, w);
    var claim := [Fetch(w, [id], s.clock)] + ([Action.Claim(w, s.clock)] + []);
    assert Runs(end, []) && After(end, []) == end;
    ClaimWhenDue(s2, id, w, [], end);
    RunsCons(s1, Restore(s.rows[id].webhook), claim, end);
    RunsCons(s, Start(w), [Restore(s.rows[id].webhook)] + claim, end);
    run := [Start(w)] + ([Restore(s.rows[id].webhook)] + claim);
  }

  /** It waits, but has no attempts left. */
  predicate Stranded(s: State, id: Id) {
    id in s.rows && s.rows[id].status == PendingRetry && s.rows[id].attempts == s.rows[id].maxRetries
  }

  /** The input: an operator looks at a delivery with one attempt left, that
      attempt fails, and the operator requeues what has failed by then. */
  lemma LateRequeue(s: State, id: Id, op: OperatorId) returns (run: seq<Action>)
    requires Inv(s) && op !in s.operators && id in s.rows && s.rows[id].status == PendingRetry
    requires s.rows[id].attempts == MAX_RETRIES - 1
    ensures Runs(s, run) && Stranded(After(s, run), id)
  {
    assert RowInv(s, id);
    var w := FreshName(s.workers.Keys);
    var hook := s.rows[id].webhook;
    var s1 := Apply(s, Inspect(op, id));
    var s2 := Apply(s1, Start(w));
    var s3 := AtWork(s1, id, w);
    var rest := LastFailure(s3, id, w, op);
    RunsCons(s2, Restore(hook), rest, After(s3, rest));
    RunsCons(s1, Start(w), [Restore(hook)] + rest, After(s3, rest));
    RunsCons(s, Inspect(op, id), [Start(w)] + ([Restore(hook)] + rest), After(s3, rest));
    run := [Inspect(op, id)] + ([Start(w)] + ([Restore(hook)] + rest));
  }

  lemma LastFailure(s: State, id: Id, w: WorkerId, op: OperatorId) returns (run: seq<Action>)
    requires Waits(s, id, w) && s.rows[id].attempts == MAX_RETRIES - 1 && op in s.operators && s.operators[op] == id
    ensures Runs(s, run) && Stranded(After(s, run), id)
  {
    var round := FailingRound(s, id, w);
    var t := FailedRound(s, id, w);
    assert t.rows[id].status == Failed && t.rows[id].attempts == MAX_RETRIES;
    RunsSnoc(s, round, Requeue(op));
    run := round + [Requeue(op)];
  }

  // ---- Waiting in vain ----

  /** No attempt is left, and no worker is about to send one it has claimed. */
  predicate Spent(s: State, id: Id) {
    id in s.rows && s.rows[id].status != Pending && s.rows[id].attempts == s.rows[id].maxRetries
    && !AboutToSend(s, id)
  }

  predicate AboutToSend(s: State, id: Id) {
    exists w :: w in s.workers && s.workers[w].Sending? && s.workers[w].snapshot.id == id
  }

  lemma NotClaimed(s: State, w: WorkerId, id: Id)
    requires Inv(s) && HasNext(s, w) && Spent(s, id) && s.workers[w].queue[0].id == id
    ensures !Claimable(s.rows, id, s.workers[w].queue[0].delivery.attempts)
  {
    assert WorkerInv(s, s.workers[w]) && KnownSnapshot(s, s.workers[w].queue[0]);
  }

  lemma SenderClaims(s: State, a: Action, w: WorkerId)
    requires Enabled(s, a) && w in Apply(s, a).workers && Apply(s, a).workers[w].Sending?
    ensures w in s.workers
    ensures s.workers[w] == Apply(s, a).workers[w]
            || (a.Claim? && a.w == w && var x := s.workers[w].queue[0];
                Apply(s, a).workers[w].snapshot == x && Claimable(s.rows, x.id, x.delivery.attempts))
  {
  }

  lemma NoNewSender(s: State, a: Action, w: WorkerId, id: Id)
    requires Inv(s) && Enabled(s, a) && Spent(s, id) && w in Apply(s, a).workers
    ensures Apply(s, a).workers[w].Sending? ==> Apply(s, a).workers[w].snapshot.id != id
  {
    if Apply(s, a).workers[w].Sending? {
      SenderClaims(s, a, w);
      if s.workers[w] != Apply(s, a).workers[w] && s.workers[w].queue[0].id == id {
        NotClaimed(s, w, id);
      }
    }
  }

  lemma NothingSent(s: State, a: Action)
    requires Enabled(s, a) && !a.Send? && !a.SendFirst?
    ensures Apply(s, a).sent == s.sent
  {
  }

  /** What is sent is sent by an owner, or is a first attempt. */
  lemma SendsElsewhere(s: State, a: Action, id: Id)
    requires Inv(s) && Enabled(s, a) && Spent(s, id)
    ensures SentOf(Apply(s, a).sent, id) == SentOf(s.sent, id)
  {
    if a.Send? {
      var x := s.workers[a.w].snapshot;
      SentOfAppend(s.sent, Sent(x.id, Attempt(x), true), id);
    } else if a.SendFirst? {
      assert FirstInv(s, a.id);
      SentOfAppend(s.sent, Sent(a.id, 1, false), id);
    } else {
      NothingSent(s, a);
    }
  }

  lemma SpentStays(s: State, a: Action, id: Id)
    requires Inv(s) && Enabled(s, a) && Spent(s, id)
    ensures Spent(Apply(s, a), id) && SentOf(Apply(s, a).sent, id) == SentOf(s.sent, id)
  {
    var s' := Apply(s, a);
    SendsElsewhere(s, a, id);
    StepGrown(s, a);
    StepInv(s, a);
    assert RowGrown(s.rows[id], s'.rows[id], id in s'.requeued) && RowInv(s', id);
    forall w | w in s'.workers ensures !(s'.workers[w].Sending? && s'.workers[w].snapshot.id == id) {
      NoNewSender(s, a, w, id);
    }
  }

  lemma {:induction false} SpentForGood(s: State, actions: seq<Action>, id: Id)
    requires Inv(s) && Runs(s, actions) && Spent(s, id)
    ensures SentOf(After(s, actions).sent, id) == SentOf(s.sent, id)
    decreases |actions|
  {
    if actions != [] {
      SpentStays(s, actions[0], id);
      StepInv(s, actions[0]);
      SpentForGood(Apply(s, actions[0]), actions[1..], id);
    }
  }

  /** A delivery that waits can be sent again exactly when it has attempts left, or
      one claimed before it was skipped and requeued is still to be sent: the
      status alone does not say so once operators requeue. */
  lemma WaitsInVainExactly(s: State, id: Id)
    requires Inv(s) && id in s.rows && s.rows[id].status == PendingRetry
    ensures (exists more :: Runs(s, more) && SentOf(After(s, more).sent, id) > SentOf(s.sent, id))
       <==> s.rows[id].attempts < MAX_RETRIES || AboutToSend(s, id)
    ensures AboutToSend(s, id) ==> id in s.reopened
  {
    assert RowInv(s, id);
    if w :| w in s.workers && s.workers[w].Sending? && s.workers[w].snapshot.id == id {
      WaitingOwned(s, w, id);
      var a := Send(w, true);
      SentOfAppend(s.sent, Sent(id, Attempt(s.workers[w].snapshot), true), id);
      RunsSnoc(s, [], a);
      assert Runs(s, [] + [a]);
    } else if s.rows[id].attempts < MAX_RETRIES {
      var w := FreshName(s.workers.Keys);
      var run := Rounds(s, id, w);
      assert Runs(s, run);
    } else {
      forall more | Runs(s, more) ensures SentOf(After(s, more).sent, id) == SentOf(s.sent, id) {
        SpentForGood(s, more, id);
      }
    }
  }
}
