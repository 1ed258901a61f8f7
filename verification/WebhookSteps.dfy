/** The statements on a delivery said in its row: what each writes, that a
    delivery whose first request succeeded is never sent again, and that one that
    waits can be delivered. */
module WebhookSteps {
  import opened Text
  import opened WebhookDelivery
  import opened WebhookLimits

  // ---- The first attempt ----

  /** A delivery starts without attempts, with five to come, five seconds apart. */
  lemma InsertExactly(s: State, id: Id, hook: HookId)
    requires id !in s.rows
    ensures Enabled(s, Insert(id, hook)) && Enabled(s, Enqueue(id, hook))
    ensures Apply(s, Insert(id, hook))
         == s.(rows := s.rows[id := Delivery(hook, Pending, 0, 5, 5000, None)], firsts := s.firsts[id := Checking])
    ensures Apply(s, Enqueue(id, hook))
         == s.(rows := s.rows[id := Delivery(hook, PendingRetry, 0, 5, 5000, None)],
               firsts := s.firsts[id := FirstDone])
  {
  }

  /** Before the request the attempt is counted, unless the host was refused or the
      counting failed. */
  lemma CountExactly(s: State, id: Id)
    requires Inv(s) && id in s.firsts && s.firsts[id] == Checking
    ensures id in s.rows && Enabled(s, DnsFails(id)) && Enabled(s, CountFirst(id)) && Enabled(s, CountFirstFails(id))
    ensures Apply(s, DnsFails(id))
         == s.(rows := s.rows[id := s.rows[id].(status := PendingRetry, attempts := 1, lastRetryAt := None)],
               firsts := s.firsts[id := FirstDone])
    ensures Apply(s, CountFirst(id))
         == s.(rows := s.rows[id := s.rows[id].(attempts := 1)], firsts := s.firsts[id := FirstSending])
    ensures Apply(s, CountFirstFails(id))
         == s.(firsts := s.firsts[id := FirstSending], uncounted := s.uncounted + {id})
  {
    assert FirstInv(s, id);
    assert s.rows[id].(status := Pending, attempts := 1) == s.rows[id].(attempts := 1);
  }

  /** The answer of the first request: a success ends the delivery, anything else
      leaves it to the workers at once. */
  lemma FirstAnswerExactly(s: State, id: Id, ok: bool)
    requires Inv(s) && id in s.firsts && s.firsts[id] == FirstSettling(ok)
    ensures id in s.rows && Enabled(s, SettleFirst(id))
    ensures Apply(s, SettleFirst(id))
         == s.(rows := s.rows[id := if ok then s.rows[id].(status := Succeeded)
                                    else s.rows[id].(status := PendingRetry, lastRetryAt := None)],
               firsts := s.firsts[id := FirstDone])
  {
    assert FirstInv(s, id);
  }

  lemma FirstSendExactly(s: State, id: Id, ok: bool)
    requires id in s.firsts && s.firsts[id] == FirstSending
    ensures Enabled(s, SendFirst(id, ok))
    ensures Apply(s, SendFirst(id, ok))
         == s.(firsts := s.firsts[id := FirstSettling(ok)], sent := s.sent + [Sent(id, 1, false)])
  {
  }

  // ---- Delivered for good ----

  predicate NotQueued(queue: seq<Snapshot>, id: Id) { forall i :: 0 <= i < |queue| ==> queue[i].id != id }

  /** The delivery succeeded and nobody has it in hand. */
  ghost predicate Delivered(s: State, id: Id) {
    id in s.rows && s.rows[id].status == Succeeded && id in s.firsts && s.firsts[id] == FirstDone
    && forall w :: w in s.workers ==> LeftAlone(s.workers[w], id)
  }

  predicate LeftAlone(p: Worker, id: Id) {
    match p
    case Ready(queue) => NotQueued(queue, id)
    case Sending(x, _, queue) => x.id != id && NotQueued(queue, id)
    case Settling(x, _, _, queue) => x.id != id && NotQueued(queue, id)
    case Stopped => true
  }

  /** While its first attempt runs, no worker has a delivery in hand. */
  lemma FirstIsAlone(s: State, id: Id)
    requires Inv(s) && id in s.rows && s.rows[id].status == Pending
    ensures forall w :: w in s.workers ==> LeftAlone(s.workers[w], id)
  {
    forall w | w in s.workers ensures LeftAlone(s.workers[w], id) {
      assert WorkerInv(s, s.workers[w]);
      if !s.workers[w].Stopped? {
        KnownIsAnswered(s, s.workers[w].queue, id);
      }
    }
  }

  lemma KnownIsAnswered(s: State, queue: seq<Snapshot>, id: Id)
    requires QueueKnown(s, queue) && id in s.rows && s.rows[id].status == Pending
    ensures NotQueued(queue, id)
  {
    forall i | 0 <= i < |queue| ensures queue[i].id != id {
      assert KnownSnapshot(s, queue[i]);
    }
  }

  lemma FetchLeavesAlone(s: State, picked: seq<Id>, now: int, id: Id)
    requires Delivered(s, id) && Fetchable(s.rows, picked)
    ensures NotQueued(Due(s.rows, s.cleared, picked, now), id)
  {
    var queue := Due(s.rows, s.cleared, picked, now);
    forall i | 0 <= i < |queue| ensures queue[i].id != id {
      assert queue[i] in queue;
    }
  }

  lemma WorkerLeavesAlone(s: State, a: Action, id: Id)
    requires Delivered(s, id) && Enabled(s, a) && (a.Skip? || a.Claim? || a.Send? || a.Settle?)
    ensures var t := Apply(s, a);
      Delivered(t, id) && t.rows[id] == s.rows[id] && SentOf(t.sent, id) == SentOf(s.sent, id)
  {
    assert LeftAlone(s.workers[a.w], id);
    if a.Send? {
      var x := s.workers[a.w].snapshot;
      SentOfAppend(s.sent, Sent(x.id, Attempt(x), true), id);
    }
  }

  lemma SettledStays(s: State, a: Action, id: Id)
    requires Delivered(s, id) && Enabled(s, a)
    ensures var t := Apply(s, a);
      Delivered(t, id) && t.rows[id] == s.rows[id] && SentOf(t.sent, id) == SentOf(s.sent, id)
  {
    match a
    case SendFirst(other, _) => SentOfAppend(s.sent, Sent(other, 1, false), id);
    case Fetch(w, picked, now) => FetchLeavesAlone(s, picked, now, id);
    case Skip(_) => WorkerLeavesAlone(s, a, id);
    case Claim(_, _) => WorkerLeavesAlone(s, a, id);
    case Send(_, _) => WorkerLeavesAlone(s, a, id);
    case Settle(_) => WorkerLeavesAlone(s, a, id);
    case _ =>
  }

  lemma {:induction false} SettledForGood(s: State, run: seq<Action>, id: Id)
    requires Delivered(s, id) && Runs(s, run)
    ensures var t := After(s, run);
      id in t.rows && t.rows[id] == s.rows[id] && SentOf(t.sent, id) == SentOf(s.sent, id)
    decreases |run|
  {
    if run != [] {
      SettledStays(s, run[0], id);
      SettledForGood(Apply(s, run[0]), run[1..], id);
    }
  }

  /** Once the first request was answered with success and that was written, the
      delivery stays delivered and is sent no more, whatever workers and operators
      do and whether or not its webhook keeps its address. */
  lemma DeliveredFirstIsSentOnce(s: State, id: Id, run: seq<Action>)
    requires Inv(s) && id in s.firsts && s.firsts[id] == FirstSettling(true)
    requires Runs(Apply(s, SettleFirst(id)), run)
    ensures var t := After(Apply(s, SettleFirst(id)), run);
      id in t.rows && t.rows[id].status == Succeeded && SentOf(t.sent, id) == SentOf(s.sent, id)
  {
    assert FirstInv(s, id);
    FirstAnswerExactly(s, id, true);
    FirstIsAlone(s, id);
    SettledForGood(Apply(s, SettleFirst(id)), run, id);
  }

  // ---- Workers ----

  /** A row is due while it has attempts left and its delay is over. */
  predicate IsDue(d: Delivery, now: int) {
    d.attempts < d.maxRetries && (d.lastRetryAt.Some? ==> now - d.lastRetryAt.value >= d.retryDelay)
  }

  /** Workers and first requests come and go: an idle worker starts with nothing in
      hand, and one that stops drops what it had. */
  lemma ProcessesExactly(s: State, w: WorkerId, id: Id)
    ensures Enabled(s, Start(w)) <==> w !in s.workers
    ensures w !in s.workers ==> Apply(s, Start(w)) == s.(workers := s.workers[w := Ready([])])
    ensures Enabled(s, Stop(w)) <==> w in s.workers
    ensures w in s.workers ==> Apply(s, Stop(w)) == s.(workers := s.workers[w := Stopped])
    ensures Enabled(s, StopFirst(id)) <==> id in s.firsts
    ensures id in s.firsts ==> Apply(s, StopFirst(id)) == s.(firsts := s.firsts[id := FirstDone])
  {
  }

  /** A cycle reads at most ten rows that wait or are in `retrying`. */
  lemma FetchableExactly(s: State, w: WorkerId, picked: seq<Id>, now: int)
    requires w in s.workers && s.workers[w] == Ready([]) && now >= s.clock
    ensures Enabled(s, Fetch(w, picked, now))
       <==> |picked| <= 10 && forall i :: 0 <= i < |picked| ==>
              picked[i] in s.rows && s.rows[picked[i]].status in {PendingRetry, Retrying}
  {
  }

  /** Of the rows read, those that are due are queued as they were read, in the
      order they were read. */
  lemma DueExactly(t: Table, cleared: set<HookId>, id: Id, rest: seq<Id>, now: int)
    requires id in t && forall i :: 0 <= i < |rest| ==> rest[i] in t
    ensures Due(t, cleared, [], now) == []
    ensures var d := t[id];
      Due(t, cleared, [id] + rest, now)
      == (if IsDue(d, now) then [Snapshot(id, d, d.webhook in cleared)] else []) + Due(t, cleared, rest, now)
  {
    assert ([id] + rest)[1..] == rest;
  }

  lemma FetchExactly(s: State, w: WorkerId, picked: seq<Id>, now: int)
    requires Enabled(s, Fetch(w, picked, now))
    ensures Apply(s, Fetch(w, picked, now))
         == s.(workers := s.workers[w := Ready(Due(s.rows, s.cleared, picked, now))], clock := now)
  {
  }

  /** The claim goes ahead exactly while the row waits with the attempts that were
      read; then it is in `retrying` with one more, stamped. */
  lemma ClaimExactly(s: State, w: WorkerId, x: Snapshot, rest: seq<Snapshot>, now: int)
    requires Inv(s) && w in s.workers && s.workers[w] == Ready([x] + rest) && !x.cleared && now >= s.clock
    ensures Enabled(s, Action.Claim(w, now)) && x.id in s.rows
    ensures var d := s.rows[x.id];
      Apply(s, Action.Claim(w, now))
      == if d.status == PendingRetry && d.attempts == x.delivery.attempts
         then s.(rows := s.rows[x.id := d.(status := Retrying, attempts := d.attempts + 1, lastRetryAt := Some(now))],
                 workers := s.workers[w := Sending(x, now, rest)],
                 claims := s.claims + [ClaimMade(x.id, now)], clock := now)
         else s.(workers := s.workers[w := Ready(rest)], clock := now)
  {
    assert WorkerInv(s, s.workers[w]);
    assert ([x] + rest)[0] == x && ([x] + rest)[1..] == rest;
    assert x in [x] + rest;
  }

  /** A delivery read without an address is failed by its id, whatever it is now. */
  lemma SkipExactly(s: State, w: WorkerId, x: Snapshot, rest: seq<Snapshot>)
    requires Inv(s) && w in s.workers && s.workers[w] == Ready([x] + rest) && x.cleared
    ensures Enabled(s, Skip(w)) && x.id in s.rows
    ensures Apply(s, Skip(w))
         == s.(rows := s.rows[x.id := s.rows[x.id].(status := Failed)],
               workers := s.workers[w := Ready(rest)], skipped := s.skipped + {x.id})
  {
    assert WorkerInv(s, s.workers[w]);
    assert ([x] + rest)[0] == x && ([x] + rest)[1..] == rest;
    assert x in [x] + rest;
  }

  /** It is sent under the number claimed; then the row is delivered, failed after
      its last attempt, or waits again from the time of the claim. */
  lemma SendExactly(s: State, w: WorkerId, x: Snapshot, at: int, rest: seq<Snapshot>, ok: bool)
    requires w in s.workers && s.workers[w] == Sending(x, at, rest)
    ensures Enabled(s, Send(w, ok))
    ensures Apply(s, Send(w, ok))
         == s.(workers := s.workers[w := Settling(x, at, ok, rest)],
               sent := s.sent + [Sent(x.id, x.delivery.attempts + 1, true)])
  {
  }

  lemma SettleExactly(s: State, w: WorkerId, x: Snapshot, at: int, ok: bool, rest: seq<Snapshot>)
    requires Inv(s) && w in s.workers && s.workers[w] == Settling(x, at, ok, rest)
    ensures Enabled(s, Action.Settle(w)) && x.id in s.rows
    ensures var d := s.rows[x.id];
      Apply(s, Action.Settle(w))
      == s.(rows := s.rows[x.id := if ok then d.(status := Succeeded)
                                   else if x.delivery.attempts + 1 >= d.maxRetries then d.(status := Failed)
                                   else d.(status := PendingRetry, lastRetryAt := Some(at))],
            workers := s.workers[w := Ready(rest)])
  {
    assert WorkerInv(s, s.workers[w]);
  }

  // ---- Operators ----

  /** An operator may look to requeue what failed or waits and has attempts left,
      and the update goes ahead while it still failed or waits. */
  lemma RequeueExactly(s: State, op: OperatorId, id: Id)
    requires Inv(s) && id in s.rows
    ensures op !in s.operators ==>
      (Enabled(s, Inspect(op, id)) <==>
        s.rows[id].status in {Failed, PendingRetry} && s.rows[id].attempts < s.rows[id].maxRetries)
    ensures Enabled(s, Inspect(op, id)) ==> Apply(s, Inspect(op, id)) == s.(operators := s.operators[op := id])
    ensures op in s.operators && s.operators[op] == id ==>
      var hit := s.rows[id].status in {Failed, PendingRetry};
      var t := Apply(s, Action.Requeue(op));
      t == s.(operators := s.operators - {op},
              rows := if hit then s.rows[id := s.rows[id].(status := PendingRetry, lastRetryAt := None)] else s.rows,
              requeued := if hit then s.requeued + {id} else s.requeued,
              reopened := if hit && id in s.skipped then s.reopened + {id} else s.reopened)
  {
    assert RowInv(s, id);
  }

  /** Clearing a webhook and giving it an address again touch no delivery. */
  lemma ClearExactly(s: State, hook: HookId)
    ensures Enabled(s, Clear(hook)) && Enabled(s, Restore(hook))
    ensures Apply(s, Clear(hook)) == s.(cleared := s.cleared + {hook})
    ensures Apply(s, Restore(hook)) == s.(cleared := s.cleared - {hook})
  {
  }

  // ---- What waits can be delivered ----

  /** The row once the attempt has been made with success. */
  function DeliveredRow(s: State, id: Id): Delivery
    requires id in s.rows
  {
    var d := s.rows[id];
    d.(status := Succeeded, attempts := d.attempts + 1, lastRetryAt := Some(DueAt(s, id)))
  }

  lemma SucceedingSteps(s: State, id: Id, w: WorkerId) returns (t: State)
    requires Waits(s, id, w)
    ensures var s1 := ClaimedBy(s, id, w);
      Enabled(s1, Send(w, true)) && Enabled(Apply(s1, Send(w, true)), Action.Settle(w))
      && t == Apply(Apply(s1, Send(w, true)), Action.Settle(w))
    ensures t.rows == s.rows[id := DeliveredRow(s, id)]
    ensures t.sent == s.sent + [Sent(id, s.rows[id].attempts + 1, true)]
  {
    var s2 := Apply(ClaimedBy(s, id, w), Send(w, true));
    t := Apply(s2, Action.Settle(w));
  }

  /** A delivery that waits with attempts left is delivered by an idle worker whose
      request succeeds, after one more attempt. */
  lemma WaitingIsDelivered(s: State, id: Id, w: WorkerId) returns (run: seq<Action>)
    requires Waits(s, id, w)
    ensures Runs(s, run) && After(s, run).rows == s.rows[id := DeliveredRow(s, id)]
    ensures SentOf(After(s, run).sent, id) == SentOf(s.sent, id) + 1
  {
    var s1, at := ClaimedBy(s, id, w), DueAt(s, id);
    var t := SucceedingSteps(s, id, w);
    RunsCons(Apply(s1, Send(w, true)), Action.Settle(w), [], t);
    var rest := [Send(w, true)] + ([Action.Settle(w)] + []);
    RunsCons(s1, Send(w, true), [Action.Settle(w)] + [], t);
    ClaimWhenDue(s, id, w, rest, t);
    run := [Fetch(w, [id], at)] + ([Action.Claim(w, at)] + rest);
    SentOfAppend(s.sent, Sent(id, s.rows[id].attempts + 1, true), id);
  }

  /** The states of a first request that succeeds, from an empty table. */
  lemma FirstSteps(id: Id, hook: HookId) returns (s1: State, s2: State, s3: State, s4: State)
    ensures Enabled(Initial(0), Insert(id, hook)) && s1 == Apply(Initial(0), Insert(id, hook))
    ensures Enabled(s1, CountFirst(id)) && s2 == Apply(s1, CountFirst(id))
    ensures Enabled(s2, SendFirst(id, true)) && s3 == Apply(s2, SendFirst(id, true))
    ensures Enabled(s3, SettleFirst(id)) && s4 == Apply(s3, SettleFirst(id))
    ensures s4.rows == map[id := Delivery(hook, Succeeded, 1, 5, 5000, None)] && s4.sent == [Sent(id, 1, false)]
  {
    s1 := Apply(Initial(0), Insert(id, hook));
    s2 := Apply(s1, CountFirst(id));
    s3 := Apply(s2, SendFirst(id, true));
    s4 := Apply(s3, SettleFirst(id));
  }

  /** And one whose first request succeeds is delivered without a worker. */
  lemma FirstDelivers(id: Id, hook: HookId) returns (run: seq<Action>)
    ensures Runs(Initial(0), run) && SentOf(After(Initial(0), run).sent, id) == 1
    ensures After(Initial(0), run).rows == map[id := Delivery(hook, Succeeded, 1, 5, 5000, None)]
  {
    var s1, s2, s3, s4 := FirstSteps(id, hook);
    RunsCons(s3, SettleFirst(id), [], s4);
    run := [SettleFirst(id)] + [];
    RunsCons(s2, SendFirst(id, true), run, s4);
    run := [SendFirst(id, true)] + run;
    RunsCons(s1, CountFirst(id), run, s4);
    run := [CountFirst(id)] + run;
    RunsCons(Initial(0), Insert(id, hook), run, s4);
    run := [Insert(id, hook)] + run;
    SentOfAppend([], Sent(id, 1, false), id);
    assert [] + [Sent(id, 1, false)] == [Sent(id, 1, false)];
  }

  // ---- Which webhooks are called ----

  /** Of the rows with one id the last is called, so the second query's. */
  lemma {:induction false} LastHookIs(hooks: seq<Hook>, i: nat)
    requires i < |hooks| && forall j :: i < j < |hooks| ==> hooks[j].id != hooks[i].id
    ensures LastHook(hooks, hooks[i].id) == Some(hooks[i])
  {
    if i < |hooks| - 1 {
      LastHookIs(hooks[..|hooks| - 1], i);
    }
  }
}
