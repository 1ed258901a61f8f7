/** When an ended delivery stays as it ended. A worker that read a delivery while
    its webhook had no address gives it up by its id alone, long after others may
    have delivered it. */
module WebhookEndings {
  import opened Text
  import opened WebhookDelivery

  predicate Ended(t: Table, id: Id) {
    id in t && (t[id].status == Succeeded || t[id].status == Failed)
  }

  // ---- One step ----

  /** Settling an attempt changes a row that has ended. */
  predicate SettleChanges(p: Worker, d: Delivery)
    requires p.Settling?
  {
    if p.ok then d.status == Failed else Attempt(p.snapshot) < p.snapshot.delivery.maxRetries || d.status == Succeeded
  }

  /** The statements that write over an ending: an operator's requeue of what
      failed, a worker that skips what succeeded, and an owner whose row ended
      under it. */
  predicate Overwrites(s: State, a: Action, id: Id)
    requires Enabled(s, a) && Ended(s.rows, id)
  {
    match a
    case Requeue(op) => s.operators[op] == id && s.rows[id].status == Failed
    case Skip(w) => s.workers[w].queue[0].id == id && s.rows[id].status == Succeeded
    case Settle(w) => s.workers[w].snapshot.id == id && SettleChanges(s.workers[w], s.rows[id])
    case _ => false
  }

  lemma EndedExactly(s: State, a: Action, id: Id)
    requires Inv(s) && Enabled(s, a) && Ended(s.rows, id)
    ensures id in Apply(s, a).rows && (Apply(s, a).rows[id] == s.rows[id] <==> !Overwrites(s, a, id))
  {
    if OfFirst(a) {
      FirstFrame(s, a);
      FirstGrown(s, a);
    } else if a.Settle? {
      SettleEnded(s, a.w, id);
    }
  }

  lemma SettleEnded(s: State, w: WorkerId, id: Id)
    requires Inv(s) && Enabled(s, Settle(w)) && Ended(s.rows, id)
    ensures var t := SettleStep(s, w).rows;
      id in t && (t[id] == s.rows[id] <==> !(s.workers[w].snapshot.id == id && SettleChanges(s.workers[w], s.rows[id])))
  {
    SettleGrown(s, w);
  }

  /** A row that ended under its owner was skipped. */
  lemma EndedOwned(s: State, w: WorkerId, id: Id)
    requires Inv(s) && Owns(s, w, id) && Ended(s.rows, id)
    ensures id in s.skipped
  {
    assert WorkerInv(s, s.workers[w]);
  }

  /** What others do to a row that has an owner and was never skipped: nothing,
      but for a worker that skips it. */
  lemma OwnedExactly(s: State, a: Action, w: WorkerId, id: Id)
    requires Inv(s) && Enabled(s, a) && Owns(s, w, id) && id !in s.skipped
    requires a != Settle(w)
    ensures id in s.rows && id in Apply(s, a).rows
    ensures Apply(s, a).rows[id] == s.rows[id] <==> !(a.Skip? && s.workers[a.w].queue[0].id == id)
  {
    assert WorkerInv(s, s.workers[w]);
    if OfFirst(a) {
      FirstFrame(s, a);
      FirstGrown(s, a);
    } else if a.Settle? {
      SettleGrown(s, a.w);
      assert !Owns(s, a.w, id);
    }
  }

  function QueueOf(p: Worker): seq<Snapshot> { if p.Stopped? then [] else p.queue }

  /** Such a snapshot is made by reading the delivery, waiting or in `retrying`,
      while its webhook has no address. */
  lemma ClearedIsRead(s: State, a: Action, w: WorkerId, x: Snapshot)
    requires Enabled(s, a) && w in Apply(s, a).workers && x in QueueOf(Apply(s, a).workers[w]) && x.cleared
    requires w in s.workers ==> x !in QueueOf(s.workers[w])
    ensures a.Fetch? && a.w == w && x.id in s.rows && s.rows[x.id] == x.delivery && x.delivery.webhook in s.cleared
    ensures x.delivery.status == PendingRetry || x.delivery.status == Retrying
  {
    if a.Skip? || a.Claim? {
      var q := s.workers[a.w].queue;
      assert forall y :: y in q[1..] ==> y in q;
    }
  }

  // ---- All that can follow ----

  predicate HoldsCleared(queue: seq<Snapshot>, id: Id) {
    exists i :: 0 <= i < |queue| && queue[i].id == id && queue[i].cleared
  }

  /** The process may still write over the ending. */
  predicate MayWrite(p: Worker, d: Delivery, id: Id) {
    (d.status == Succeeded && HoldsCleared(QueueOf(p), id))
    || (p.Sending? && p.snapshot.id == id)
    || (p.Settling? && p.snapshot.id == id && SettleChanges(p, d))
  }

  predicate OperatorMayWrite(s: State, id: Id)
    requires id in s.rows
  {
    s.rows[id].status == Failed
    && (s.rows[id].attempts < s.rows[id].maxRetries || exists op :: op in s.operators && s.operators[op] == id)
  }

  predicate Unsettled(s: State, id: Id)
    requires id in s.rows
  {
    OperatorMayWrite(s, id) || exists w :: w in s.workers && MayWrite(s.workers[w], s.rows[id], id)
  }

  lemma TailHolds(queue: seq<Snapshot>, id: Id)
    requires queue != [] && HoldsCleared(queue[1..], id)
    ensures HoldsCleared(queue, id)
  {
    var i :| 0 <= i < |queue[1..]| && queue[1..][i].id == id && queue[1..][i].cleared;
    assert queue[i + 1] == queue[1..][i];
  }

  lemma HoldsTail(queue: seq<Snapshot>, id: Id)
    requires queue != [] && HoldsCleared(queue, id) && !(queue[0].id == id && queue[0].cleared)
    ensures HoldsCleared(queue[1..], id)
  {
    var i :| 0 <= i < |queue| && queue[i].id == id && queue[i].cleared;
    assert queue[1..][i - 1] == queue[i];
  }

  lemma FetchedHoldsNot(s: State, picked: seq<Id>, now: int, id: Id)
    requires Fetchable(s.rows, picked) && Ended(s.rows, id)
    ensures !HoldsCleared(Due(s.rows, s.cleared, picked, now), id)
  {
    var queue := Due(s.rows, s.cleared, picked, now);
    assert forall j :: 0 <= j < |picked| ==> picked[j] != id;
    forall i | 0 <= i < |queue| ensures queue[i].id != id {
      assert queue[i] in queue;
    }
  }

  /** No process comes to have a write it did not have. */
  lemma NoNewWriter(s: State, a: Action, w: WorkerId, id: Id)
    requires Enabled(s, a) && Ended(s.rows, id) && w in Apply(s, a).workers
    requires w in s.workers ==> !MayWrite(s.workers[w], s.rows[id], id)
    ensures !MayWrite(Apply(s, a).workers[w], s.rows[id], id)
  {
    if w in s.workers && Apply(s, a).workers[w] != s.workers[w] {
      match a
      case Fetch(_, picked, now) => FetchedHoldsNot(s, picked, now, id);
      case Skip(_) => NoNewInTail(s.workers[w].queue, id);
      case Claim(_, _) => NoNewInTail(s.workers[w].queue, id);
      case _ =>
    }
  }

  lemma NoNewInTail(queue: seq<Snapshot>, id: Id)
    requires queue != []
    ensures HoldsCleared(queue[1..], id) ==> HoldsCleared(queue, id)
  {
    if HoldsCleared(queue[1..], id) {
      TailHolds(queue, id);
    }
  }

  lemma SettledStays(s: State, a: Action, id: Id)
    requires Inv(s) && Enabled(s, a) && Ended(s.rows, id) && !Unsettled(s, id)
    ensures id in Apply(s, a).rows && Apply(s, a).rows[id] == s.rows[id] && !Unsettled(Apply(s, a), id)
  {
    var s' := Apply(s, a);
    NotOverwritten(s, a, id);
    EndedExactly(s, a, id);
    if w :| w in s'.workers && MayWrite(s'.workers[w], s'.rows[id], id) {
      NoNewWriter(s, a, w, id);
    }
    NoNewOperator(s, a, id);
  }

  lemma NoNewOperator(s: State, a: Action, id: Id)
    requires Inv(s) && Enabled(s, a) && Ended(s.rows, id) && !OperatorMayWrite(s, id)
    requires id in Apply(s, a).rows && Apply(s, a).rows[id] == s.rows[id]
    ensures !OperatorMayWrite(Apply(s, a), id)
  {
    if a.Inspect? {
      assert RowInv(s, id);
    } else {
      OperatorsKept(s, a);
    }
  }

  lemma OperatorsKept(s: State, a: Action)
    requires Enabled(s, a) && !a.Inspect?
    ensures forall op :: op in Apply(s, a).operators ==>
      op in s.operators && Apply(s, a).operators[op] == s.operators[op]
  {
  }

  lemma NotOverwritten(s: State, a: Action, id: Id)
    requires Enabled(s, a) && Ended(s.rows, id) && !Unsettled(s, id)
    ensures !Overwrites(s, a, id)
  {
    match a
    case Skip(w) =>
      assert !MayWrite(s.workers[w], s.rows[id], id);
      assert s.workers[w].queue[0].cleared;
    case Settle(w) => assert !MayWrite(s.workers[w], s.rows[id], id);
    case _ =>
  }

  /** Once nobody may write over it, an ending is final. */
  lemma {:induction false} EndedForGood(s: State, actions: seq<Action>, id: Id)
    requires Inv(s) && Runs(s, actions) && Ended(s.rows, id) && !Unsettled(s, id)
    ensures id in After(s, actions).rows && After(s, actions).rows[id] == s.rows[id]
    decreases |actions|
  {
    if actions != [] {
      SettledStays(s, actions[0], id);
      StepInv(s, actions[0]);
      EndedForGood(Apply(s, actions[0]), actions[1..], id);
    }
  }

  // ---- And what may be written can be ----

  function Ahead(p: Worker): nat {
    match p
    case Ready(queue) => 3 * |queue|
    case Sending(_, _, queue) => 3 * |queue| + 2
    case Settling(_, _, _, queue) => 3 * |queue| + 1
    case Stopped => 0
  }

  /** The next statement of that process, with the answer that changes the row. */
  function NextStep(s: State, w: WorkerId, id: Id): Action
    requires w in s.workers && id in s.rows && MayWrite(s.workers[w], s.rows[id], id)
  {
    match s.workers[w]
    case Ready(queue) => if queue[0].cleared then Skip(w) else Action.Claim(w, s.clock)
    case Sending(_, _, _) => Send(w, s.rows[id].status == Failed)
    case Settling(_, _, _, _) => Action.Settle(w)
  }

  lemma NextStepGoesOn(s: State, w: WorkerId, id: Id)
    requires w in s.workers && Ended(s.rows, id) && MayWrite(s.workers[w], s.rows[id], id)
    ensures var a := NextStep(s, w, id);
      Enabled(s, a) && w in Apply(s, a).workers && id in Apply(s, a).rows
      && Ahead(Apply(s, a).workers[w]) < Ahead(s.workers[w])
      && (Apply(s, a).rows[id] != s.rows[id] || MayWrite(Apply(s, a).workers[w], s.rows[id], id))
  {
    var p := s.workers[w];
    if p.Ready? {
      if !(p.queue[0].id == id && p.queue[0].cleared) {
        HoldsTail(p.queue, id);
      }
    }
  }

  lemma {:induction false} WriterWrites(s: State, w: WorkerId, id: Id) returns (run: seq<Action>)
    requires w in s.workers && Ended(s.rows, id) && MayWrite(s.workers[w], s.rows[id], id)
    ensures Runs(s, run) && id in After(s, run).rows && After(s, run).rows[id] != s.rows[id]
    decreases Ahead(s.workers[w])
  {
    var a := NextStep(s, w, id);
    NextStepGoesOn(s, w, id);
    var s' := Apply(s, a);
    if s'.rows[id] != s.rows[id] {
      assert Runs(s', []) && After(s', []) == s';
      RunsCons(s, a, [], s');
      run := [a] + [];
    } else {
      var rest := WriterWrites(s', w, id);
      RunsCons(s, a, rest, After(s', rest));
      run := [a] + rest;
    }
  }

  lemma OperatorWrites(s: State, id: Id) returns (run: seq<Action>)
    requires id in s.rows && OperatorMayWrite(s, id)
    ensures Runs(s, run) && id in After(s, run).rows && After(s, run).rows[id] != s.rows[id]
  {
    if op :| op in s.operators && s.operators[op] == id {
      var s' := Apply(s, Requeue(op));
      assert Runs(s', []) && After(s', []) == s';
      RunsCons(s, Requeue(op), [], s');
      run := [Requeue(op)] + [];
    } else {
      var op := FreshName(s.operators.Keys);
      var s1 := Apply(s, Inspect(op, id));
      var s2 := Apply(s1, Requeue(op));
      assert Runs(s2, []) && After(s2, []) == s2;
      RunsCons(s1, Requeue(op), [], s2);
      RunsCons(s, Inspect(op, id), [Requeue(op)] + [], s2);
      run := [Inspect(op, id)] + ([Requeue(op)] + []);
    }
  }

  /** An ended delivery stays as it is, whatever follows, exactly when no worker
      holds a snapshot of what succeeded that it read without an address, no owner
      is left to write otherwise, and no operator may requeue what failed. */
  lemma EndedLastsExactly(s: State, id: Id)
    requires Inv(s) && Ended(s.rows, id)
    ensures (forall more :: Runs(s, more) ==> id in After(s, more).rows && After(s, more).rows[id] == s.rows[id])
       <==> !Unsettled(s, id)
  {
    if OperatorMayWrite(s, id) {
      var run := OperatorWrites(s, id);
      assert Runs(s, run);
    } else if w :| w in s.workers && MayWrite(s.workers[w], s.rows[id], id) {
      var run := WriterWrites(s, w, id);
      assert Runs(s, run);
    } else {
      forall more | Runs(s, more) ensures id in After(s, more).rows && After(s, more).rows[id] == s.rows[id] {
        EndedForGood(s, more, id);
      }
    }
  }

  /** For a delivery no worker has skipped: a success can only be lost to such a
      snapshot, a failure only to an operator who looked at it before. */
  lemma UnskippedExactly(s: State, id: Id)
    requires Inv(s) && Ended(s.rows, id) && id !in s.skipped
    ensures Unsettled(s, id)
       <==> if s.rows[id].status == Succeeded then exists w :: w in s.workers && HoldsCleared(QueueOf(s.workers[w]), id)
            else exists op :: op in s.operators && s.operators[op] == id
  {
    assert RowInv(s, id);
    forall w | w in s.workers
      ensures MayWrite(s.workers[w], s.rows[id], id)
         <==> s.rows[id].status == Succeeded && HoldsCleared(QueueOf(s.workers[w]), id)
    {
      if Owns(s, w, id) {
        EndedOwned(s, w, id);
      }
    }
  }

  // ---- A webhook that keeps its address ----

  predicate NeverClears(actions: seq<Action>, hook: HookId) {
    forall i :: 0 <= i < |actions| ==> actions[i] != Clear(hook)
  }

  predicate OfHook(s: State, x: Snapshot, hook: HookId) { x.id in s.rows && s.rows[x.id].webhook == hook }

  /** Nothing of this webhook was read without an address, or skipped. */
  ghost predicate Addressed(s: State, hook: HookId) {
    hook !in s.cleared
    && (forall w, x :: w in s.workers && x in QueueOf(s.workers[w]) && OfHook(s, x, hook) ==> !x.cleared)
    && (forall id :: id in s.skipped ==> id in s.rows && s.rows[id].webhook != hook)
  }

  lemma AddressedQueues(s: State, a: Action, hook: HookId, w: WorkerId, x: Snapshot)
    requires Inv(s) && Enabled(s, a) && Addressed(s, hook) && Grown(s, Apply(s, a))
    requires w in Apply(s, a).workers && x in QueueOf(Apply(s, a).workers[w]) && x.cleared
    ensures !OfHook(Apply(s, a), x, hook)
  {
    if w in s.workers && x in QueueOf(s.workers[w]) {
      SnapshotKnown(s, w, x);
      assert !OfHook(s, x, hook);
    } else {
      ClearedIsRead(s, a, w, x);
    }
    SameHook(s, Apply(s, a), x.id);
  }

  lemma AddressedSkipped(s: State, a: Action, hook: HookId, id: Id)
    requires Inv(s) && Enabled(s, a) && Addressed(s, hook) && Grown(s, Apply(s, a)) && id in Apply(s, a).skipped
    ensures id in Apply(s, a).rows && Apply(s, a).rows[id].webhook != hook
  {
    if id !in s.skipped {
      SkippedIsRead(s, a, id);
      assert !OfHook(s, s.workers[a.w].queue[0], hook);
    }
    SameHook(s, Apply(s, a), id);
  }

  lemma StillAddress(s: State, a: Action, hook: HookId)
    requires Enabled(s, a) && hook !in s.cleared && a != Clear(hook)
    ensures hook !in Apply(s, a).cleared
  {
  }

  lemma AddressedStep(s: State, a: Action, hook: HookId)
    requires Inv(s) && Enabled(s, a) && Addressed(s, hook) && a != Clear(hook)
    ensures Addressed(Apply(s, a), hook)
  {
    var s' := Apply(s, a);
    StepGrown(s, a);
    StillAddress(s, a, hook);
    forall w, x | w in s'.workers && x in QueueOf(s'.workers[w]) && x.cleared ensures !OfHook(s', x, hook) {
      AddressedQueues(s, a, hook, w, x);
    }
    forall id | id in s'.skipped ensures id in s'.rows && s'.rows[id].webhook != hook {
      AddressedSkipped(s, a, hook, id);
    }
  }

  lemma SameHook(s: State, s': State, id: Id)
    requires Grown(s, s') && id in s.rows
    ensures id in s'.rows && s'.rows[id].webhook == s.rows[id].webhook
  {
    assert RowGrown(s.rows[id], s'.rows[id], id in s'.requeued);
  }

  lemma SkippedIsRead(s: State, a: Action, id: Id)
    requires Inv(s) && Enabled(s, a) && id in Apply(s, a).skipped && id !in s.skipped
    ensures a.Skip? && id in s.rows && var x := s.workers[a.w].queue[0]; x.id == id && x.cleared
  {
    OnlySkips(s, a);
    SnapshotKnown(s, a.w, s.workers[a.w].queue[0]);
  }

  lemma OnlySkips(s: State, a: Action)
    requires Enabled(s, a) && Apply(s, a).skipped != s.skipped
    ensures a.Skip? && Apply(s, a).skipped == s.skipped + {s.workers[a.w].queue[0].id}
  {
  }

  lemma SnapshotKnown(s: State, w: WorkerId, x: Snapshot)
    requires Inv(s) && w in s.workers && x in QueueOf(s.workers[w])
    ensures KnownSnapshot(s, x)
  {
    assert WorkerInv(s, s.workers[w]);
  }

  lemma {:induction false} AddressedRun(s: State, actions: seq<Action>, hook: HookId)
    requires Inv(s) && Runs(s, actions) && Addressed(s, hook) && NeverClears(actions, hook)
    ensures Addressed(After(s, actions), hook)
    decreases |actions|
  {
    if actions != [] {
      AddressedStep(s, actions[0], hook);
      StepInv(s, actions[0]);
      AddressedRun(Apply(s, actions[0]), actions[1..], hook);
    }
  }

  /** While its webhook keeps an address, a delivery has at most one owner, whose
      row is in `retrying`, and a success is final. */
  lemma AddressedIsSafe(clock: int, actions: seq<Action>, id: Id, v: WorkerId, w: WorkerId)
    requires Runs(Initial(clock), actions) && id in After(Initial(clock), actions).rows
    requires NeverClears(actions, After(Initial(clock), actions).rows[id].webhook)
    ensures var s := After(Initial(clock), actions);
      (Owns(s, v, id) && Owns(s, w, id) ==> v == w && s.rows[id].status == Retrying)
      && (s.rows[id].status == Succeeded ==> !Unsettled(s, id))
  {
    var s := After(Initial(clock), actions);
    InitialInv(clock);
    RunInv(Initial(clock), actions);
    AddressedRun(Initial(clock), actions, s.rows[id].webhook);
    assert id !in s.skipped;
    if Owns(s, v, id) && Owns(s, w, id) {
      OneOwner(clock, actions, v, w, id);
    }
    if s.rows[id].status == Succeeded {
      UnskippedExactly(s, id);
      if u :| u in s.workers && HoldsCleared(QueueOf(s.workers[u]), id) {
        var queue := QueueOf(s.workers[u]);
        var i :| 0 <= i < |queue| && queue[i].id == id && queue[i].cleared;
        assert queue[i] in queue && OfHook(s, queue[i], s.rows[id].webhook);
      }
    }
  }

  // ---- The input ----

  const A: WorkerId := "a"
  const B: WorkerId := "b"

  function Enqueued(hook: HookId): Delivery { Delivery(hook, PendingRetry, 0, MAX_RETRIES, RETRY_DELAY_MS, None) }

  /** One worker has claimed a delivery that another read after its webhook was
      cleared. */
  function ClaimedAndCleared(id: Id, hook: HookId): State {
    var d := Enqueued(hook);
    Initial(0).(rows := map[id := d.(status := Retrying, attempts := 1, lastRetryAt := Some(0))], cleared := {hook},
                firsts := map[id := FirstDone],
                workers := map[A := Sending(Snapshot(id, d, false), 0, []), B := Ready([Snapshot(id, d, true)])],
                claims := [ClaimMade(id, 0)])
  }

  lemma DueOne(t: Table, cleared: set<HookId>, id: Id)
    requires id in t && ShouldRetry(t[id], 0)
    ensures Due(t, cleared, [id], 0) == [Snapshot(id, t[id], t[id].webhook in cleared)]
  {
    assert [id][1..] == [];
  }

  /** One worker has read the delivery before its webhook was cleared, another
      after. */
  function ReadTwice(id: Id, hook: HookId): State {
    var d := Enqueued(hook);
    Initial(0).(rows := map[id := d], cleared := {hook}, firsts := map[id := FirstDone],
                workers := map[A := Ready([Snapshot(id, d, false)]), B := Ready([Snapshot(id, d, true)])])
  }

  function Waiting(id: Id, hook: HookId): State {
    Initial(0).(rows := map[id := Enqueued(hook)], firsts := map[id := FirstDone],
                workers := map[A := Ready([]), B := Ready([])])
  }

  lemma ReachesWaiting(id: Id, hook: HookId) returns (run: seq<Action>)
    ensures Runs(Initial(0), run) && After(Initial(0), run) == Waiting(id, hook)
  {
    var s := Initial(0);
    run := [];
    RunsSnoc(s, run, Enqueue(id, hook));
    run := run + [Enqueue(id, hook)];
    RunsSnoc(s, run, Start(A));
    run := run + [Start(A)];
    RunsSnoc(s, run, Start(B));
    run := run + [Start(B)];
    assert After(s, run).workers == Waiting(id, hook).workers;
  }

  lemma ReachesRead(id: Id, hook: HookId) returns (run: seq<Action>)
    ensures Runs(Initial(0), run) && After(Initial(0), run) == ReadTwice(id, hook)
  {
    var s, t := Initial(0), Waiting(id, hook).rows;
    run := ReachesWaiting(id, hook);
    DueOne(t, {}, id);
    RunsSnoc(s, run, Fetch(A, [id], 0));
    run := run + [Fetch(A, [id], 0)];
    RunsSnoc(s, run, Clear(hook));
    run := run + [Clear(hook)];
    DueOne(t, {hook}, id);
    RunsSnoc(s, run, Fetch(B, [id], 0));
    run := run + [Fetch(B, [id], 0)];
    assert {} + {hook} == {hook};
    assert After(s, run).workers == ReadTwice(id, hook).workers;
  }

  lemma ReachesClaimed(id: Id, hook: HookId) returns (run: seq<Action>)
    ensures Runs(Initial(0), run) && After(Initial(0), run) == ClaimedAndCleared(id, hook)
  {
    run := ReachesRead(id, hook);
    RunsSnoc(Initial(0), run, Action.Claim(A, 0));
    run := run + [Action.Claim(A, 0)];
    assert ReadTwice(id, hook).workers[A].queue[1..] == [];
    assert After(Initial(0), run).workers == ClaimedAndCleared(id, hook).workers;
  }

  predicate StatusIs(s: State, id: Id, status: Status) { id in s.rows && s.rows[id].status == status }

  /** It is delivered, and then given up. */
  lemma FailedAfterSuccess(id: Id, hook: HookId) returns (run: seq<Action>)
    ensures Runs(Initial(0), run) && StatusIs(After(Initial(0), run), id, Succeeded)
    ensures Runs(Initial(0), run + [Skip(B)]) && StatusIs(After(Initial(0), run + [Skip(B)]), id, Failed)
  {
    run := ReachesClaimed(id, hook);
    RunsSnoc(Initial(0), run, Send(A, true));
    run := run + [Send(A, true)];
    RunsSnoc(Initial(0), run, Action.Settle(A));
    run := run + [Action.Settle(A)];
    RunsSnoc(Initial(0), run, Skip(B));
  }

  /** Or given up while its owner sends it, and then delivered all the same. */
  lemma SuccessAfterFailed(id: Id, hook: HookId) returns (run: seq<Action>)
    ensures Runs(Initial(0), run) && Owns(After(Initial(0), run), A, id)
    ensures StatusIs(After(Initial(0), run), id, Failed)
    ensures var more := run + [Send(A, true)] + [Action.Settle(A)];
      Runs(Initial(0), more) && StatusIs(After(Initial(0), more), id, Succeeded)
  {
    run := ReachesClaimed(id, hook);
    RunsSnoc(Initial(0), run, Skip(B));
    run := run + [Skip(B)];
    RunsSnoc(Initial(0), run, Send(A, true));
    RunsSnoc(Initial(0), run + [Send(A, true)], Action.Settle(A));
  }

  /** Requeued in between, and the webhook given an address again, it has two
      owners. */
  lemma TwoOwners(id: Id, hook: HookId, op: OperatorId) returns (run: seq<Action>)
    ensures Runs(Initial(0), run) && Owns(After(Initial(0), run), A, id) && Owns(After(Initial(0), run), B, id)
  {
    run := ReachesReopened(id, hook, op);
    var s := After(Initial(0), run);
    DueOne(s.rows, {}, id);
    RunsSnoc(Initial(0), run, Fetch(B, [id], 0));
    run := run + [Fetch(B, [id], 0)];
    RunsSnoc(Initial(0), run, Action.Claim(B, 0));
    run := run + [Action.Claim(B, 0)];
  }

  lemma ReachesReopened(id: Id, hook: HookId, op: OperatorId) returns (run: seq<Action>)
    ensures Runs(Initial(0), run) && Owns(After(Initial(0), run), A, id)
    ensures var s := After(Initial(0), run);
      s.rows == map[id := Enqueued(hook).(attempts := 1)] && s.cleared == {} && s.clock == 0
      && B in s.workers && s.workers[B] == Ready([])
  {
    run := ReachesClaimed(id, hook);
    RunsSnoc(Initial(0), run, Skip(B));
    run := run + [Skip(B)];
    assert ClaimedAndCleared(id, hook).workers[B].queue[1..] == [];
    RunsSnoc(Initial(0), run, Inspect(op, id));
    run := run + [Inspect(op, id)];
    RunsSnoc(Initial(0), run, Requeue(op));
    run := run + [Requeue(op)];
    RunsSnoc(Initial(0), run, Restore(hook));
    run := run + [Restore(hook)];
  }
}
