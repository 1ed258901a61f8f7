/** Webhook deliveries: the first attempt made by the request that raised the
    event, any number of retry workers that hold snapshots of the delivery table
    and claim rows by compare-and-set, and operators who clear webhooks and
    requeue deliveries. Every statement on the tables is one step, and steps
    interleave freely. */
module WebhookDelivery {
  import opened Text

  const MAX_RETRIES := 5
  const RETRY_DELAY_MS := 5000
  const MAX_DELIVERIES_PER_CYCLE := 10

  datatype Status = Pending | PendingRetry | Retrying | Succeeded | Failed

  type Id = string
  type HookId = string

  datatype Delivery = Delivery(webhook: HookId, status: Status, attempts: nat, maxRetries: nat, retryDelay: nat,
                               lastRetryAt: Option<int>)

  type Table = map<Id, Delivery>

  // ---- The statements ----

  function InsertDelivery(t: Table, id: Id, hook: HookId): Table {
    t[id := Delivery(hook, Pending, 0, MAX_RETRIES, RETRY_DELAY_MS, None)]
  }

  /** The sweep that ends contracts nobody reads leaves the delivery to the workers. */
  function EnqueueDelivery(t: Table, id: Id, hook: HookId): Table {
    t[id := Delivery(hook, PendingRetry, 0, MAX_RETRIES, RETRY_DELAY_MS, None)]
  }

  /** What an operator may send again, as the inspector reads it. */
  predicate Requeueable(t: Table, id: Id) {
    StillRequeueable(t, id) && !(t[id].maxRetries > 0 && t[id].attempts >= t[id].maxRetries)
  }

  /** And as its update checks it. */
  predicate StillRequeueable(t: Table, id: Id) {
    id in t && (t[id].status == Failed || t[id].status == PendingRetry)
  }

  function RequeueDelivery(t: Table, id: Id): Table {
    if StillRequeueable(t, id) then t[id := t[id].(status := PendingRetry, lastRetryAt := None)] else t
  }

  /** First attempt: DNS refused the host, so no request was made. */
  function DnsFailure(t: Table, id: Id): Table {
    if id in t then t[id := t[id].(status := PendingRetry, attempts := 1, lastRetryAt := None)] else t
  }

  function CountFirstAttempt(t: Table, id: Id): Table {
    if id in t then t[id := t[id].(status := Pending, attempts := 1)] else t
  }

  function QueueForRetry(t: Table, id: Id): Table {
    if id in t then t[id := t[id].(status := PendingRetry, lastRetryAt := None)] else t
  }

  /** The compare-and-set: only a row still waiting, with the attempts seen. */
  predicate Claimable(t: Table, id: Id, attempts: nat) {
    id in t && t[id].status == PendingRetry && t[id].attempts == attempts
  }

  function ClaimForRetry(t: Table, id: Id, attempts: nat, now: int): Table {
    if Claimable(t, id, attempts)
    then t[id := t[id].(status := Retrying, attempts := attempts + 1, lastRetryAt := Some(now))] else t
  }

  function MarkSuccess(t: Table, id: Id): Table {
    if id in t then t[id := t[id].(status := Succeeded)] else t
  }

  /** Written after the last attempt, and by a worker that finds no address: it
      looks at nothing but the id. */
  function MarkFailed(t: Table, id: Id): Table {
    if id in t then t[id := t[id].(status := Failed)] else t
  }

  function WaitForNextCycle(t: Table, id: Id, claimedAt: int): Table {
    if id in t then t[id := t[id].(status := PendingRetry, lastRetryAt := Some(claimedAt))] else t
  }

  predicate ShouldRetry(d: Delivery, now: int) {
    d.attempts < d.maxRetries && (d.lastRetryAt.None? || now - d.lastRetryAt.value >= d.retryDelay)
  }

  /** The table as the client sees it: each method is one statement. */
  class DeliveryTable {
    var rows: Table

    constructor ()
      ensures rows == map[]
    {
      rows := map[];
    }

    method Claim(id: Id, attempts: nat, now: int) returns (claimed: bool)
      modifies this
      ensures claimed == Claimable(old(rows), id, attempts)
      ensures rows == ClaimForRetry(old(rows), id, attempts, now)
    {
      claimed := id in rows && rows[id].status == PendingRetry && rows[id].attempts == attempts;
      if claimed {
        rows := rows[id := rows[id].(status := Retrying, attempts := attempts + 1, lastRetryAt := Some(now))];
      }
    }

    /** `markDeliveryFailed`. */
    method Fail(id: Id)
      modifies this
      ensures rows == MarkFailed(old(rows), id)
    {
      if id in rows {
        rows := rows[id := rows[id].(status := Failed)];
      }
    }

    /** The update behind an operator's requeue, with the status check it makes. */
    method Requeue(id: Id) returns (requeued: bool)
      modifies this
      ensures requeued == StillRequeueable(old(rows), id)
      ensures rows == RequeueDelivery(old(rows), id)
    {
      requeued := id in rows && rows[id].status in {Failed, PendingRetry};
      if requeued {
        rows := rows[id := rows[id].(status := PendingRetry, lastRetryAt := None)];
      }
    }

    /** What a worker writes after a claimed attempt. */
    method Settle(id: Id, attempt: nat, ok: bool, maxRetries: nat, claimedAt: int)
      modifies this
      ensures rows == Settled(old(rows), id, attempt, ok, maxRetries, claimedAt)
    {
      if id !in rows { return; }
      if ok {
        rows := rows[id := rows[id].(status := Succeeded)];
      } else if attempt >= maxRetries {
        Fail(id);
      } else {
        rows := rows[id := rows[id].(status := PendingRetry, lastRetryAt := Some(claimedAt))];
      }
    }
  }

  function Settled(t: Table, id: Id, attempt: nat, ok: bool, maxRetries: nat, claimedAt: int): Table {
    if ok then MarkSuccess(t, id)
    else if attempt >= maxRetries then MarkFailed(t, id)
    else WaitForNextCycle(t, id, claimedAt)
  }

  // ---- Which webhooks are called ----

  datatype Hook = Hook(id: string, url: string)

  /** The last of these webhooks with an id. */
  function LastHook(hooks: seq<Hook>, id: string): Option<Hook> {
    if hooks == [] then None
    else if hooks[|hooks| - 1].id == id then Some(hooks[|hooks| - 1])
    else LastHook(hooks[..|hooks| - 1], id)
  }

  /** The merge in `deliverWebhooks`: a webhook found by both queries is called
      once, with the row of the second. */
  method MergeHooks(hooks: seq<Hook>, legacy: seq<Hook>) returns (merged: map<string, Hook>)
    ensures forall id :: id in merged <==> LastHook(hooks + legacy, id).Some?
    ensures forall id :: id in merged ==> LastHook(hooks + legacy, id) == Some(merged[id])
  {
    merged := map[];
    assert [] + hooks == hooks;
    merged := SetAll(hooks, merged, []);
    merged := SetAll(legacy, merged, hooks);
  }

  ghost predicate Merged(m: map<string, Hook>, hooks: seq<Hook>) {
    forall id :: (id in m <==> LastHook(hooks, id).Some?) && (id in m ==> LastHook(hooks, id) == Some(m[id]))
  }

  method SetAll(hooks: seq<Hook>, before: map<string, Hook>, ghost earlier: seq<Hook>)
    returns (merged: map<string, Hook>)
    requires Merged(before, earlier)
    ensures Merged(merged, earlier + hooks)
  {
    merged := before;
    assert earlier + hooks[..0] == earlier;
    for i := 0 to |hooks|
      invariant Merged(merged, earlier + hooks[..i])
    {
      assert (earlier + hooks[..i + 1])[..|earlier| + i] == earlier + hooks[..i];
      merged := merged[hooks[i].id := hooks[i]];
    }
    assert hooks[..|hooks|] == hooks;
  }

  /** Each webhook in either list is called, and no other. */
  lemma {:induction false} LastHookExactly(hooks: seq<Hook>, id: string)
    ensures LastHook(hooks, id).Some? <==> exists i :: 0 <= i < |hooks| && hooks[i].id == id
  {
    if hooks != [] {
      var init := hooks[..|hooks| - 1];
      LastHookExactly(init, id);
      if i :| 0 <= i < |hooks| && hooks[i].id == id {
        assert i < |init| ==> init[i].id == id;
      }
      if j :| 0 <= j < |init| && init[j].id == id {
        assert hooks[j].id == id;
      }
    }
  }

  // ---- Processes ----

  /** A delivery as it was read, and whether its webhook had no address then. */
  datatype Snapshot = Snapshot(id: Id, delivery: Delivery, cleared: bool)

  /** A retry worker: what is left of its cycle, and how far its current
      delivery has come. */
  datatype Worker =
    | Ready(queue: seq<Snapshot>)
    | Sending(snapshot: Snapshot, claimedAt: int, queue: seq<Snapshot>)
    | Settling(snapshot: Snapshot, claimedAt: int, ok: bool, queue: seq<Snapshot>)
    | Stopped

  /** The request that made the first attempt. */
  datatype First = Checking | FirstSending | FirstSettling(ok: bool) | FirstDone

  type WorkerId = string
  type OperatorId = string

  datatype Sent = Sent(id: Id, attempt: nat, byWorker: bool)

  datatype ClaimMade = ClaimMade(id: Id, at: int)

  /** The table, the webhooks without an address, the processes, and what has
      happened: sends, claims, first attempts that were not counted, deliveries an
      operator requeued, those a worker skipped, and those requeued after that. */
  datatype State = State(
    rows: Table,
    cleared: set<HookId>,
    firsts: map<Id, First>,
    workers: map<WorkerId, Worker>,
    operators: map<OperatorId, Id>,
    sent: seq<Sent>,
    claims: seq<ClaimMade>,
    uncounted: set<Id>,
    requeued: set<Id>,
    skipped: set<Id>,
    reopened: set<Id>,
    clock: int)

  function Initial(clock: int): State {
    State(map[], {}, map[], map[], map[], [], [], {}, {}, {}, {}, clock)
  }

  datatype Action =
    | Insert(id: Id, hook: HookId)
    | Enqueue(id: Id, hook: HookId)
    | DnsFails(id: Id)
    | CountFirst(id: Id)
    | CountFirstFails(id: Id)
    | SendFirst(id: Id, ok: bool)
    | SettleFirst(id: Id)
    | StopFirst(id: Id)
    | Start(w: WorkerId)
    | Fetch(w: WorkerId, picked: seq<Id>, now: int)
    | Skip(w: WorkerId)
    | Claim(w: WorkerId, now: int)
    | Send(w: WorkerId, ok: bool)
    | Settle(w: WorkerId)
    | Stop(w: WorkerId)
    | Inspect(op: OperatorId, delivery: Id)
    | Requeue(op: OperatorId)
    | Clear(hook: HookId)
    | Restore(hook: HookId)

  predicate Fetchable(t: Table, picked: seq<Id>) {
    |picked| <= MAX_DELIVERIES_PER_CYCLE
    && forall i :: 0 <= i < |picked| ==>
      picked[i] in t && (t[picked[i]].status == PendingRetry || t[picked[i]].status == Retrying)
  }

  predicate HasNext(s: State, w: WorkerId) { w in s.workers && s.workers[w].Ready? && s.workers[w].queue != [] }

  predicate Enabled(s: State, a: Action) {
    match a
    case Insert(id, _) => id !in s.rows
    case Enqueue(id, _) => id !in s.rows
    case DnsFails(id) => id in s.firsts && s.firsts[id] == Checking
    case CountFirst(id) => id in s.firsts && s.firsts[id] == Checking
    case CountFirstFails(id) => id in s.firsts && s.firsts[id] == Checking
    case SendFirst(id, _) => id in s.firsts && s.firsts[id] == FirstSending
    case SettleFirst(id) => id in s.firsts && s.firsts[id].FirstSettling?
    case StopFirst(id) => id in s.firsts
    case Start(w) => w !in s.workers
    case Fetch(w, picked, now) =>
      w in s.workers && s.workers[w] == Ready([]) && Fetchable(s.rows, picked) && now >= s.clock
    case Skip(w) => HasNext(s, w) && s.workers[w].queue[0].cleared
    case Claim(w, now) => HasNext(s, w) && !s.workers[w].queue[0].cleared && now >= s.clock
    case Send(w, _) => w in s.workers && s.workers[w].Sending?
    case Settle(w) => w in s.workers && s.workers[w].Settling?
    case Stop(w) => w in s.workers
    case Inspect(op, id) => op !in s.operators && Requeueable(s.rows, id)
    case Requeue(op) => op in s.operators
    case Clear(_) => true
    case Restore(_) => true
  }

  /** `fetchPending`: the rows picked, less those not yet due. */
  function Due(t: Table, cleared: set<HookId>, picked: seq<Id>, now: int): (queue: seq<Snapshot>)
    requires forall i :: 0 <= i < |picked| ==> picked[i] in t
    ensures forall x :: x in queue ==>
      x.id in picked && x.delivery == t[x.id] && ShouldRetry(x.delivery, now)
      && (x.cleared <==> x.delivery.webhook in cleared)
  {
    if picked == [] then []
    else
      var d := t[picked[0]];
      (if ShouldRetry(d, now) then [Snapshot(picked[0], d, d.webhook in cleared)] else [])
      + Due(t, cleared, picked[1..], now)
  }

  function Apply(s: State, a: Action): State
    requires Enabled(s, a)
  {
    match a
    case Insert(id, hook) => s.(rows := InsertDelivery(s.rows, id, hook), firsts := s.firsts[id := Checking])
    case Enqueue(id, hook) => s.(rows := EnqueueDelivery(s.rows, id, hook), firsts := s.firsts[id := FirstDone])
    case DnsFails(id) => s.(rows := DnsFailure(s.rows, id), firsts := s.firsts[id := FirstDone])
    case CountFirst(id) => s.(rows := CountFirstAttempt(s.rows, id), firsts := s.firsts[id := FirstSending])
    case CountFirstFails(id) => s.(firsts := s.firsts[id := FirstSending], uncounted := s.uncounted + {id})
    case SendFirst(id, ok) => s.(firsts := s.firsts[id := FirstSettling(ok)], sent := s.sent + [Sent(id, 1, false)])
    case SettleFirst(id) =>
      s.(rows := if s.firsts[id].ok then MarkSuccess(s.rows, id) else QueueForRetry(s.rows, id),
         firsts := s.firsts[id := FirstDone])
    case StopFirst(id) => s.(firsts := s.firsts[id := FirstDone])
    case Start(w) => s.(workers := s.workers[w := Ready([])])
    case Fetch(w, picked, now) =>
      s.(workers := s.workers[w := Ready(Due(s.rows, s.cleared, picked, now))], clock := now)
    case Skip(w) => SkipStep(s, w)
    case Claim(w, now) => ClaimStep(s, w, now)
    case Send(w, ok) => SendStep(s, w, ok)
    case Settle(w) => SettleStep(s, w)
    case Stop(w) => s.(workers := s.workers[w := Stopped])
    case Inspect(op, id) => s.(operators := s.operators[op := id])
    case Requeue(op) => RequeueStep(s, op)
    case Clear(hook) => s.(cleared := s.cleared + {hook})
    case Restore(hook) => s.(cleared := s.cleared - {hook})
  }

  /** A snapshot read while its webhook had no address: the delivery is given up,
      whatever has become of it since. */
  function SkipStep(s: State, w: WorkerId): State
    requires HasNext(s, w)
  {
    var x, rest := s.workers[w].queue[0], s.workers[w].queue[1..];
    s.(rows := MarkFailed(s.rows, x.id), workers := s.workers[w := Ready(rest)], skipped := s.skipped + {x.id})
  }

  function ClaimStep(s: State, w: WorkerId, now: int): State
    requires HasNext(s, w)
  {
    var x, rest := s.workers[w].queue[0], s.workers[w].queue[1..];
    if Claimable(s.rows, x.id, x.delivery.attempts)
    then s.(rows := ClaimForRetry(s.rows, x.id, x.delivery.attempts, now),
            workers := s.workers[w := Sending(x, now, rest)], claims := s.claims + [ClaimMade(x.id, now)], clock := now)
    else s.(workers := s.workers[w := Ready(rest)], clock := now)
  }

  function SendStep(s: State, w: WorkerId, ok: bool): State
    requires w in s.workers && s.workers[w].Sending?
  {
    var p := s.workers[w];
    s.(workers := s.workers[w := Settling(p.snapshot, p.claimedAt, ok, p.queue)],
       sent := s.sent + [Sent(p.snapshot.id, Attempt(p.snapshot), true)])
  }

  function SettleStep(s: State, w: WorkerId): State
    requires w in s.workers && s.workers[w].Settling?
  {
    var p := s.workers[w];
    s.(rows := SettledBy(s.rows, p), workers := s.workers[w := Ready(p.queue)])
  }

  function SettledBy(t: Table, p: Worker): Table
    requires p.Settling?
  {
    Settled(t, p.snapshot.id, Attempt(p.snapshot), p.ok, p.snapshot.delivery.maxRetries, p.claimedAt)
  }

  /** The number under which a claimed snapshot is sent. */
  function Attempt(x: Snapshot): nat { x.delivery.attempts + 1 }

  function RequeueStep(s: State, op: OperatorId): State
    requires op in s.operators
  {
    var id := s.operators[op];
    var hit := if StillRequeueable(s.rows, id) then {id} else {};
    s.(rows := RequeueDelivery(s.rows, id), operators := s.operators - {op},
       requeued := s.requeued + hit, reopened := s.reopened + (hit * s.skipped))
  }

  // ---- What every step keeps ----

  predicate Busy(p: Worker) { p.Sending? || p.Settling? }

  predicate Owns(s: State, w: WorkerId, id: Id) {
    w in s.workers && Busy(s.workers[w]) && s.workers[w].snapshot.id == id
  }

  /** A snapshot may be stale, but as long as its attempts are current so is the
      time of the last retry, unless an operator cleared it, and by that time the
      row was due. */
  predicate KnownSnapshot(s: State, x: Snapshot) {
    && x.id in s.rows
    && x.delivery.attempts <= s.rows[x.id].attempts
    && x.delivery.attempts < x.delivery.maxRetries && x.delivery.maxRetries == s.rows[x.id].maxRetries
    && s.rows[x.id].status != Pending && x.delivery.webhook == s.rows[x.id].webhook
    && (x.delivery.attempts == s.rows[x.id].attempts && x.id !in s.requeued ==>
      x.delivery.lastRetryAt == s.rows[x.id].lastRetryAt)
    && (x.delivery.lastRetryAt.Some? ==> s.clock - x.delivery.lastRetryAt.value >= RETRY_DELAY_MS)
  }

  predicate QueueKnown(s: State, queue: seq<Snapshot>) {
    forall x :: x in queue ==> KnownSnapshot(s, x)
  }

  /** What an owner claimed. It is still in `retrying` under the number claimed, or
      was skipped since; only a requeue after that takes it away. */
  predicate Held(s: State, x: Snapshot, claimedAt: int) {
    x.id in s.rows
    && var d := s.rows[x.id];
       d.status != Pending && Attempt(x) <= d.attempts && x.delivery.maxRetries == d.maxRetries
       && (x.id !in s.requeued ==> d.lastRetryAt == Some(claimedAt))
       && (x.id !in s.reopened ==>
             d.attempts == Attempt(x) && (d.status == Retrying || (d.status == Failed && x.id in s.skipped)))
  }

  /** No worker has sent this number, and a first attempt only if it was not counted. */
  predicate Unsent(s: State, id: Id, attempt: nat) {
    forall i :: 0 <= i < |s.sent| && s.sent[i].id == id ==>
      s.sent[i].attempt != attempt || (id in s.uncounted && !s.sent[i].byWorker)
  }

  predicate WorkerInv(s: State, p: Worker) {
    match p
    case Ready(queue) => QueueKnown(s, queue)
    case Sending(x, at, queue) => QueueKnown(s, queue) && Held(s, x, at) && Unsent(s, x.id, Attempt(x))
    case Settling(x, at, _, queue) => QueueKnown(s, queue) && Held(s, x, at)
    case Stopped => true
  }

  ghost predicate WorkersInv(s: State) { forall w :: w in s.workers ==> WorkerInv(s, s.workers[w]) }

  /** Two owners of one delivery claimed different numbers, and there are two only
      after a requeue of what a worker had skipped. */
  ghost predicate OwnersInv(s: State) {
    forall v, w, id :: v != w && Owns(s, v, id) && Owns(s, w, id) ==>
      id in s.reopened && Attempt(s.workers[v].snapshot) != Attempt(s.workers[w].snapshot)
  }

  predicate NeverSent(s: State, id: Id) {
    forall i :: 0 <= i < |s.sent| ==> s.sent[i].id != id
  }

  predicate FirstInv(s: State, id: Id)
    requires id in s.firsts
  {
    id in s.rows
    && match s.firsts[id]
       case Checking =>
         s.rows[id].status == Pending && s.rows[id].attempts == 0 && NeverSent(s, id) && id !in s.uncounted
       case FirstSending =>
         s.rows[id].status == Pending && NeverSent(s, id) && s.rows[id].attempts == (if id in s.uncounted then 0 else 1)
       case FirstSettling(_) => s.rows[id].status == Pending
       case FirstDone => true
  }

  predicate StandardLimits(d: Delivery) {
    d.attempts <= d.maxRetries == MAX_RETRIES && d.retryDelay == RETRY_DELAY_MS
  }

  /** A delivery that failed without being skipped has used all its attempts. */
  predicate RowInv(s: State, id: Id)
    requires id in s.rows
  {
    id in s.firsts && StandardLimits(s.rows[id])
    && (s.rows[id].status == Failed && id !in s.skipped ==> s.rows[id].attempts == s.rows[id].maxRetries)
  }

  ghost predicate FirstsInv(s: State) { forall id :: id in s.firsts ==> FirstInv(s, id) }

  ghost predicate RowsInv(s: State) {
    (forall id :: id in s.rows ==> RowInv(s, id)) && s.uncounted <= s.firsts.Keys
    && s.reopened <= s.requeued && s.reopened <= s.skipped
  }

  predicate SendInv(s: State, x: Sent) {
    x.id in s.rows && x.attempt >= 1 && (!x.byWorker ==> x.attempt == 1)
    && (x.attempt <= s.rows[x.id].attempts || (x.id in s.uncounted && !x.byWorker))
  }

  /** Two sends of a delivery carry different numbers, but for a first attempt
      that was not counted and the worker that then takes its number. */
  predicate DifferentSends(s: State, x: Sent, y: Sent) {
    x.id == y.id && x.attempt == y.attempt ==> x.id in s.uncounted && !x.byWorker && y.byWorker
  }

  ghost predicate SendsInv(s: State) {
    && (forall i :: 0 <= i < |s.sent| ==> SendInv(s, s.sent[i]))
    && (forall i, j :: 0 <= i < j < |s.sent| ==> DifferentSends(s, s.sent[i], s.sent[j]))
  }

  predicate ClaimInv(s: State, c: ClaimMade) {
    c.id in s.rows && s.rows[c.id].status != Pending
    && (c.id !in s.requeued ==> s.rows[c.id].lastRetryAt.Some? && c.at <= s.rows[c.id].lastRetryAt.value <= s.clock)
  }

  predicate Spaced(s: State, x: ClaimMade, y: ClaimMade) {
    x.id == y.id && x.id !in s.requeued ==> y.at - x.at >= RETRY_DELAY_MS
  }

  ghost predicate ClaimsInv(s: State) {
    && (forall i :: 0 <= i < |s.claims| ==> ClaimInv(s, s.claims[i]))
    && (forall i, j :: 0 <= i < j < |s.claims| ==> Spaced(s, s.claims[i], s.claims[j]))
  }

  ghost predicate Inv(s: State) {
    WorkersInv(s) && OwnersInv(s) && FirstsInv(s) && RowsInv(s) && SendsInv(s) && ClaimsInv(s)
  }

  // ---- Writing one row ----

  /** What any write keeps of a row: it gains attempts or none, keeps its limit,
      and once it was answered it stays so. */
  predicate RowGrown(d: Delivery, e: Delivery, requeued: bool) {
    e.webhook == d.webhook && d.attempts <= e.attempts && e.maxRetries == d.maxRetries && e.retryDelay == d.retryDelay
    && (d.status != Pending ==>
          e.status != Pending && (d.attempts == e.attempts && !requeued ==> d.lastRetryAt == e.lastRetryAt))
  }

  predicate Grown(s: State, s': State) {
    (forall id :: id in s.rows ==> id in s'.rows && RowGrown(s.rows[id], s'.rows[id], id in s'.requeued))
    && s.uncounted <= s'.uncounted && s.requeued <= s'.requeued && s.skipped <= s'.skipped && s.reopened <= s'.reopened
    && s.clock <= s'.clock
  }

  /** What a write must keep for an owner that did not make it. */
  predicate HeldKept(s: State, s': State, id: Id) {
    id in s.rows && id in s'.rows
    && (id !in s'.requeued ==> s'.rows[id].lastRetryAt == s.rows[id].lastRetryAt)
    && (id !in s'.reopened ==>
          s'.rows[id].attempts == s.rows[id].attempts
          && (s'.rows[id].status == s.rows[id].status || (s'.rows[id].status == Failed && id in s'.skipped)))
  }

  predicate SentOther(s: State, s': State, id: Id, attempt: nat) {
    s'.sent == s.sent
    || (|s'.sent| == |s.sent| + 1 && s'.sent[..|s.sent|] == s.sent
        && (s'.sent[|s.sent|].id != id || s'.sent[|s.sent|].attempt != attempt))
  }

  lemma QueueKept(s: State, s': State, queue: seq<Snapshot>)
    requires QueueKnown(s, queue) && Grown(s, s')
    ensures QueueKnown(s', queue)
  {
    forall x | x in queue ensures KnownSnapshot(s', x) {
      assert KnownSnapshot(s, x) && RowGrown(s.rows[x.id], s'.rows[x.id], x.id in s'.requeued);
    }
  }

  lemma StillHeld(s: State, s': State, x: Snapshot, at: int)
    requires Held(s, x, at) && Grown(s, s') && HeldKept(s, s', x.id)
    ensures Held(s', x, at)
  {
    assert RowGrown(s.rows[x.id], s'.rows[x.id], x.id in s'.requeued);
  }

  lemma StillUnsent(s: State, s': State, id: Id, attempt: nat)
    requires Unsent(s, id, attempt) && SentOther(s, s', id, attempt) && s.uncounted <= s'.uncounted
    ensures Unsent(s', id, attempt)
  {
    forall i | 0 <= i < |s'.sent| && s'.sent[i].id == id
      ensures s'.sent[i].attempt != attempt || (id in s'.uncounted && !s'.sent[i].byWorker)
    {
      assert i < |s.sent| ==> s'.sent[i] == s.sent[i];
    }
  }

  /** A process that does not move keeps its invariant. */
  lemma WorkerKept(s: State, s': State, p: Worker)
    requires WorkerInv(s, p) && Grown(s, s')
    requires Busy(p) ==> HeldKept(s, s', p.snapshot.id)
    requires p.Sending? ==> SentOther(s, s', p.snapshot.id, Attempt(p.snapshot))
    ensures WorkerInv(s', p)
  {
    match p
    case Ready(queue) => QueueKept(s, s', queue);
    case Sending(x, at, queue) =>
      QueueKept(s, s', queue);
      StillHeld(s, s', x, at);
      StillUnsent(s, s', x.id, Attempt(x));
    case Settling(x, at, _, queue) =>
      QueueKept(s, s', queue);
      StillHeld(s, s', x, at);
    case Stopped =>
  }

  /** Steps that hand out no row keep what is said of owners. */
  lemma SameOwners(s: State, s': State)
    requires OwnersInv(s) && s.reopened <= s'.reopened
    requires forall w, id :: Owns(s', w, id) ==> Owns(s, w, id) && s'.workers[w].snapshot == s.workers[w].snapshot
    ensures OwnersInv(s')
  {
  }

  /** A step of anyone but the first request leaves the first attempts alone. */
  lemma FirstsKept(s: State, s': State)
    requires FirstsInv(s) && s'.firsts == s.firsts && s'.uncounted == s.uncounted && Grown(s, s')
    requires forall id :: id in s.rows && s.rows[id].status == Pending ==> s'.rows[id] == s.rows[id]
    requires s'.sent == s.sent
             || (|s'.sent| == |s.sent| + 1 && s'.sent[..|s.sent|] == s.sent && s'.sent[|s.sent|].id in s.rows
                 && s.rows[s'.sent[|s.sent|].id].status != Pending)
    ensures FirstsInv(s')
  {
    forall id | id in s'.firsts ensures FirstInv(s', id) {
      FirstKept(s, s', id);
    }
  }

  lemma FirstKept(s: State, s': State, id: Id)
    requires id in s.firsts && FirstInv(s, id) && s'.firsts == s.firsts && s'.uncounted == s.uncounted && Grown(s, s')
    requires s.rows[id].status == Pending ==> s'.rows[id] == s.rows[id]
    requires s'.sent == s.sent
             || (|s'.sent| == |s.sent| + 1 && s'.sent[..|s.sent|] == s.sent && s'.sent[|s.sent|].id in s.rows
                 && s.rows[s'.sent[|s.sent|].id].status != Pending)
    ensures FirstInv(s', id)
  {
    if NeverSent(s, id) && s.rows[id].status == Pending {
      forall i | 0 <= i < |s'.sent| ensures s'.sent[i].id != id {
        assert i < |s.sent| ==> s'.sent[i] == s.sent[i];
      }
    }
  }

  lemma SendsKept(s: State, s': State)
    requires SendsInv(s) && s'.sent == s.sent && Grown(s, s')
    ensures SendsInv(s')
  {
    forall i | 0 <= i < |s'.sent| ensures SendInv(s', s'.sent[i]) {
      assert SendInv(s, s.sent[i])
        && RowGrown(s.rows[s.sent[i].id], s'.rows[s.sent[i].id], s.sent[i].id in s'.requeued);
    }
    forall i, j | 0 <= i < j < |s'.sent| ensures DifferentSends(s', s'.sent[i], s'.sent[j]) {
      assert DifferentSends(s, s.sent[i], s.sent[j]);
    }
  }

  lemma ClaimsKept(s: State, s': State)
    requires ClaimsInv(s) && s'.claims == s.claims && Grown(s, s')
    requires forall id :: id in s.rows && s.rows[id].status != Pending && id !in s'.requeued ==>
      s'.rows[id].lastRetryAt == s.rows[id].lastRetryAt
    ensures ClaimsInv(s')
  {
    forall i | 0 <= i < |s'.claims| ensures ClaimInv(s', s'.claims[i]) {
      assert ClaimInv(s, s.claims[i]);
      assert RowGrown(s.rows[s.claims[i].id], s'.rows[s.claims[i].id], s.claims[i].id in s'.requeued);
    }
    forall i, j | 0 <= i < j < |s'.claims| ensures Spaced(s', s'.claims[i], s'.claims[j]) {
      assert Spaced(s, s.claims[i], s.claims[j]);
    }
  }

  lemma InitialInv(clock: int)
    ensures Inv(Initial(clock))
  {
  }

  // ---- Steps that write no row ----

  predicate Quiet(a: Action) { a.Start? || a.Fetch? || a.Stop? || a.Inspect? || a.Clear? || a.Restore? }

  lemma FetchKnown(s: State, picked: seq<Id>, now: int)
    requires RowsInv(s) && Fetchable(s.rows, picked) && now >= s.clock
    ensures QueueKnown(s.(clock := now), Due(s.rows, s.cleared, picked, now))
  {
    forall x | x in Due(s.rows, s.cleared, picked, now) ensures KnownSnapshot(s.(clock := now), x) {
      assert RowInv(s, x.id);
    }
  }

  lemma QuietGrown(s: State, a: Action)
    requires Enabled(s, a) && Quiet(a)
    ensures var s' := Apply(s, a);
      Grown(s, s') && s'.rows == s.rows && s'.sent == s.sent && s'.claims == s.claims && s'.firsts == s.firsts
      && s'.uncounted == s.uncounted && s'.requeued == s.requeued && s'.skipped == s.skipped
      && s'.reopened == s.reopened
  {
  }

  lemma QuietWorkers(s: State, a: Action)
    requires WorkersInv(s) && RowsInv(s) && Enabled(s, a) && Quiet(a)
    ensures WorkersInv(Apply(s, a))
  {
    var s' := Apply(s, a);
    QuietGrown(s, a);
    forall w | w in s'.workers ensures WorkerInv(s', s'.workers[w]) {
      if w in s.workers && s'.workers[w] == s.workers[w] {
        WorkerKept(s, s', s.workers[w]);
      } else if a.Fetch? {
        FetchKnown(s, a.picked, a.now);
        QueueKept(s.(clock := a.now), s', Due(s.rows, s.cleared, a.picked, a.now));
      }
    }
  }

  lemma QuietInv(s: State, a: Action)
    requires Inv(s) && Enabled(s, a) && Quiet(a)
    ensures Inv(Apply(s, a))
  {
    var s' := Apply(s, a);
    QuietGrown(s, a);
    QuietWorkers(s, a);
    SameOwners(s, s');
    FirstsKept(s, s');
    assert forall id :: id in s.rows ==> RowInv(s, id);
    SendsKept(s, s');
    ClaimsKept(s, s');
  }

  // ---- Skipping ----

  lemma SkipGrown(s: State, w: WorkerId)
    requires WorkersInv(s) && Enabled(s, Skip(w))
    ensures var s' := SkipStep(s, w); var id := s.workers[w].queue[0].id;
      Grown(s, s') && id in s.rows && s.rows[id].status != Pending
        && s'.rows == s.rows[id := s.rows[id].(status := Failed)]
  {
    assert WorkerInv(s, s.workers[w]) && KnownSnapshot(s, s.workers[w].queue[0]);
  }

  lemma SkipWorkers(s: State, w: WorkerId)
    requires WorkersInv(s) && Enabled(s, Skip(w))
    ensures WorkersInv(SkipStep(s, w))
  {
    var s' := SkipStep(s, w);
    SkipGrown(s, w);
    forall v | v in s'.workers ensures WorkerInv(s', s'.workers[v]) {
      assert WorkerInv(s, s.workers[v]);
      if v == w {
        QueueKept(s, s', s.workers[w].queue);
      } else {
        WorkerKept(s, s', s.workers[v]);
      }
    }
  }

  lemma SkipInv(s: State, w: WorkerId)
    requires Inv(s) && Enabled(s, Skip(w))
    ensures Inv(SkipStep(s, w))
  {
    var s' := SkipStep(s, w);
    SkipGrown(s, w);
    SkipWorkers(s, w);
    SameOwners(s, s');
    FirstsKept(s, s');
    assert forall id :: id in s.rows ==> RowInv(s, id);
    SendsKept(s, s');
    ClaimsKept(s, s');
  }

  // ---- Claiming ----

  lemma ClaimGrown(s: State, w: WorkerId, now: int)
    requires WorkersInv(s) && Enabled(s, Claim(w, now))
    ensures var s' := ClaimStep(s, w, now); var x := s.workers[w].queue[0];
      Grown(s, s') && KnownSnapshot(s, x)
      && (if Claimable(s.rows, x.id, x.delivery.attempts)
          then s'.rows
            == s.rows[x.id := s.rows[x.id].(status := Retrying, attempts := Attempt(x), lastRetryAt := Some(now))]
          else s'.rows == s.rows)
  {
    assert WorkerInv(s, s.workers[w]) && KnownSnapshot(s, s.workers[w].queue[0]);
  }

  /** A waiting row that still has an owner was requeued after being skipped. */
  lemma WaitingOwned(s: State, v: WorkerId, id: Id)
    requires WorkersInv(s) && Owns(s, v, id) && id in s.rows && s.rows[id].status == PendingRetry
    ensures id in s.reopened && Attempt(s.workers[v].snapshot) <= s.rows[id].attempts
  {
    assert WorkerInv(s, s.workers[v]);
  }

  lemma NewNumberUnsent(s: State, id: Id)
    requires SendsInv(s) && id in s.rows
    ensures Unsent(s, id, s.rows[id].attempts + 1)
  {
    forall i | 0 <= i < |s.sent| && s.sent[i].id == id
      ensures s.sent[i].attempt != s.rows[id].attempts + 1 || (id in s.uncounted && !s.sent[i].byWorker)
    {
      assert SendInv(s, s.sent[i]);
    }
  }

  lemma ClaimWorkers(s: State, w: WorkerId, now: int)
    requires WorkersInv(s) && SendsInv(s) && RowsInv(s) && Enabled(s, Claim(w, now))
    ensures WorkersInv(ClaimStep(s, w, now))
  {
    var s' := ClaimStep(s, w, now);
    var x, rest := s.workers[w].queue[0], s.workers[w].queue[1..];
    ClaimGrown(s, w, now);
    forall v | v in s'.workers ensures WorkerInv(s', s'.workers[v]) {
      assert WorkerInv(s, s.workers[v]);
      if v == w {
        assert forall y :: y in rest ==> y in s.workers[w].queue;
        QueueKept(s, s', rest);
        if Claimable(s.rows, x.id, x.delivery.attempts) {
          NewNumberUnsent(s, x.id);
          StillUnsent(s, s', x.id, Attempt(x));
          ClaimedIsHeld(s, w, now);
        }
      } else {
        if Claimable(s.rows, x.id, x.delivery.attempts) && Owns(s, v, x.id) {
          WaitingOwned(s, v, x.id);
        }
        WorkerKept(s, s', s.workers[v]);
      }
    }
  }

  lemma ClaimedIsHeld(s: State, w: WorkerId, now: int)
    requires HasNext(s, w) && var x := s.workers[w].queue[0]; Claimable(s.rows, x.id, x.delivery.attempts)
    requires KnownSnapshot(s, s.workers[w].queue[0])
    ensures Held(ClaimStep(s, w, now), s.workers[w].queue[0], now)
  {
  }

  lemma ClaimOwners(s: State, w: WorkerId, now: int)
    requires WorkersInv(s) && OwnersInv(s) && Enabled(s, Claim(w, now))
    ensures OwnersInv(ClaimStep(s, w, now))
  {
    var s' := ClaimStep(s, w, now);
    var x := s.workers[w].queue[0];
    if !Claimable(s.rows, x.id, x.delivery.attempts) {
      SameOwners(s, s');
      return;
    }
    forall u, v, id | u != v && Owns(s', u, id) && Owns(s', v, id)
      ensures id in s'.reopened && Attempt(s'.workers[u].snapshot) != Attempt(s'.workers[v].snapshot)
    {
      if u == w {
        assert Owns(s, v, id);
        WaitingOwned(s, v, id);
      } else if v == w {
        assert Owns(s, u, id);
        WaitingOwned(s, u, id);
      } else {
        assert Owns(s, u, id) && Owns(s, v, id);
      }
    }
  }

  lemma ClaimRows(s: State, w: WorkerId, now: int)
    requires WorkersInv(s) && RowsInv(s) && Enabled(s, Claim(w, now))
    ensures RowsInv(ClaimStep(s, w, now))
  {
    ClaimGrown(s, w, now);
    forall id | id in s.rows ensures RowInv(ClaimStep(s, w, now), id) {
      assert RowInv(s, id);
    }
  }

  lemma ClaimClaims(s: State, w: WorkerId, now: int)
    requires WorkersInv(s) && ClaimsInv(s) && Enabled(s, Claim(w, now))
    ensures ClaimsInv(ClaimStep(s, w, now))
  {
    var s' := ClaimStep(s, w, now);
    var x := s.workers[w].queue[0];
    ClaimGrown(s, w, now);
    if !Claimable(s.rows, x.id, x.delivery.attempts) {
      ClaimsKept(s, s');
      return;
    }
    forall i | 0 <= i < |s'.claims| ensures ClaimInv(s', s'.claims[i]) {
      assert i < |s.claims| ==> ClaimInv(s, s.claims[i]);
    }
    forall i, j | 0 <= i < j < |s'.claims| ensures Spaced(s', s'.claims[i], s'.claims[j]) {
      assert ClaimInv(s, s.claims[i]);
      assert j < |s.claims| ==> Spaced(s, s.claims[i], s.claims[j]);
    }
  }

  lemma ClaimKeeps(s: State, w: WorkerId, now: int)
    requires Inv(s) && Enabled(s, Claim(w, now))
    ensures Inv(ClaimStep(s, w, now))
  {
    var s' := ClaimStep(s, w, now);
    ClaimGrown(s, w, now);
    ClaimWorkers(s, w, now);
    ClaimOwners(s, w, now);
    ClaimRows(s, w, now);
    ClaimClaims(s, w, now);
    FirstsKept(s, s');
    SendsKept(s, s');
  }

  // ---- Sending ----

  lemma SendWorkers(s: State, w: WorkerId, ok: bool)
    requires WorkersInv(s) && OwnersInv(s) && Enabled(s, Send(w, ok))
    ensures WorkersInv(SendStep(s, w, ok))
  {
    var s' := SendStep(s, w, ok);
    var x := s.workers[w].snapshot;
    assert Grown(s, s');
    forall v | v in s'.workers ensures WorkerInv(s', s'.workers[v]) {
      assert WorkerInv(s, s.workers[v]);
      if v == w {
        QueueKept(s, s', s.workers[w].queue);
        StillHeld(s, s', x, s.workers[w].claimedAt);
      } else {
        assert Owns(s, v, x.id) && Owns(s, w, x.id) ==> Attempt(s.workers[v].snapshot) != Attempt(x);
        WorkerKept(s, s', s.workers[v]);
      }
    }
  }

  lemma SendSends(s: State, w: WorkerId, ok: bool)
    requires WorkersInv(s) && SendsInv(s) && Enabled(s, Send(w, ok))
    ensures SendsInv(SendStep(s, w, ok))
  {
    var s' := SendStep(s, w, ok);
    assert WorkerInv(s, s.workers[w]);
    forall i | 0 <= i < |s'.sent| ensures SendInv(s', s'.sent[i]) {
      assert i < |s.sent| ==> SendInv(s, s.sent[i]);
    }
    forall i, j | 0 <= i < j < |s'.sent| ensures DifferentSends(s', s'.sent[i], s'.sent[j]) {
      assert j < |s.sent| ==> DifferentSends(s, s.sent[i], s.sent[j]);
    }
  }

  lemma SendKeeps(s: State, w: WorkerId, ok: bool)
    requires Inv(s) && Enabled(s, Send(w, ok))
    ensures Inv(SendStep(s, w, ok))
  {
    var s' := SendStep(s, w, ok);
    assert WorkerInv(s, s.workers[w]) && Grown(s, s');
    SendWorkers(s, w, ok);
    SendSends(s, w, ok);
    SameOwners(s, s');
    FirstsKept(s, s');
    assert forall id :: id in s.rows ==> RowInv(s, id);
    ClaimsKept(s, s');
  }

  // ---- Settling ----

  lemma SettleGrown(s: State, w: WorkerId)
    requires WorkersInv(s) && Enabled(s, Settle(w))
    ensures var s' := SettleStep(s, w); var id := s.workers[w].snapshot.id;
      Grown(s, s') && id in s.rows && s.rows[id].status != Pending && s'.rows.Keys == s.rows.Keys
      && (forall other :: other in s.rows && other != id ==> s'.rows[other] == s.rows[other])
      && s'.rows[id].attempts == s.rows[id].attempts
      && (id !in s.requeued ==> s'.rows[id].lastRetryAt == s.rows[id].lastRetryAt)
  {
    assert WorkerInv(s, s.workers[w]);
  }

  lemma SettleWorkers(s: State, w: WorkerId)
    requires WorkersInv(s) && OwnersInv(s) && RowsInv(s) && Enabled(s, Settle(w))
    ensures WorkersInv(SettleStep(s, w))
  {
    var s' := SettleStep(s, w);
    SettleGrown(s, w);
    forall v | v in s'.workers ensures WorkerInv(s', s'.workers[v]) {
      assert WorkerInv(s, s.workers[v]);
      if v == w {
        QueueKept(s, s', s.workers[w].queue);
      } else {
        var id := s.workers[w].snapshot.id;
        assert Owns(s, w, id);
        assert Owns(s, v, id) ==> id in s.reopened;
        WorkerKept(s, s', s.workers[v]);
      }
    }
  }

  /** Only the last attempt gives a delivery up. */
  lemma SettleRows(s: State, w: WorkerId)
    requires WorkersInv(s) && RowsInv(s) && Enabled(s, Settle(w))
    ensures RowsInv(SettleStep(s, w))
  {
    SettleGrown(s, w);
    assert WorkerInv(s, s.workers[w]);
    forall id | id in s.rows ensures RowInv(SettleStep(s, w), id) {
      assert RowInv(s, id);
    }
  }

  lemma SettleKeeps(s: State, w: WorkerId)
    requires Inv(s) && Enabled(s, Settle(w))
    ensures Inv(SettleStep(s, w))
  {
    var s' := SettleStep(s, w);
    SettleGrown(s, w);
    SettleWorkers(s, w);
    SettleRows(s, w);
    SameOwners(s, s');
    FirstsKept(s, s');
    SendsKept(s, s');
    ClaimsKept(s, s');
  }

  // ---- Requeueing ----

  lemma RequeueGrown(s: State, op: OperatorId)
    requires Enabled(s, Requeue(op))
    ensures var s' := RequeueStep(s, op); var id := s.operators[op];
      Grown(s, s') && s'.rows.Keys == s.rows.Keys
      && (forall other :: other in s.rows && (other != id || !StillRequeueable(s.rows, id)) ==>
            s'.rows[other] == s.rows[other])
      && (StillRequeueable(s.rows, id) ==>
            s'.rows[id] == s.rows[id].(status := PendingRetry, lastRetryAt := None) && id in s'.requeued
            && (id in s.skipped ==> id in s'.reopened))
  {
  }

  lemma RequeueWorkers(s: State, op: OperatorId)
    requires WorkersInv(s) && Enabled(s, Requeue(op))
    ensures WorkersInv(RequeueStep(s, op))
  {
    var s' := RequeueStep(s, op);
    RequeueGrown(s, op);
    forall w | w in s'.workers ensures WorkerInv(s', s'.workers[w]) {
      assert WorkerInv(s, s.workers[w]);
      WorkerKept(s, s', s.workers[w]);
    }
  }

  lemma RequeueKeeps(s: State, op: OperatorId)
    requires Inv(s) && Enabled(s, Requeue(op))
    ensures Inv(RequeueStep(s, op))
  {
    var s' := RequeueStep(s, op);
    RequeueGrown(s, op);
    RequeueWorkers(s, op);
    SameOwners(s, s');
    FirstsKept(s, s');
    assert forall id :: id in s.rows ==> RowInv(s, id);
    SendsKept(s, s');
    ClaimsKept(s, s');
  }

  // ---- The first attempt ----

  predicate OfFirst(a: Action) {
    a.Insert? || a.Enqueue? || a.DnsFails? || a.CountFirst? || a.CountFirstFails? || a.SendFirst? || a.SettleFirst?
    || a.StopFirst?
  }

  predicate Creates(a: Action) { a.Insert? || a.Enqueue? }

  /** It writes no row but its own. */
  lemma FirstFrame(s: State, a: Action)
    requires Enabled(s, a) && OfFirst(a)
    ensures var s' := Apply(s, a);
      s'.workers == s.workers && s'.claims == s.claims && s'.clock == s.clock && s.uncounted <= s'.uncounted
      && s'.requeued == s.requeued && s'.skipped == s.skipped && s'.reopened == s.reopened
      && (forall id :: id in s.rows ==> id in s'.rows && (id != a.id ==> s'.rows[id] == s.rows[id]))
  {
  }

  /** And that one while it is pending. */
  lemma FirstRow(s: State, a: Action)
    requires FirstsInv(s) && Enabled(s, a) && OfFirst(a) && a.id in s.rows
    ensures var d, e := s.rows[a.id], Apply(s, a).rows[a.id];
      (d.status != Pending ==> e == d) && RowGrown(d, e, false)
  {
    if !Creates(a) {
      assert FirstInv(s, a.id);
    }
  }

  lemma FirstGrown(s: State, a: Action)
    requires FirstsInv(s) && Enabled(s, a) && OfFirst(a)
    ensures Grown(s, Apply(s, a))
    ensures forall id :: id in s.rows && s.rows[id].status != Pending ==> Apply(s, a).rows[id] == s.rows[id]
  {
    FirstFrame(s, a);
    if a.id in s.rows {
      FirstRow(s, a);
    }
  }

  lemma FirstWorkers(s: State, a: Action)
    requires WorkersInv(s) && FirstsInv(s) && Enabled(s, a) && OfFirst(a)
    ensures WorkersInv(Apply(s, a))
  {
    var s' := Apply(s, a);
    FirstFrame(s, a);
    FirstGrown(s, a);
    if a.SendFirst? {
      assert FirstInv(s, a.id);
    }
    forall w | w in s'.workers ensures WorkerInv(s', s'.workers[w]) {
      assert WorkerInv(s, s.workers[w]);
      WorkerKept(s, s', s.workers[w]);
    }
  }

  lemma FirstFirsts(s: State, a: Action)
    requires FirstsInv(s) && RowsInv(s) && SendsInv(s) && Enabled(s, a) && OfFirst(a)
    ensures FirstsInv(Apply(s, a))
  {
    var s' := Apply(s, a);
    if Creates(a) {
      assert forall id :: id in s.firsts ==> FirstInv(s, id);
      forall i | 0 <= i < |s.sent| ensures s.sent[i].id != a.id {
        assert SendInv(s, s.sent[i]);
      }
    } else {
      assert FirstInv(s, a.id);
    }
    forall id | id in s'.firsts ensures FirstInv(s', id) {
      assert id != a.id ==> FirstInv(s, id);
    }
  }

  lemma FirstRows(s: State, a: Action)
    requires FirstsInv(s) && RowsInv(s) && Enabled(s, a) && OfFirst(a)
    ensures RowsInv(Apply(s, a))
  {
    var s' := Apply(s, a);
    if !Creates(a) {
      assert FirstInv(s, a.id);
    }
    forall id | id in s'.rows ensures RowInv(s', id) {
      assert id in s.rows ==> RowInv(s, id);
    }
  }

  lemma FirstSends(s: State, a: Action)
    requires FirstsInv(s) && SendsInv(s) && Enabled(s, a) && OfFirst(a)
    ensures SendsInv(Apply(s, a))
  {
    var s' := Apply(s, a);
    FirstFrame(s, a);
    FirstGrown(s, a);
    if !a.SendFirst? {
      SendsKept(s, s');
      return;
    }
    assert FirstInv(s, a.id);
    forall i | 0 <= i < |s'.sent| ensures SendInv(s', s'.sent[i]) {
      assert i < |s.sent| ==> SendInv(s, s.sent[i]);
    }
    forall i, j | 0 <= i < j < |s'.sent| ensures DifferentSends(s', s'.sent[i], s'.sent[j]) {
      assert j < |s.sent| ==> DifferentSends(s, s.sent[i], s.sent[j]);
    }
  }

  lemma FirstKeeps(s: State, a: Action)
    requires Inv(s) && Enabled(s, a) && OfFirst(a)
    ensures Inv(Apply(s, a))
  {
    FirstFrame(s, a);
    FirstGrown(s, a);
    FirstWorkers(s, a);
    SameOwners(s, Apply(s, a));
    FirstFirsts(s, a);
    FirstRows(s, a);
    FirstSends(s, a);
    ClaimsKept(s, Apply(s, a));
  }

  lemma StepGrown(s: State, a: Action)
    requires Inv(s) && Enabled(s, a)
    ensures Grown(s, Apply(s, a))
  {
    if OfFirst(a) {
      FirstFrame(s, a);
      FirstGrown(s, a);
    } else if Quiet(a) {
      QuietGrown(s, a);
    } else {
      match a
      case Skip(w) => SkipGrown(s, w);
      case Claim(w, now) => ClaimGrown(s, w, now);
      case Send(_, _) =>
      case Settle(w) => SettleGrown(s, w);
      case Requeue(op) => RequeueGrown(s, op);
    }
  }

  lemma WriteKeeps(s: State, a: Action)
    requires Inv(s) && Enabled(s, a) && !OfFirst(a) && !Quiet(a)
    ensures Inv(Apply(s, a))
  {
    match a
    case Skip(w) => SkipInv(s, w);
    case Claim(w, now) => ClaimKeeps(s, w, now);
    case Send(w, ok) => SendKeeps(s, w, ok);
    case Settle(w) => SettleKeeps(s, w);
    case Requeue(op) => RequeueKeeps(s, op);
  }

  /** Every step keeps the invariant. */
  lemma StepInv(s: State, a: Action)
    requires Inv(s) && Enabled(s, a)
    ensures Inv(Apply(s, a))
  {
    if OfFirst(a) {
      FirstKeeps(s, a);
    } else if Quiet(a) {
      QuietInv(s, a);
    } else {
      WriteKeeps(s, a);
    }
  }

  // ---- Runs ----

  predicate Runs(s: State, actions: seq<Action>)
    decreases |actions|
  {
    actions == [] || (Enabled(s, actions[0]) && Runs(Apply(s, actions[0]), actions[1..]))
  }

  function After(s: State, actions: seq<Action>): State
    requires Runs(s, actions)
    decreases |actions|
  {
    if actions == [] then s else After(Apply(s, actions[0]), actions[1..])
  }

  lemma {:induction false} RunInv(s: State, actions: seq<Action>)
    requires Inv(s) && Runs(s, actions)
    ensures Inv(After(s, actions))
    decreases |actions|
  {
    if actions != [] {
      StepInv(s, actions[0]);
      RunInv(Apply(s, actions[0]), actions[1..]);
    }
  }

  lemma RunsCons(s: State, a: Action, rest: seq<Action>, end: State)
    requires Enabled(s, a) && Runs(Apply(s, a), rest) && After(Apply(s, a), rest) == end
    ensures Runs(s, [a] + rest) && After(s, [a] + rest) == end
  {
    assert ([a] + rest)[1..] == rest;
  }

  lemma {:induction false} RunsAppend(s: State, a: seq<Action>, b: seq<Action>)
    requires Runs(s, a) && Runs(After(s, a), b)
    ensures Runs(s, a + b) && After(s, a + b) == After(After(s, a), b)
    decreases |a|
  {
    if a == [] {
      assert a + b == b;
    } else {
      assert (a + b)[1..] == a[1..] + b;
      RunsAppend(Apply(s, a[0]), a[1..], b);
    }
  }

  /** One step more. */
  lemma RunsSnoc(s: State, run: seq<Action>, a: Action)
    requires Runs(s, run) && Enabled(After(s, run), a)
    ensures Runs(s, run + [a]) && After(s, run + [a]) == Apply(After(s, run), a)
  {
    var t := After(s, run);
    assert [a][1..] == [] && Runs(Apply(t, a), []);
    RunsAppend(s, run, [a]);
  }

  lemma {:induction false} LongerThanAll(names: set<string>) returns (n: nat)
    ensures forall x :: x in names ==> |x| < n
    decreases |names|
  {
    n := 0;
    if x :| x in names {
      var m := LongerThanAll(names - {x});
      n := m + |x| + 1;
    }
  }

  lemma FreshName(names: set<string>) returns (x: string)
    ensures x !in names
  {
    var n := LongerThanAll(names);
    x := seq(n, _ => 'w');
  }

  /** Two owners of a delivery hold different attempt numbers, and there are two
      only after an operator requeued what a worker had skipped. Until then an
      owner's row is in `retrying`, or was skipped. */
  lemma OneOwner(clock: int, actions: seq<Action>, v: WorkerId, w: WorkerId, id: Id)
    requires Runs(Initial(clock), actions)
    requires var s := After(Initial(clock), actions); Owns(s, v, id) && Owns(s, w, id)
    ensures var s := After(Initial(clock), actions);
      v == w || (id in s.reopened && Attempt(s.workers[v].snapshot) != Attempt(s.workers[w].snapshot))
    ensures var s := After(Initial(clock), actions);
      id !in s.reopened ==>
        id in s.rows && (s.rows[id].status == Retrying || (s.rows[id].status == Failed && id in s.skipped))
  {
    InitialInv(clock);
    RunInv(Initial(clock), actions);
    var s := After(Initial(clock), actions);
    assert WorkerInv(s, s.workers[v]);
  }

  // ---- Counting sends ----

  function SentOf(sent: seq<Sent>, id: Id): nat {
    if sent == [] then 0 else (if sent[0].id == id then 1 else 0) + SentOf(sent[1..], id)
  }

  /** The numbers under which a delivery was sent, a first attempt that was not
      counted standing for number zero. */
  function Numbers(sent: seq<Sent>, id: Id, uncounted: bool): set<int> {
    if sent == [] then {}
    else (if sent[0].id == id then {Number(sent[0], uncounted)} else {}) + Numbers(sent[1..], id, uncounted)
  }

  function Number(x: Sent, uncounted: bool): int {
    if uncounted && !x.byWorker then 0 else x.attempt
  }

  lemma {:induction false} NumbersMember(sent: seq<Sent>, id: Id, uncounted: bool, n: int)
    ensures n in Numbers(sent, id, uncounted) <==>
      exists i :: 0 <= i < |sent| && sent[i].id == id && Number(sent[i], uncounted) == n
  {
    if sent != [] {
      NumbersMember(sent[1..], id, uncounted, n);
      assert forall i :: 1 <= i < |sent| ==> sent[i] == sent[1..][i - 1];
    }
  }

  lemma {:induction false} NumbersCount(sent: seq<Sent>, id: Id, uncounted: bool)
    requires forall i, j :: 0 <= i < j < |sent| && sent[i].id == id == sent[j].id ==>
      Number(sent[i], uncounted) != Number(sent[j], uncounted)
    ensures |Numbers(sent, id, uncounted)| == SentOf(sent, id)
  {
    if sent != [] {
      NumbersCount(sent[1..], id, uncounted);
      if sent[0].id == id {
        NumbersMember(sent[1..], id, uncounted, Number(sent[0], uncounted));
        assert forall i :: 1 <= i < |sent| ==> sent[i] == sent[1..][i - 1];
      }
    }
  }

  lemma {:induction false} BoundedSet(xs: set<int>, lo: int, hi: int)
    requires forall x :: x in xs ==> lo <= x <= hi
    requires lo <= hi + 1
    ensures |xs| <= hi - lo + 1
    decreases hi - lo + 1
  {
    if lo <= hi {
      BoundedSet(xs - {hi}, lo, hi - 1);
      assert xs <= (xs - {hi}) + {hi};
    } else {
      assert forall x :: x !in xs;
      assert xs == {};
    }
  }

  /** A delivery is sent at most `max_retries` times; once more only if counting
      its first attempt failed. */
  lemma SendsBounded(clock: int, actions: seq<Action>, id: Id)
    requires Runs(Initial(clock), actions) && id in After(Initial(clock), actions).rows
    ensures var s := After(Initial(clock), actions);
      SentOf(s.sent, id) <= s.rows[id].maxRetries + (if id in s.uncounted then 1 else 0)
  {
    InitialInv(clock);
    RunInv(Initial(clock), actions);
    var s := After(Initial(clock), actions);
    var uncounted := id in s.uncounted;
    forall i, j | 0 <= i < j < |s.sent| && s.sent[i].id == id == s.sent[j].id
      ensures Number(s.sent[i], uncounted) != Number(s.sent[j], uncounted)
    {
      assert DifferentSends(s, s.sent[i], s.sent[j]) && SendInv(s, s.sent[i]) && SendInv(s, s.sent[j]);
    }
    NumbersCount(s.sent, id, uncounted);
    forall n | n in Numbers(s.sent, id, uncounted) ensures (if uncounted then 0 else 1) <= n <= s.rows[id].attempts {
      NumbersMember(s.sent, id, uncounted, n);
      var i :| 0 <= i < |s.sent| && s.sent[i].id == id && Number(s.sent[i], uncounted) == n;
      assert SendInv(s, s.sent[i]);
    }
    BoundedSet(Numbers(s.sent, id, uncounted), if uncounted then 0 else 1, s.rows[id].attempts);
  }

  /** Each attempt number is sent by at most one worker. */
  lemma NumberSentOnce(clock: int, actions: seq<Action>, i: nat, j: nat)
    requires Runs(Initial(clock), actions)
    requires i < j < |After(Initial(clock), actions).sent|
    ensures var s := After(Initial(clock), actions);
      s.sent[i].id == s.sent[j].id && s.sent[i].attempt == s.sent[j].attempt ==>
        s.sent[i].id in s.uncounted && !s.sent[i].byWorker && s.sent[j].byWorker
  {
    InitialInv(clock);
    RunInv(Initial(clock), actions);
    assert DifferentSends(After(Initial(clock), actions), After(Initial(clock), actions).sent[i],
                          After(Initial(clock), actions).sent[j]);
  }

  /** A worker claims a delivery no sooner than the retry delay after the
      previous claim of it, however stale its snapshot, unless an operator
      requeued it. */
  lemma ClaimsSpaced(clock: int, actions: seq<Action>, i: nat, j: nat)
    requires Runs(Initial(clock), actions) && i < j < |After(Initial(clock), actions).claims|
    ensures var claims := After(Initial(clock), actions).claims;
      claims[i].id == claims[j].id && claims[i].id !in After(Initial(clock), actions).requeued ==>
        claims[j].at - claims[i].at >= RETRY_DELAY_MS
  {
    InitialInv(clock);
    RunInv(Initial(clock), actions);
    var s := After(Initial(clock), actions);
    assert Spaced(s, s.claims[i], s.claims[j]);
  }
}
