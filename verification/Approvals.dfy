/** Approvals: reviewers decide them, executors consume them, and an approved key
    rotation runs once. Every read and every conditional update is one step, and
    the steps of all of them interleave freely. */
module Approvals {
  import opened Text

  type Id = string
  type Details = map<string, string>

  datatype Status = Pending | Approved | Denied | Consumed

  datatype Approval = Approval(
    actor: string, action: string, details: Details, status: Status, reviewedBy: Option<string>)

  type Table = map<Id, Approval>

  const EXECUTION_KEYS: set<string> := {"executed", "executed_at", "executed_by"}

  // ---- The statements ----

  function Decided(t: Table, id: Id, verdict: Status, reviewer: string): Table {
    if id in t && t[id].status == Pending
    then t[id := t[id].(status := verdict, reviewedBy := Some(reviewer))] else t
  }

  function WithExecution(details: Details, now: string, executor: string): Details {
    details["executed" := "true"]["executed_at" := now]["executed_by" := executor]
  }

  function Taken(t: Table, id: Id, seen: Details, now: string, executor: string): Table {
    if id in t && t[id].status == Approved
    then t[id := t[id].(status := Consumed, details := WithExecution(seen, now, executor))] else t
  }

  /** The approvals table: a decision and a consumption are each one
      compare-and-set, which says whether it won. */
  class ApprovalTable {
    var rows: Table

    constructor ()
      ensures rows == map[]
    {
      rows := map[];
    }

    method Decide(id: Id, verdict: Status, reviewer: string) returns (won: bool)
      modifies this
      ensures won <==> id in old(rows) && old(rows)[id].status == Pending
      ensures rows == Decided(old(rows), id, verdict, reviewer)
    {
      won := id in rows && rows[id].status == Pending;
      if won {
        rows := rows[id := rows[id].(status := verdict, reviewedBy := Some(reviewer))];
      }
    }

    /** `consumeApproval` when nothing comes between its two statements: an
        approved request is consumed, and what was asked for is kept. */
    method Consume(id: Id, now: string, executor: string) returns (row: Option<Approval>)
      modifies this
      ensures row.Some? <==> id in old(rows) && old(rows)[id].status == Approved
      ensures row.None? ==> rows == old(rows)
      ensures row.Some? ==>
        rows == old(rows)[id := row.value] && row.value.status == Consumed
        && row.value.actor == old(rows)[id].actor && row.value.reviewedBy == old(rows)[id].reviewedBy
        && forall k :: k !in EXECUTION_KEYS ==>
             (k in row.value.details <==> k in old(rows)[id].details)
             && (k in row.value.details ==> row.value.details[k] == old(rows)[id].details[k])
    {
      if id !in rows || rows[id].status != Approved { return None; }
      var seen := rows[id].details;
      rows := rows[id := rows[id].(status := Consumed, details := WithExecution(seen, now, executor))];
      row := Some(rows[id]);
    }
  }

  // ---- Service keys ----

  datatype Key = Key(agent: string, active: bool, expiresAt: Option<int>)

  const HOUR_MS := 3600000

  class KeyStore {
    var keys: map<string, Key>

    constructor ()
      ensures keys == map[]
    {
      keys := map[];
    }

    /** The rotation's writes: every active key of the agent, as first listed,
        expires in an hour, a new one is added, and no other key changes. */
    method Rotate(agent: string, current: seq<string>, added: string, now: int)
      requires forall k :: k in current <==> k in keys && keys[k].agent == agent && keys[k].active
      requires added !in keys
      modifies this
      ensures keys.Keys == old(keys).Keys + {added}
      ensures keys[added] == Key(agent, true, None)
      ensures forall k :: k in old(keys) ==>
        keys[k] == if old(keys)[k].agent == agent && old(keys)[k].active
                   then old(keys)[k].(expiresAt := Some(now + HOUR_MS)) else old(keys)[k]
    {
      for i := 0 to |current|
        invariant keys.Keys == old(keys).Keys
        invariant forall k :: k in old(keys) ==>
          keys[k] == if k in current[..i] then old(keys)[k].(expiresAt := Some(now + HOUR_MS)) else old(keys)[k]
      {
        keys := keys[current[i] := keys[current[i]].(expiresAt := Some(now + HOUR_MS))];
      }
      assert current[..|current|] == current;
      keys := keys[added := Key(agent, true, None)];
    }
  }

  // ---- Reviewers and executors ----

  type Pid = string

  /** What a consumption is for: nothing more, the rotation that follows an
      approval, or the one an operator runs for an agent of their choice. */
  datatype Purpose = Consumes | FollowsUp(agent: string) | Executes(agent: string)

  datatype Process =
    | Reviewing(id: Id, agent: Option<string>, name: string, approves: bool)
    | Deciding(id: Id, name: string, approves: bool, seen: Approval)
    | Consuming(id: Id, name: string, purpose: Purpose)
    | Taking(id: Id, name: string, purpose: Purpose, details: Details)
    | Rotating(id: Id, name: string, target: string, chosen: bool)
    | Finished(ok: bool)

  datatype Event =
    | Decision(id: Id, approves: bool, who: string)
    | Consumption(id: Id, pid: Pid, who: string, details: Details)
    | Rotation(id: Id, agent: string, chosen: bool)

  datatype State = State(rows: Table, asked: Table, processes: map<Pid, Process>, events: seq<Event>)

  datatype Action =
    | Ask(id: Id, actor: string, action: string, details: Details)
    | BeginReview(pid: Pid, id: Id, agent: Option<string>, name: string, approves: bool)
    | ReadForReview(pid: Pid, authorized: bool)
    | Decide(pid: Pid, sameOwner: bool)
    | BeginConsume(pid: Pid, id: Id, name: string, rotating: Option<string>)
    | ReadForConsume(pid: Pid)
    | Take(pid: Pid, now: string, owned: bool)
    | Rotate(pid: Pid)

  predicate Enabled(s: State, a: Action) {
    match a
    case Ask(id, _, _, _) => id !in s.rows
    case BeginReview(pid, _, _, _, _) => pid !in s.processes
    case ReadForReview(pid, _) => pid in s.processes && s.processes[pid].Reviewing?
    case Decide(pid, _) => pid in s.processes && s.processes[pid].Deciding?
    case BeginConsume(pid, _, _, _) => pid !in s.processes
    case ReadForConsume(pid) => pid in s.processes && s.processes[pid].Consuming?
    case Take(pid, _, _) => pid in s.processes && s.processes[pid].Taking?
    case Rotate(pid) => pid in s.processes && s.processes[pid].Rotating?
  }

  function Move(s: State, pid: Pid, p: Process): State { s.(processes := s.processes[pid := p]) }

  /** The checks of `approveRequest` and `denyRequest` and of their dashboard
      twins, which have no agent to compare. */
  predicate MayReview(p: Process, row: Approval, authorized: bool)
    requires p.Reviewing?
  {
    row.status == Pending && row.actor != p.name && Some(row.actor) != p.agent && authorized
  }

  function ReviewStep(s: State, pid: Pid, authorized: bool): State
    requires pid in s.processes && s.processes[pid].Reviewing?
  {
    var p := s.processes[pid];
    if p.id in s.rows && MayReview(p, s.rows[p.id], authorized)
    then Move(s, pid, Deciding(p.id, p.name, p.approves, s.rows[p.id]))
    else Move(s, pid, Finished(false))
  }

  function DecideStep(s: State, pid: Pid, sameOwner: bool): State
    requires pid in s.processes && s.processes[pid].Deciding?
  {
    var p := s.processes[pid];
    if p.id !in s.rows || s.rows[p.id].status != Pending then Move(s, pid, Finished(false))
    else
      var rotates := p.approves && p.seen.action == "key.rotate" && "agent_id" in p.seen.details && sameOwner;
      Move(s, pid, if rotates then Consuming(p.id, p.name, FollowsUp(p.seen.details["agent_id"])) else Finished(true))
        .(rows := Decided(s.rows, p.id, if p.approves then Approved else Denied, p.name),
          events := s.events + [Decision(p.id, p.approves, p.name)])
  }

  function ReadStep(s: State, pid: Pid): State
    requires pid in s.processes && s.processes[pid].Consuming?
  {
    var p := s.processes[pid];
    if p.id in s.rows && s.rows[p.id].status == Approved
    then Move(s, pid, Taking(p.id, p.name, p.purpose, s.rows[p.id].details))
    else Move(s, pid, Finished(false))
  }

  /** After consuming: an operator's run checks the action and who owns the agent
      only now, and does not compare the agent with the one asked for. */
  function AfterTaking(p: Process, action: string, owned: bool): Process
    requires p.Taking?
  {
    match p.purpose
    case Consumes => Finished(true)
    case FollowsUp(agent) => Rotating(p.id, p.name, agent, false)
    case Executes(agent) =>
      if action == "key.rotate" && owned then Rotating(p.id, p.name, agent, true) else Finished(false)
  }

  function TakeStep(s: State, pid: Pid, now: string, owned: bool): State
    requires pid in s.processes && s.processes[pid].Taking?
  {
    var p := s.processes[pid];
    if p.id !in s.rows || s.rows[p.id].status != Approved then Move(s, pid, Finished(false))
    else
      Move(s, pid, AfterTaking(p, s.rows[p.id].action, owned))
        .(rows := Taken(s.rows, p.id, p.details, now, p.name),
          events := s.events + [Consumption(p.id, pid, p.name, WithExecution(p.details, now, p.name))])
  }

  function Apply(s: State, a: Action): State
    requires Enabled(s, a)
  {
    match a
    case Ask(id, actor, action, details) =>
      var row := Approval(actor, action, details, Pending, None);
      s.(rows := s.rows[id := row], asked := s.asked[id := row])
    case BeginReview(pid, id, agent, name, approves) => Move(s, pid, Reviewing(id, agent, name, approves))
    case ReadForReview(pid, authorized) => ReviewStep(s, pid, authorized)
    case Decide(pid, sameOwner) => DecideStep(s, pid, sameOwner)
    case BeginConsume(pid, id, name, rotating) =>
      Move(s, pid, Consuming(id, name, if rotating.Some? then Executes(rotating.value) else Consumes))
    case ReadForConsume(pid) => ReadStep(s, pid)
    case Take(pid, now, owned) => TakeStep(s, pid, now, owned)
    case Rotate(pid) =>
      var p := s.processes[pid];
      Move(s, pid, Finished(true)).(events := s.events + [Rotation(p.id, p.target, p.chosen)])
  }

  predicate Runs(s: State, run: seq<Action>)
    decreases |run|
  {
    run == [] || (Enabled(s, run[0]) && Runs(Apply(s, run[0]), run[1..]))
  }

  function After(s: State, run: seq<Action>): State
    requires Runs(s, run)
    decreases |run|
  {
    if run == [] then s else After(Apply(s, run[0]), run[1..])
  }

  function Initial(): State { State(map[], map[], map[], []) }

  // ---- The history of one approval ----

  /** What happened to one approval, in order. */
  function History(events: seq<Event>, id: Id): seq<Event> {
    if events == [] then []
    else History(events[..|events| - 1], id) + (if events[|events| - 1].id == id then [events[|events| - 1]] else [])
  }

  /** Details that say the request ran and are otherwise those asked for. */
  ghost predicate Extends(details: Details, asked: Details) {
    EXECUTION_KEYS <= details.Keys
    && forall k :: k !in EXECUTION_KEYS ==>
         (k in details <==> k in asked) && (k in asked ==> details[k] == asked[k])
  }

  predicate IsDecision(e: Event, row: Approval, approves: bool) {
    e.Decision? && e.approves == approves && row.reviewedBy == Some(e.who) && e.who != row.actor
  }

  /** The agent a request asks to rotate the keys of. */
  function AskedAgent(asked: Approval): Option<string> {
    if "agent_id" in asked.details then Some(asked.details["agent_id"]) else None
  }

  predicate IsRotation(e: Event, asked: Approval) {
    e.Rotation? && asked.action == "key.rotate" && (!e.chosen ==> AskedAgent(asked) == Some(e.agent))
  }

  /** The only histories there are. */
  ghost predicate Orderly(row: Approval, asked: Approval, h: seq<Event>) {
    row.actor == asked.actor && row.action == asked.action
    && match row.status
       case Pending => h == [] && row.details == asked.details
       case Denied => |h| == 1 && IsDecision(h[0], row, false) && row.details == asked.details
       case Approved => |h| == 1 && IsDecision(h[0], row, true) && row.details == asked.details
       case Consumed =>
         2 <= |h| <= 3 && IsDecision(h[0], row, true)
         && h[1].Consumption? && h[1].details == row.details && Extends(row.details, asked.details)
         && (|h| == 3 ==> IsRotation(h[2], asked))
  }

  predicate Meant(purpose: Purpose, asked: Approval) {
    purpose.FollowsUp? ==> asked.action == "key.rotate" && AskedAgent(asked) == Some(purpose.agent)
  }

  /** What a process may rely on of what it read. */
  predicate Backed(s: State, pid: Pid, p: Process) {
    match p
    case Reviewing(_, _, _, _) => true
    case Deciding(id, name, _, seen) =>
      id in s.asked && seen.actor == s.asked[id].actor && seen.action == s.asked[id].action
      && seen.details == s.asked[id].details && name != seen.actor
    case Consuming(id, _, purpose) => purpose.FollowsUp? ==> id in s.asked && Meant(purpose, s.asked[id])
    case Taking(id, _, purpose, details) =>
      id in s.asked && details == s.asked[id].details && Meant(purpose, s.asked[id])
    case Rotating(id, _, agent, chosen) =>
      id in s.rows && id in s.asked && IsRotation(Rotation(id, agent, chosen), s.asked[id])
      && s.rows[id].status == Consumed
      && var h := History(s.events, id); |h| == 2 && h[1].Consumption? && h[1].pid == pid
    case Finished(_) => true
  }

  ghost predicate RowsInv(s: State) {
    s.rows.Keys == s.asked.Keys && forall id :: id in s.rows ==> Orderly(s.rows[id], s.asked[id], History(s.events, id))
  }

  ghost predicate ProcessesInv(s: State) {
    forall pid :: pid in s.processes ==> Backed(s, pid, s.processes[pid])
  }

  ghost predicate EventsInv(s: State) {
    forall i :: 0 <= i < |s.events| ==> s.events[i].id in s.rows
  }

  ghost predicate Inv(s: State) { RowsInv(s) && ProcessesInv(s) && EventsInv(s) }

  lemma ReadKeeps(s: State, pid: Pid)
    requires Inv(s) && pid in s.processes && s.processes[pid].Consuming?
    ensures Inv(ReadStep(s, pid))
  {
    var t, p := ReadStep(s, pid), s.processes[pid];
    assert Backed(s, pid, p);
    if p.id in s.rows {
      assert Orderly(s.rows[p.id], s.asked[p.id], History(s.events, p.id));
    }
  }

  /** A step that adds an event about `id`, changes its row and moves `pid`. */
  ghost predicate OneEvent(s: State, t: State, id: Id, e: Event, pid: Pid) {
    t.events == s.events + [e] && e.id == id && t.asked == s.asked && t.rows.Keys == s.rows.Keys && id in s.rows
    && (forall k :: k in s.rows && k != id ==> t.rows[k] == s.rows[k])
    && t.processes.Keys == s.processes.Keys
    && (forall q :: q in s.processes && q != pid ==> t.processes[q] == s.processes[q])
  }

  lemma EventRows(s: State, t: State, id: Id, e: Event, pid: Pid)
    requires RowsInv(s) && EventsInv(s) && OneEvent(s, t, id, e, pid)
    requires Orderly(t.rows[id], s.asked[id], History(s.events, id) + [e])
    ensures RowsInv(t) && EventsInv(t)
  {
    forall k | k in t.rows ensures Orderly(t.rows[k], t.asked[k], History(t.events, k)) {
      EventRow(s, t, id, e, pid, k);
    }
  }

  lemma EventRow(s: State, t: State, id: Id, e: Event, pid: Pid, k: Id)
    requires RowsInv(s) && OneEvent(s, t, id, e, pid) && k in t.rows
    requires Orderly(t.rows[id], s.asked[id], History(s.events, id) + [e])
    ensures Orderly(t.rows[k], t.asked[k], History(t.events, k))
  {
    if k != id {
      assert History(t.events, k) == History(s.events, k) && t.rows[k] == s.rows[k];
    }
  }

  lemma DecidedOrderly(row: Approval, asked: Approval, h: seq<Event>, id: Id, approves: bool, who: string)
    requires Orderly(row, asked, h) && row.status == Pending && who != row.actor
    ensures Orderly(row.(status := if approves then Approved else Denied, reviewedBy := Some(who)), asked,
                    h + [Decision(id, approves, who)])
  {
  }

  lemma DecideKeeps(s: State, pid: Pid, sameOwner: bool)
    requires Inv(s) && pid in s.processes && s.processes[pid].Deciding?
    ensures Inv(DecideStep(s, pid, sameOwner))
  {
    var t := DecideStep(s, pid, sameOwner);
    if t.events == s.events {
      MoveKeeps(s, pid, Finished(false));
    } else {
      DecideRows(s, pid, sameOwner);
      DecideProcesses(s, pid, sameOwner);
    }
  }

  /** A process that does not move may still rely on what it read. */
  lemma OtherBacked(s: State, t: State, id: Id, e: Event, pid: Pid, q: Pid)
    requires OneEvent(s, t, id, e, pid) && q in s.processes && Backed(s, q, s.processes[q])
    requires s.rows[id].status != Consumed
    ensures Backed(t, q, s.processes[q])
  {
    var p := s.processes[q];
    if p.Rotating? {
      assert p.id != id && History(t.events, p.id) == History(s.events, p.id) && t.rows[p.id] == s.rows[p.id];
    }
  }

  lemma EventProcesses(s: State, t: State, id: Id, e: Event, pid: Pid)
    requires ProcessesInv(s) && OneEvent(s, t, id, e, pid) && s.rows[id].status != Consumed
    requires pid in t.processes && Backed(t, pid, t.processes[pid])
    ensures ProcessesInv(t)
  {
    forall q | q in t.processes ensures Backed(t, q, t.processes[q]) {
      if q != pid {
        OtherBacked(s, t, id, e, pid, q);
      }
    }
  }

  lemma DecideProcesses(s: State, pid: Pid, sameOwner: bool)
    requires Inv(s) && pid in s.processes && s.processes[pid].Deciding?
    requires DecideStep(s, pid, sameOwner).events != s.events
    ensures ProcessesInv(DecideStep(s, pid, sameOwner))
  {
    var t, p := DecideStep(s, pid, sameOwner), s.processes[pid];
    assert Backed(s, pid, p);
    EventProcesses(s, t, p.id, Decision(p.id, p.approves, p.name), pid);
  }

  lemma DecideRows(s: State, pid: Pid, sameOwner: bool)
    requires Inv(s) && pid in s.processes && s.processes[pid].Deciding?
    requires DecideStep(s, pid, sameOwner).events != s.events
    ensures RowsInv(DecideStep(s, pid, sameOwner)) && EventsInv(DecideStep(s, pid, sameOwner))
  {
    var t, p := DecideStep(s, pid, sameOwner), s.processes[pid];
    var h := History(s.events, p.id);
    assert Backed(s, pid, p);
    assert Orderly(s.rows[p.id], s.asked[p.id], h);
    DecidedOrderly(s.rows[p.id], s.asked[p.id], h, p.id, p.approves, p.name);
    EventRows(s, t, p.id, Decision(p.id, p.approves, p.name), pid);
  }

  lemma TakeKeeps(s: State, pid: Pid, now: string, owned: bool)
    requires Inv(s) && pid in s.processes && s.processes[pid].Taking?
    ensures Inv(TakeStep(s, pid, now, owned))
  {
    var t := TakeStep(s, pid, now, owned);
    if t.events == s.events {
      MoveKeeps(s, pid, Finished(false));
    } else {
      TakeRows(s, pid, now, owned);
      TakeProcesses(s, pid, now, owned);
    }
  }

  lemma TakeRows(s: State, pid: Pid, now: string, owned: bool)
    requires Inv(s) && pid in s.processes && s.processes[pid].Taking? && TakeStep(s, pid, now, owned).events != s.events
    ensures RowsInv(TakeStep(s, pid, now, owned)) && EventsInv(TakeStep(s, pid, now, owned))
  {
    var t, p := TakeStep(s, pid, now, owned), s.processes[pid];
    var e, h := Consumption(p.id, pid, p.name, WithExecution(p.details, now, p.name)), History(s.events, p.id);
    assert Backed(s, pid, p);
    assert Orderly(s.rows[p.id], s.asked[p.id], h);
    EventRows(s, t, p.id, e, pid);
  }

  lemma ConsumedHistory(row: Approval, asked: Approval, h: seq<Event>, e: Event)
    requires Orderly(row, asked, h) && row.status == Approved
    ensures |h + [e]| == 2 && (h + [e])[1] == e
  {
  }

  lemma TookBacked(s: State, pid: Pid, now: string, owned: bool)
    requires RowsInv(s) && ProcessesInv(s) && pid in s.processes && s.processes[pid].Taking?
    requires TakeStep(s, pid, now, owned).events != s.events
    ensures var t := TakeStep(s, pid, now, owned); Backed(t, pid, t.processes[pid])
  {
    var p := s.processes[pid];
    var e, h := Consumption(p.id, pid, p.name, WithExecution(p.details, now, p.name)), History(s.events, p.id);
    assert Backed(s, pid, p);
    assert Orderly(s.rows[p.id], s.asked[p.id], h);
    ConsumedHistory(s.rows[p.id], s.asked[p.id], h, e);
    assert (s.events + [e])[..|s.events|] == s.events;
  }

  lemma TakeProcesses(s: State, pid: Pid, now: string, owned: bool)
    requires Inv(s) && pid in s.processes && s.processes[pid].Taking?
    requires TakeStep(s, pid, now, owned).events != s.events
    ensures ProcessesInv(TakeStep(s, pid, now, owned))
  {
    var t, p := TakeStep(s, pid, now, owned), s.processes[pid];
    TookBacked(s, pid, now, owned);
    EventProcesses(s, t, p.id, Consumption(p.id, pid, p.name, WithExecution(p.details, now, p.name)), pid);
  }

  lemma RotatedRow(s: State, pid: Pid, k: Id)
    requires RowsInv(s) && ProcessesInv(s) && pid in s.processes && s.processes[pid].Rotating? && k in s.rows
    ensures Orderly(s.rows[k], s.asked[k], History(Apply(s, Rotate(pid)).events, k))
  {
    var p := s.processes[pid];
    var e := Rotation(p.id, p.target, p.chosen);
    assert Backed(s, pid, p);
    assert Orderly(s.rows[k], s.asked[k], History(s.events, k));
    assert (s.events + [e])[..|s.events|] == s.events;
  }

  lemma RotatedProcess(s: State, pid: Pid, q: Pid)
    requires ProcessesInv(s) && pid in s.processes && s.processes[pid].Rotating? && q in s.processes && q != pid
    ensures Backed(Apply(s, Rotate(pid)), q, s.processes[q])
  {
    var p := s.processes[pid];
    assert Backed(s, pid, p) && Backed(s, q, s.processes[q]);
    assert (s.events + [Rotation(p.id, p.target, p.chosen)])[..|s.events|] == s.events;
  }

  lemma RotateKeeps(s: State, pid: Pid)
    requires Inv(s) && pid in s.processes && s.processes[pid].Rotating?
    ensures Inv(Apply(s, Rotate(pid)))
  {
    var t := Apply(s, Rotate(pid));
    assert Backed(s, pid, s.processes[pid]);
    forall k | k in t.rows ensures Orderly(t.rows[k], t.asked[k], History(t.events, k)) {
      RotatedRow(s, pid, k);
    }
    forall q | q in t.processes ensures Backed(t, q, t.processes[q]) {
      if q != pid {
        RotatedProcess(s, pid, q);
      }
    }
  }

  lemma {:induction false} NoHistory(events: seq<Event>, id: Id)
    requires forall i :: 0 <= i < |events| ==> events[i].id != id
    ensures History(events, id) == []
  {
    if events != [] {
      NoHistory(events[..|events| - 1], id);
    }
  }

  lemma AskKeeps(s: State, a: Action)
    requires Inv(s) && Enabled(s, a) && a.Ask?
    ensures Inv(Apply(s, a))
  {
    var t := Apply(s, a);
    NoHistory(s.events, a.id);
    forall q | q in s.processes ensures Backed(t, q, s.processes[q]) {
      assert Backed(s, q, s.processes[q]);
    }
  }

  /** Moving a process to where it relies on nothing new. */
  lemma MoveKeeps(s: State, pid: Pid, p: Process)
    requires Inv(s) && Backed(s, pid, p)
    ensures Inv(Move(s, pid, p))
  {
    var t := Move(s, pid, p);
    forall q | q in t.processes ensures Backed(t, q, t.processes[q]) {
      assert q != pid ==> Backed(s, q, s.processes[q]);
    }
  }

  lemma ReviewKeeps(s: State, pid: Pid, authorized: bool)
    requires Inv(s) && pid in s.processes && s.processes[pid].Reviewing?
    ensures Inv(ReviewStep(s, pid, authorized))
  {
    var p := ReviewStep(s, pid, authorized).processes[pid];
    if p.Deciding? {
      assert Orderly(s.rows[p.id], s.asked[p.id], History(s.events, p.id));
    }
    MoveKeeps(s, pid, p);
  }

  lemma StepInv(s: State, a: Action)
    requires Inv(s) && Enabled(s, a)
    ensures Inv(Apply(s, a))
  {
    match a
    case Ask(_, _, _, _) => AskKeeps(s, a);
    case BeginReview(pid, id, agent, name, approves) => MoveKeeps(s, pid, Reviewing(id, agent, name, approves));
    case ReadForReview(pid, authorized) => ReviewKeeps(s, pid, authorized);
    case Decide(pid, sameOwner) => DecideKeeps(s, pid, sameOwner);
    case BeginConsume(pid, _, _, _) => MoveKeeps(s, pid, Apply(s, a).processes[pid]);
    case ReadForConsume(pid) => ReadKeeps(s, pid);
    case Take(pid, now, owned) => TakeKeeps(s, pid, now, owned);
    case Rotate(pid) => RotateKeeps(s, pid);
  }

  lemma {:induction false} RunInv(s: State, run: seq<Action>)
    requires Inv(s) && Runs(s, run)
    ensures Inv(After(s, run))
    decreases |run|
  {
    if run != [] {
      StepInv(s, run[0]);
      RunInv(Apply(s, run[0]), run[1..]);
    }
  }

  // ---- What every run keeps ----

  /** An approval's whole history is empty, a denial, an approval, an approval
      and a consumption, or those and one rotation: at most one decision, one
      consumption and one rotation, each after what permits it; the decision is
      never its requester's, and a rotation that follows up an approval is for the
      agent asked for. */
  lemma OneDecisionOneConsumption(run: seq<Action>, id: Id)
    requires Runs(Initial(), run) && id in After(Initial(), run).rows
    ensures var t := After(Initial(), run); var h := History(t.events, id);
      |h| <= 3
      && (|h| >= 1 ==> h[0].Decision? && h[0].who != t.rows[id].actor && t.rows[id].reviewedBy == Some(h[0].who))
      && (|h| >= 2 ==> h[0].approves && h[1].Consumption? && h[1].details == t.rows[id].details)
      && (|h| >= 3 ==> h[2].Rotation? && t.rows[id].action == "key.rotate")
      && (|h| >= 3 && !h[2].chosen ==> id in t.asked && AskedAgent(t.asked[id]) == Some(h[2].agent))
      && (t.rows[id].status == Denied ==> |h| == 1 && !h[0].approves)
      && (t.rows[id].status == Consumed <==> |h| >= 2)
      && (t.rows[id].status == Pending <==> h == [])
  {
    RunInv(Initial(), run);
    var t := After(Initial(), run);
    assert Orderly(t.rows[id], t.asked[id], History(t.events, id));
  }

  /** What is asked for is never changed: until it is consumed the details are
      those of the request, and then they say besides who ran it and when. */
  lemma DetailsAreThoseAskedFor(run: seq<Action>, id: Id)
    requires Runs(Initial(), run) && id in After(Initial(), run).rows
    ensures var t := After(Initial(), run);
      id in t.asked && t.rows[id].actor == t.asked[id].actor && t.rows[id].action == t.asked[id].action
      && if t.rows[id].status == Consumed then Extends(t.rows[id].details, t.asked[id].details)
         else t.rows[id].details == t.asked[id].details
  {
    RunInv(Initial(), run);
    var t := After(Initial(), run);
    assert Orderly(t.rows[id], t.asked[id], History(t.events, id));
  }

  /** Only one process ever gets to rotate the keys of an approval. */
  lemma OneRotator(run: seq<Action>, p: Pid, q: Pid)
    requires Runs(Initial(), run)
    requires var t := After(Initial(), run);
      p in t.processes && q in t.processes && t.processes[p].Rotating? && t.processes[q].Rotating?
      && t.processes[p].id == t.processes[q].id
    ensures p == q
  {
    RunInv(Initial(), run);
    var t := After(Initial(), run);
    assert Backed(t, p, t.processes[p]) && Backed(t, q, t.processes[q]);
  }

  /** A decided approval is never decided again, a denied or consumed one never
      changes at all. */
  lemma DecidedIsFinal(s: State, a: Action, id: Id)
    requires Inv(s) && Enabled(s, a) && id in s.rows
    ensures var t := Apply(s, a);
      id in t.rows
      && (s.rows[id].status in {Denied, Consumed} ==> t.rows[id] == s.rows[id])
      && (s.rows[id].status != Pending ==> t.rows[id].reviewedBy == s.rows[id].reviewedBy)
      && (s.rows[id].status == Approved ==> t.rows[id] == s.rows[id] || t.rows[id].status == Consumed)
  {
  }

  // ---- Whose keys ----

  lemma RunsCons(s: State, a: Action, rest: seq<Action>)
    requires Enabled(s, a) && Runs(Apply(s, a), rest)
    ensures Runs(s, [a] + rest) && After(s, [a] + rest) == After(Apply(s, a), rest)
  {
    assert ([a] + rest)[1..] == rest;
  }

  /** An operator's run rotates the keys of whichever agent it is given. */
  lemma AnyAgentsKeys(s: State, id: Id, pid: Pid, name: string, agent: string, now: string) returns (run: seq<Action>)
    requires id in s.rows && s.rows[id].status == Approved && s.rows[id].action == "key.rotate" && pid !in s.processes
    ensures Runs(s, run)
    ensures After(s, run).events
         == s.events + [Consumption(id, pid, name, WithExecution(s.rows[id].details, now, name))]
            + [Rotation(id, agent, true)]
  {
    var s1 := Apply(s, BeginConsume(pid, id, name, Some(agent)));
    var s2 := Apply(s1, ReadForConsume(pid));
    var s3 := Apply(s2, Take(pid, now, true));
    var s4 := Apply(s3, Rotate(pid));
    assert Runs(s4, []);
    RunsCons(s3, Rotate(pid), []);
    RunsCons(s2, Take(pid, now, true), [Rotate(pid)] + []);
    RunsCons(s1, ReadForConsume(pid), [Take(pid, now, true)] + ([Rotate(pid)] + []));
    run := [ReadForConsume(pid)] + ([Take(pid, now, true)] + ([Rotate(pid)] + []));
    RunsCons(s, BeginConsume(pid, id, name, Some(agent)), run);
    run := [BeginConsume(pid, id, name, Some(agent))] + run;
  }

  /** A rotation that follows up an approval is for the agent asked for; one an
      operator runs is so only if the operator was given that agent. */
  lemma FollowUpsRotateAsked(run: seq<Action>, pid: Pid)
    requires Runs(Initial(), run)
    requires pid in After(Initial(), run).processes && After(Initial(), run).processes[pid].Rotating?
    ensures var t := After(Initial(), run); var p := t.processes[pid];
      p.id in t.asked && t.asked[p.id].action == "key.rotate"
      && Apply(t, Rotate(pid)).events == t.events + [Rotation(p.id, p.target, p.chosen)]
      && (!p.chosen ==> AskedAgent(t.asked[p.id]) == Some(p.target))
  {
    RunProcesses(run);
    RotatingIsMeant(After(Initial(), run), pid);
  }

  lemma RunProcesses(run: seq<Action>)
    requires Runs(Initial(), run)
    ensures ProcessesInv(After(Initial(), run))
  {
    RunInv(Initial(), run);
  }

  lemma RotatingIsMeant(t: State, pid: Pid)
    requires ProcessesInv(t) && pid in t.processes && t.processes[pid].Rotating?
    ensures var p := t.processes[pid];
      p.id in t.asked && IsRotation(Rotation(p.id, p.target, p.chosen), t.asked[p.id])
      && Apply(t, Rotate(pid)).events == t.events + [Rotation(p.id, p.target, p.chosen)]
  {
    assert Backed(t, pid, t.processes[pid]);
  }
}
