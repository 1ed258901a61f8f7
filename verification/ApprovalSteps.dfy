/** The steps of reviewers and executors said in the row of the approval, and the
    run in which what was asked for happens. */
module ApprovalSteps {
  import opened Text
  import opened Approvals

  function With(s: State, pid: Pid, p: Process): State { s.(processes := s.processes[pid := p]) }

  lemma AskExactly(s: State, id: Id, actor: string, action: string, details: Details)
    ensures Enabled(s, Ask(id, actor, action, details)) <==> id !in s.rows
    ensures id !in s.rows ==>
      var row := Approval(actor, action, details, Pending, None);
      Apply(s, Ask(id, actor, action, details)) == s.(rows := s.rows[id := row], asked := s.asked[id := row])
  {
  }

  /** A review goes on to its decision exactly when the request is pending, is not
      the reviewer's own, and the reviewer is authorised. */
  lemma ReviewExactly(s: State, pid: Pid, id: Id, agent: Option<string>, name: string, approves: bool,
                      authorized: bool)
    requires pid in s.processes && s.processes[pid] == Reviewing(id, agent, name, approves)
    ensures Enabled(s, ReadForReview(pid, authorized))
    ensures var mayDecide := authorized && id in s.rows && s.rows[id].status == Pending
        && s.rows[id].actor != name && (agent.Some? ==> s.rows[id].actor != agent.value);
      Apply(s, ReadForReview(pid, authorized))
      == With(s, pid, if mayDecide then Deciding(id, name, approves, s.rows[id]) else Finished(false))
  {
  }

  /** A decision is written while the request is pending; the approval of a key
      rotation, for an agent of the same owner, goes on to carry it out. */
  lemma DecideExactly(s: State, pid: Pid, id: Id, name: string, approves: bool, seen: Approval, sameOwner: bool)
    requires pid in s.processes && s.processes[pid] == Deciding(id, name, approves, seen)
    ensures Enabled(s, Action.Decide(pid, sameOwner))
    ensures var t := Apply(s, Action.Decide(pid, sameOwner));
      var rotates := approves && seen.action == "key.rotate" && "agent_id" in seen.details && sameOwner;
      t == if id !in s.rows || s.rows[id].status != Pending then With(s, pid, Finished(false))
           else With(s, pid, if rotates then Consuming(id, name, FollowsUp(seen.details["agent_id"]))
                             else Finished(true))
             .(rows := s.rows[id := s.rows[id].(status := if approves then Approved else Denied,
                                                reviewedBy := Some(name))],
               events := s.events + [Event.Decision(id, approves, name)])
  {
  }

  /** A consumption goes on exactly when it reads the request as approved. */
  lemma ReadExactly(s: State, pid: Pid, id: Id, name: string, purpose: Purpose)
    requires pid in s.processes && s.processes[pid] == Consuming(id, name, purpose)
    ensures Enabled(s, ReadForConsume(pid))
    ensures Apply(s, ReadForConsume(pid))
         == With(s, pid, if id in s.rows && s.rows[id].status == Approved
                         then Taking(id, name, purpose, s.rows[id].details) else Finished(false))
  {
  }

  function Executed(details: Details, now: string, name: string): Details {
    details + map["executed" := "true", "executed_at" := now, "executed_by" := name]
  }

  /** And takes it while it still is: the details that were read gain who ran it
      and when. Only what was taken for a rotation rotates. */
  lemma TakeExactly(s: State, pid: Pid, id: Id, name: string, purpose: Purpose, details: Details, now: string,
                    owned: bool)
    requires pid in s.processes && s.processes[pid] == Taking(id, name, purpose, details)
    ensures Enabled(s, Take(pid, now, owned))
    ensures var t := Apply(s, Take(pid, now, owned)); var done := Executed(details, now, name);
      t == if id !in s.rows || s.rows[id].status != Approved then With(s, pid, Finished(false))
           else With(s, pid, if purpose.Consumes? then Finished(true)
                             else if purpose.FollowsUp? then Rotating(id, name, purpose.agent, false)
                             else if s.rows[id].action == "key.rotate" && owned then
                               Rotating(id, name, purpose.agent, true)
                             else Finished(false))
             .(rows := s.rows[id := s.rows[id].(status := Consumed, details := done)],
               events := s.events + [Consumption(id, pid, name, done)])
  {
    assert WithExecution(details, now, name) == Executed(details, now, name);
  }

  lemma RotateExactly(s: State, pid: Pid, id: Id, name: string, agent: string, chosen: bool)
    requires pid in s.processes && s.processes[pid] == Rotating(id, name, agent, chosen)
    ensures Enabled(s, Action.Rotate(pid))
    ensures Apply(s, Action.Rotate(pid))
         == With(s, pid, Finished(true)).(events := s.events + [Rotation(id, agent, chosen)])
  {
  }

  lemma BeginExactly(s: State, pid: Pid, id: Id, agent: Option<string>, name: string, approves: bool,
                     rotating: Option<string>)
    requires pid !in s.processes
    ensures Enabled(s, BeginReview(pid, id, agent, name, approves)) && Enabled(s, BeginConsume(pid, id, name, rotating))
    ensures Apply(s, BeginReview(pid, id, agent, name, approves)) == With(s, pid, Reviewing(id, agent, name, approves))
    ensures Apply(s, BeginConsume(pid, id, name, rotating))
         == With(s, pid, Consuming(id, name, if rotating.Some? then Executes(rotating.value) else Consumes))
  {
  }

  // ---- What is asked for happens ----

  /** Asked for and approved by somebody else. */
  lemma Granted(s: State, id: Id, actor: string, reviewer: string, agent: string, pid: Pid)
    returns (t: State, run: seq<Action>)
    requires id !in s.rows && pid !in s.processes && actor != reviewer
    ensures var asked: Details := map["agent_id" := agent];
      var row := Approval(actor, "key.rotate", asked, Approved, Some(reviewer));
      t.rows == s.rows[id := row] && t.events == s.events + [Event.Decision(id, true, reviewer)]
      && pid in t.processes && t.processes[pid] == Consuming(id, reviewer, FollowsUp(agent))
    ensures Runs(s, run) && After(s, run) == t
  {
    var asked: Details := map["agent_id" := agent];
    var row := Approval(actor, "key.rotate", asked, Pending, None);
    var ask, begin := Ask(id, actor, "key.rotate", asked), BeginReview(pid, id, None, reviewer, true);
    AskExactly(s, id, actor, "key.rotate", asked);
    var s1 := Apply(s, ask);
    BeginExactly(s1, pid, id, None, reviewer, true, None);
    var s2 := Apply(s1, begin);
    ReviewExactly(s2, pid, id, None, reviewer, true, true);
    var s3 := Apply(s2, ReadForReview(pid, true));
    DecideExactly(s3, pid, id, reviewer, true, row, true);
    t := Apply(s3, Action.Decide(pid, true));
    run := Then(s3, Action.Decide(pid, true), []);
    run := Then(s2, ReadForReview(pid, true), run);
    run := Then(s1, begin, run);
    run := Then(s, ask, run);
  }

  /** Taken by the process that approved it, and carried out. */
  lemma CarriedOut(s: State, id: Id, name: string, agent: string, pid: Pid, now: string) returns (run: seq<Action>)
    requires id in s.rows && s.rows[id].status == Approved
    requires pid in s.processes && s.processes[pid] == Consuming(id, name, FollowsUp(agent))
    ensures Runs(s, run)
    ensures var t := After(s, run); var done := Executed(s.rows[id].details, now, name);
      t.rows == s.rows[id := s.rows[id].(status := Consumed, details := done)]
      && t.events == s.events + [Consumption(id, pid, name, done)] + [Rotation(id, agent, false)]
  {
    var details := s.rows[id].details;
    ReadExactly(s, pid, id, name, FollowsUp(agent));
    var s1 := Apply(s, ReadForConsume(pid));
    TakeExactly(s1, pid, id, name, FollowsUp(agent), details, now, true);
    var s2 := Apply(s1, Take(pid, now, true));
    RotateExactly(s2, pid, id, name, agent, false);
    run := Then(s2, Action.Rotate(pid), []);
    run := Then(s1, Take(pid, now, true), run);
    run := Then(s, ReadForConsume(pid), run);
  }

  /** A key rotation that is asked for, approved by somebody else for an agent of
      the same owner, and left alone, is consumed once and carried out. */
  lemma RotationHappens(s: State, id: Id, actor: string, reviewer: string, agent: string, pid: Pid, now: string)
    returns (run: seq<Action>)
    requires id !in s.rows && pid !in s.processes && actor != reviewer
    ensures var done := Executed(map["agent_id" := agent], now, reviewer);
      Runs(s, run)
      && After(s, run).rows == s.rows[id := Approval(actor, "key.rotate", done, Consumed, Some(reviewer))]
      && After(s, run).events == s.events + [Event.Decision(id, true, reviewer)]
         + [Consumption(id, pid, reviewer, done)] + [Rotation(id, agent, false)]
  {
    var t, first := Granted(s, id, actor, reviewer, agent, pid);
    var rest := CarriedOut(t, id, reviewer, agent, pid, now);
    RunsAppend(s, first, rest);
    run := first + rest;
    var done := Executed(map["agent_id" := agent], now, reviewer);
    OneWrite(s.rows, id, t.rows[id], Approval(actor, "key.rotate", done, Consumed, Some(reviewer)));
  }

  lemma OneWrite(t: Table, id: Id, a: Approval, b: Approval)
    ensures t[id := a][id := b] == t[id := b]
  {
  }

  lemma Then(s: State, a: Action, rest: seq<Action>) returns (run: seq<Action>)
    requires Enabled(s, a) && Runs(Apply(s, a), rest)
    ensures Runs(s, run) && After(s, run) == After(Apply(s, a), rest)
  {
    run := [a] + rest;
    assert run[1..] == rest;
  }

  lemma {:induction false} RunsAppend(s: State, run: seq<Action>, more: seq<Action>)
    requires Runs(s, run) && Runs(After(s, run), more)
    ensures Runs(s, run + more) && After(s, run + more) == After(After(s, run), more)
    decreases |run|
  {
    if run == [] {
      assert run + more == more;
    } else {
      assert (run + more)[1..] == run[1..] + more;
      RunsAppend(Apply(s, run[0]), run[1..], more);
    }
  }
}
