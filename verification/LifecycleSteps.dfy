/** The steps of a contract's life said in the fields of the contract: when it
    becomes active and from where it can, what a message costs and closes, and
    what ends it under which name. */
module LifecycleSteps {
  import opened Text
  import opened Closure
  import opened TurnState
  import opened Lifecycle

  // ---- Becoming active ----

  predicate EveryoneAccepted(ps: seq<Participant>) {
    forall i :: 0 <= i < |ps| ==> ps[i].answer == Accepted
  }

  /** A proposed contract that everyone accepted becomes active, and nothing else
      changes. */
  lemma ActivationGoesAhead(s: State)
    requires s.contract.status == Proposed && EveryoneAccepted(s.participants)
    ensures Enabled(s, Activate) && Apply(s, Activate) == s.(contract := s.contract.(status := Active))
  {
  }

  /** No other step makes a contract active. */
  lemma MadeActiveExactly(s: State, a: Action)
    requires Enabled(s, a) && s.contract.status != Active
    ensures Apply(s, a).contract.status == Active
       <==> a == Activate && s.contract.status == Proposed && EveryoneAccepted(s.participants)
  {
  }

  /** An invitation can be answered exactly by an invitee that has not answered
      it, and the answer is all that changes. */
  lemma AnswerExactly(s: State, i: nat, yes: bool)
    requires Seated(s.participants, s.contract.proposer) && i < |s.participants|
    ensures var p := s.participants[i]; var a := AnswerInvite(p.agent, yes);
      (Enabled(s, a) <==> p.role == Invitee && p.answer == Pending)
      && (Enabled(s, a) ==>
            var q := p.(answer := if yes then Accepted else Answer.Refused);
            Apply(s, a) == s.(participants := s.participants[i := q]))
  {
    FindAt(s.participants, i);
  }

  lemma {:induction false} FindAt(ps: seq<Participant>, i: nat)
    requires Distinct(ps) && i < |ps|
    ensures Find(ps, ps[i].agent) == Some(i)
  {
    if i > 0 {
      FindAt(ps[1..], i - 1);
    }
  }

  /** Everyone accepted, or is an invitee who still may. */
  predicate Winnable(ps: seq<Participant>) {
    forall i :: 0 <= i < |ps| ==> ps[i].answer == Accepted || (ps[i].role == Invitee && ps[i].answer == Pending)
  }

  function Unsettled(ps: seq<Participant>): nat {
    if ps == [] then 0 else (if ps[0].answer == Accepted then 0 else 1) + Unsettled(ps[1..])
  }

  lemma {:induction false} UnsettledNone(ps: seq<Participant>)
    ensures Unsettled(ps) == 0 <==> EveryoneAccepted(ps)
  {
    if ps != [] {
      UnsettledNone(ps[1..]);
      assert forall i :: 0 < i < |ps| ==> ps[i] == ps[1..][i - 1];
      assert forall i :: 0 <= i < |ps[1..]| ==> ps[1..][i] == ps[i + 1];
    }
  }

  lemma {:induction false} UnsettledAccepted(ps: seq<Participant>, i: nat, q: Participant)
    requires i < |ps| && ps[i].answer != Accepted && q.answer == Accepted
    ensures Unsettled(ps[i := q]) == Unsettled(ps) - 1
  {
    if i > 0 {
      UnsettledAccepted(ps[1..], i - 1, q);
      assert ps[i := q][1..] == ps[1..][i - 1 := q];
    } else {
      assert ps[i := q][1..] == ps[1..];
    }
  }

  /** One more acceptance. */
  lemma Accepts(s: State, i: nat) returns (a: Action)
    requires Seated(s.participants, s.contract.proposer) && i < |s.participants| && Winnable(s.participants)
    requires s.participants[i].answer == Pending
    ensures a.AnswerInvite? && Enabled(s, a)
    ensures var t := Apply(s, a);
      t == s.(participants := t.participants) && Unsettled(t.participants) == Unsettled(s.participants) - 1
      && Seated(t.participants, t.contract.proposer) && Winnable(t.participants)
  {
    var p := s.participants[i];
    a := AnswerInvite(p.agent, true);
    AnswerExactly(s, i, true);
    UnsettledAccepted(s.participants, i, p.(answer := Accepted));
  }

  /** The acceptances still missing, and then the activation. */
  lemma {:induction false} WonBy(s: State) returns (run: seq<Action>)
    requires s.contract.status == Proposed && Seated(s.participants, s.contract.proposer) && Winnable(s.participants)
    ensures Runs(s, run) && After(s, run).contract == s.contract.(status := Active)
    ensures forall i :: 0 <= i < |run| ==> run[i].AnswerInvite? || run[i] == Activate
    decreases Unsettled(s.participants)
  {
    UnsettledNone(s.participants);
    if Unsettled(s.participants) == 0 {
      ActivationGoesAhead(s);
      RunsCons(s, Activate, []);
      run := [Activate] + [];
    } else {
      var i :| 0 <= i < |s.participants| && s.participants[i].answer != Accepted;
      var a := Accepts(s, i);
      var rest := WonBy(Apply(s, a));
      RunsCons(s, a, rest);
      run := [a] + rest;
    }
  }

  /** Somebody refused, or was never asked, so no run activates the contract. */
  lemma LostStaysLost(s: State, a: Action)
    requires Seated(s.participants, s.contract.proposer) && Enabled(s, a)
    requires s.contract.status != Active && !Winnable(s.participants)
    ensures var t := Apply(s, a);
      Seated(t.participants, t.contract.proposer) && t.contract.status != Active && !Winnable(t.participants)
  {
    MadeActiveExactly(s, a);
    assert !EveryoneAccepted(s.participants);
    if a.AnswerInvite? {
      FindSound(s.participants, a.agent);
      var i := Find(s.participants, a.agent).value;
      AnswerExactly(s, i, a.yes);
      var j :| 0 <= j < |s.participants|
        && !(s.participants[j].answer == Accepted
             || (s.participants[j].role == Invitee && s.participants[j].answer == Pending));
      assert Apply(s, a).participants[j] == s.participants[j];
    }
  }

  lemma {:induction false} NeverWon(s: State, run: seq<Action>)
    requires Seated(s.participants, s.contract.proposer) && Runs(s, run)
    requires s.contract.status != Active && !Winnable(s.participants)
    ensures After(s, run).contract.status != Active
    decreases |run|
  {
    if run != [] {
      LostStaysLost(s, run[0]);
      NeverWon(Apply(s, run[0]), run[1..]);
    }
  }

  /** A proposed contract can become active exactly when everyone has accepted,
      or is an invitee who has not answered: from every start without observers
      or refusals it does. */
  lemma ActivatedExactly(s: State)
    requires Seated(s.participants, s.contract.proposer) && s.contract.status == Proposed
    ensures (exists run :: Runs(s, run) && After(s, run).contract.status == Active) <==> Winnable(s.participants)
  {
    if Winnable(s.participants) {
      var run := WonBy(s);
    } else {
      forall run | Runs(s, run) ensures After(s, run).contract.status != Active {
        NeverWon(s, run);
      }
    }
  }

  // ---- Who may do what ----

  /** What a participant is told, and what somebody else is. */
  lemma PermittedExactly(s: State, i: nat, m: Mutation)
    requires Distinct(s.participants) && i < |s.participants|
    ensures var p := s.participants[i]; var d := Permission(s, p.agent, m);
      (d == Permit <==>
        if m == AcceptIt || m == RejectIt then p.role == Invitee && p.answer == Pending
        else if m == CancelIt then p.role == Proposer
        else p.role != Observer)
      && (d != Permit ==>
            d == if (m == AcceptIt || m == RejectIt) && p.role == Invitee then Forbid(409, "ALREADY_RESPONDED")
                 else Forbid(403, "FORBIDDEN"))
  {
    FindAt(s.participants, i);
  }

  lemma StrangersFindNothing(s: State, a: Agent, m: Mutation)
    requires forall i :: 0 <= i < |s.participants| ==> s.participants[i].agent != a
    ensures Permission(s, a, m) == Forbid(404, "NOT_FOUND")
  {
    FindSound(s.participants, a);
  }

  // ---- Messages ----

  predicate Open(c: Contract) { c.status == Active && c.currentTurns < c.maxTurns }

  /** A turn on an open contract costs one, and the last one closes a contract
      that waits for no approval; elsewhere nothing is sent. */
  lemma TurnExactly(s: State, agent: Agent, kind: Kind, asks: Option<bool>)
    requires Enabled(s, Send(agent, kind, asks)) && (kind == Turn || kind == Request)
    ensures var c := s.contract; var t := Apply(s, Send(agent, kind, asks));
      var closes := c.currentTurns + 1 == c.maxTurns && (!c.gated || c.approved);
      var outcome := if c.approved then "completed-approved" else "turns-exhausted";
      t == if !Open(c) then s
           else s.(contract := c.(currentTurns := c.currentTurns + 1, status := if closes then Closed else Active),
                   messages := s.messages + [Message(agent, Some(kind == Request || asks != Some(false)), Some(true))],
                   closedBy := if closes then Some("system:max-turns") else s.closedBy,
                   announced := if !closes then s.announced
                                else s.announced + [Announcement(false, Some(outcome), Some("system:max-turns"),
                                                                 c.approved, false)])
  {
  }

  /** A receipt costs nothing and asks for nothing. */
  lemma ReceiptExactly(s: State, agent: Agent, asks: Option<bool>)
    requires Enabled(s, Send(agent, Receipt, asks))
    ensures Apply(s, Send(agent, Receipt, asks))
         == if s.contract.status != Active then s
            else s.(messages := s.messages + [Message(agent, Some(false), Some(false))])
  {
  }

  /** The proposer's approval is recorded once, costs nothing, and completes a
      gated contract whose budget is spent. Nobody else's is recorded. */
  lemma ApprovalExactly(s: State, agent: Agent, asks: Option<bool>)
    requires Enabled(s, Send(agent, Approval, asks))
    ensures var c := s.contract; var t := Apply(s, Send(agent, Approval, asks));
      var completes := c.gated && c.currentTurns >= c.maxTurns;
      t == if c.status != Active || agent != c.proposer then s
           else s.(contract := c.(approved := true, status := if completes then Closed else Active),
                   approvedBy := if c.approved then s.approvedBy else Some(agent),
                   approvers := s.approvers + {agent},
                   messages := s.messages + [Message(agent, Some(false), Some(false))],
                   closedBy := if completes then Some("system:completion-approved") else s.closedBy,
                   announced := if !completes then s.announced
                                else s.announced + [Announcement(false, Some("completed-approved"),
                                                                 Some("system:completion-approved"), true, false)])
  {
  }

  /** A participant who is no observer can send, whatever the contract's state. */
  lemma SendingExactly(s: State, i: nat, kind: Kind, asks: Option<bool>)
    requires Distinct(s.participants) && i < |s.participants|
    ensures Enabled(s, Send(s.participants[i].agent, kind, asks)) <==> s.participants[i].role != Observer
  {
    PermittedExactly(s, i, SendMessage);
  }

  // ---- Endings ----

  /** The gate lets a close begin exactly when nothing is pending, or when the
      proposer or an operator refuses the work and says why. */
  lemma CloseBeginsExactly(s: State, req: Req, i: nat, name: string, without: bool, reason: Option<string>)
    requires Distinct(s.participants) && i < |s.participants| && Slug(name) && req !in s.closers
    requires s.contract.status == Active
    ensures var c, p := s.contract, s.participants[i];
      var a := BeginClose(req, ByAgent(p.agent, name), without, reason);
      var pending := c.gated && !c.approved;
      var reasoned := without && reason.Some? && Units(Trim(reason.value)) >= 10;
      (Enabled(s, a) <==> p.role != Observer && (pending ==> p.agent == c.proposer && reasoned))
      && (Enabled(s, a) ==>
            Apply(s, a) == s.(closers := s.closers[req := Closing(a.actor, pending, reason, c.approved)]))
  {
    PermittedExactly(s, i, CloseIt);
    assert Trim("") == "";
  }

  lemma OperatorCloseBeginsExactly(s: State, req: Req, name: string, without: bool, reason: Option<string>)
    requires '@' in name && req !in s.closers && s.contract.status == Active
    ensures var c := s.contract; var a := BeginClose(req, ByOperator(name), without, reason);
      var pending := c.gated && !c.approved;
      (Enabled(s, a) <==> (pending ==> without && reason.Some? && Units(Trim(reason.value)) >= 10))
      && (Enabled(s, a) ==>
            Apply(s, a) == s.(closers := s.closers[req := Closing(a.actor, pending, reason, c.approved)]))
  {
    assert Trim("") == "";
  }

  /** The update behind it closes an active contract under the closer's name,
      unless it refuses what was approved in between. */
  lemma CloseCommitsExactly(s: State, req: Req)
    requires req in s.closers
    ensures var k := s.closers[req]; var t := Apply(s, CommitClose(req));
      var outcome := Code(Resolve(Some(k.actor.name), k.sawApproval, k.withoutApproval));
      t == if s.contract.status != Active || (k.withoutApproval && s.contract.approved)
           then s.(closers := s.closers - {req})
           else s.(closers := s.closers - {req}, contract := s.contract.(status := Closed),
                   closedBy := Some(k.actor.name), withoutApproval := k.withoutApproval,
                   closings := s.closings + [k],
                   announced := s.announced + [Announcement(false, Some(outcome), Some(k.actor.name),
                                                            k.sawApproval, false)])
  {
  }

  /** What ends a contract that lives, with the status and the name it leaves. */
  lemma EndedByExactly(s: State, a: Action)
    requires Enabled(s, a) && (s.contract.status == Proposed || s.contract.status == Active)
    requires !a.Send? && !a.CommitClose?
    ensures var c, t := s.contract, Apply(s, a);
      var proposed := c.status == Proposed;
      (t.contract.status, t.closedBy)
        == (if a.RejectContract? && proposed then (Rejected, Some(a.name))
            else if a.CancelContract? && proposed then (Cancelled, Some(a.name))
            else if a.CommitExpiry? then
              (if s.expirers[a.req] == Proposed then ContractStatus.Expired else Closed, Some("system:expiry"))
            else if a.Sweep? then (if proposed then ContractStatus.Expired else Closed, Some("system:expiry"))
            else if a.OldSweep? then
              (if proposed then ContractStatus.Expired else Closed, Some("system:expiry-sweep"))
            else if a.KillSwitch? && a.active && !proposed then (Closed, Some("system:kill-switch"))
            else if a.KillSwitch? && !a.active && proposed then (Cancelled, Some("system:kill-switch"))
            else (if a.Activate? then Active else c.status, s.closedBy))
  {
  }

  /** An expiry is announced as one; the older sweep and the kill switch, a
      rejection and a cancellation announce nothing. */
  lemma AnnouncedByExactly(s: State, a: Action)
    requires Enabled(s, a) && !a.Send? && !a.CommitClose?
    ensures var c, t := s.contract, Apply(s, a);
      var expires := a.CommitExpiry? || (a.Sweep? && (c.status == Proposed || c.status == Active));
      var wasProposed := if a.CommitExpiry? then s.expirers[a.req] == Proposed else c.status == Proposed;
      t.announced == if !expires then s.announced
                     else s.announced + [Announcement(wasProposed, Some("expired"), Some("system:expiry"),
                                                      c.approved, false)]
  {
  }

  // ---- What can happen when ----

  /** Questions, sweeps and the kill switch wait for nothing. */
  lemma UnconditionalSteps(s: State, qs: seq<Agent>, active: bool)
    ensures Enabled(s, SetQuestions(qs)) && Apply(s, SetQuestions(qs)) == s.(questions := qs)
    ensures Enabled(s, Sweep) && Enabled(s, OldSweep) && Enabled(s, KillSwitch(active))
  {
  }

  /** An expiry begins on a contract that lives, remembering how it lived, and its
      update goes ahead from there, whatever happened since. */
  lemma ExpiryExactly(s: State, req: Req)
    ensures Enabled(s, BeginExpiry(req)) <==> req !in s.expirers && s.contract.status in {Proposed, Active}
    ensures Enabled(s, BeginExpiry(req)) ==>
      Apply(s, BeginExpiry(req)) == s.(expirers := s.expirers[req := s.contract.status])
    ensures Enabled(s, CommitExpiry(req)) <==> req in s.expirers
    ensures Enabled(s, CommitExpiry(req)) ==> Apply(s, CommitExpiry(req)).expirers == s.expirers - {req}
  {
  }

  /** A contract is rejected once somebody refused, and cancelled by its proposer. */
  lemma RefusalExactly(s: State, i: nat, name: string)
    requires Distinct(s.participants) && i < |s.participants| && Slug(name)
    ensures Enabled(s, RejectContract(name))
       <==> exists j :: 0 <= j < |s.participants| && s.participants[j].answer == Answer.Refused
    ensures Enabled(s, CancelContract(s.participants[i].agent, name)) <==> s.participants[i].role == Proposer
  {
    PermittedExactly(s, i, CancelIt);
  }

  /** What the viewers of a contract are shown of it. */
  lemma ViewExactly(s: State)
    ensures ViewOf(s).contract == s.contract && ViewOf(s).participants == s.participants
    ensures ViewOf(s).questions == s.questions
    ensures ViewOf(s).last == if s.messages == [] then None else Some(s.messages[|s.messages| - 1])
  {
  }

  // ---- How a contract starts ----

  function Invited(agents: seq<Agent>): (ps: seq<Participant>)
    ensures |ps| == |agents|
    ensures forall i :: 0 <= i < |agents| ==> ps[i] == Participant(agents[i], Invitee, Pending)
  {
    if agents == [] then [] else [Participant(agents[0], Invitee, Pending)] + Invited(agents[1..])
  }

  /** A contract as it is proposed: no turn taken, nothing said or approved, the
      proposer at the first seat and each invitee asked once. */
  function Proposal(proposer: Agent, invitees: seq<Agent>, maxTurns: int, gated: bool): State {
    State(Contract(Proposed, proposer, 0, maxTurns, gated, false), None, false, None,
          [Participant(proposer, Proposer, Accepted)] + Invited(invitees), [], [], map[], map[], {}, [], [])
  }

  lemma ProposalIsInitial(proposer: Agent, invitees: seq<Agent>, maxTurns: int, gated: bool)
    requires proposer !in invitees && forall i, j :: 0 <= i < j < |invitees| ==> invitees[i] != invitees[j]
    ensures Initial(Proposal(proposer, invitees, maxTurns, gated))
    ensures Winnable(Proposal(proposer, invitees, maxTurns, gated).participants)
  {
    var ps := Proposal(proposer, invitees, maxTurns, gated).participants;
    assert forall i :: 0 < i < |ps| ==> ps[i] == Invited(invitees)[i - 1];
    assert Distinct(ps);
  }

  /** So every proposal can become active. */
  lemma ProposalCanStart(proposer: Agent, invitees: seq<Agent>, maxTurns: int, gated: bool) returns (run: seq<Action>)
    requires proposer !in invitees && forall i, j :: 0 <= i < j < |invitees| ==> invitees[i] != invitees[j]
    ensures var s := Proposal(proposer, invitees, maxTurns, gated);
      Runs(s, run) && After(s, run).contract == s.contract.(status := Active)
  {
    ProposalIsInitial(proposer, invitees, maxTurns, gated);
    run := WonBy(Proposal(proposer, invitees, maxTurns, gated));
  }

  /** The names agents can register: small letters, digits, and behind the first
      also `_` and `-`. */
  lemma SlugExactly(name: string)
    ensures Slug(name)
       <==> name != "" && (97 <= name[0] as int <= 122 || 48 <= name[0] as int <= 57)
            && forall i :: 0 <= i < |name| ==>
                 var u := name[i] as int; 97 <= u <= 122 || 48 <= u <= 57 || u == 95 || u == 45
  {
  }
}
