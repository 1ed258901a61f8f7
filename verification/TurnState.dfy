/** Whose move it is on a contract, from the point of view of one agent. */
module TurnState {
  import opened Text

  type Agent = string

  datatype ContractStatus = Proposed | Active | Closed | Expired | Cancelled | Rejected

  datatype Role = Proposer | Invitee | Observer
  datatype Answer = Pending | Accepted | Refused

  datatype Participant = Participant(agent: Agent, role: Role, answer: Answer)

  datatype Message = Message(sender: Agent, requiresAction: Option<bool>, consumesTurn: Option<bool>)

  datatype Contract = Contract(
    status: ContractStatus,
    proposer: Agent,
    currentTurns: int,
    maxTurns: int,
    gated: bool,
    approved: bool)

  /** What the derivation reads; `questions` are the agents with an open
      blocking question, in order. */
  datatype View = View(contract: Contract, participants: seq<Participant>, last: Option<Message>, questions: seq<Agent>)

  datatype Wait = You | Peer | Nobody | Human

  datatype TurnState = TurnState(awaiting: Wait, agent: Option<Agent>)

  predicate Ended(s: ContractStatus) { s == Closed || s == Expired || s == Cancelled || s == Rejected }

  predicate Spent(c: Contract) { c.currentTurns >= c.maxTurns }

  /** The agents of those participants that pass a test, in order. */
  function Who(ps: seq<Participant>, test: Participant -> bool): seq<Agent> {
    if ps == [] then []
    else if test(ps[0]) then [ps[0].agent] + Who(ps[1..], test)
    else Who(ps[1..], test)
  }

  function Only(agents: seq<Agent>): Option<Agent> {
    if |agents| == 1 then Some(agents[0]) else None
  }

  /** Those who accepted the invitation: one of them opens, if there is one. */
  function Accepters(proposer: Agent): Participant -> bool {
    (p: Participant) => p.role == Invitee && p.answer == Accepted && p.agent != proposer
  }

  function Unanswered(): Participant -> bool { (p: Participant) => p.answer == Pending }

  function Peers(sender: Agent): Participant -> bool { (p: Participant) => p.role != Observer && p.agent != sender }

  function Others(ps: seq<Participant>, sender: Agent): seq<Agent> { Who(ps, Peers(sender)) }

  function State(agent: Option<Agent>, viewer: Agent): TurnState {
    TurnState(if agent.None? then Nobody else if agent.value == viewer then You else Peer, agent)
  }

  /** The last message is a move that asked for a reply, and budget remains. */
  predicate ReplyDue(v: View) {
    v.contract.status == Active && !Spent(v.contract) && v.last.Some?
    && v.last.value.consumesTurn != Some(false) && v.last.value.requiresAction != Some(false)
  }

  /** `deriveWithoutQuestions`. */
  function DeriveWithoutQuestions(v: View, viewer: Agent): TurnState {
    var c := v.contract;
    if Ended(c.status) then State(None, viewer)
    else if c.status == Proposed then
      State(Only(Who(v.participants, Unanswered())), viewer)
    else if Spent(c) && c.gated && !c.approved then State(Some(c.proposer), viewer)
    else if Spent(c) then State(None, viewer)
    else if v.last.None? then State(Only(Who(v.participants, Accepters(c.proposer))), viewer)
    else if v.last.value.consumesTurn == Some(false) then State(None, viewer)
    else if v.last.value.requiresAction == Some(false) then State(None, viewer)
    else
      var owed := Only(Others(v.participants, v.last.value.sender));
      if v.last.value.sender == viewer then State(owed, viewer)
      else State(if owed.Some? then owed else Some(viewer), viewer)
  }

  /** The question that stops the contract: the owed agent's, or anyone's when
      nobody is owed. */
  function Blocking(questions: seq<Agent>, owed: Option<Agent>): Option<Agent> {
    if owed.Some? then (if owed.value in questions then owed else None)
    else if questions != [] then Some(questions[0])
    else None
  }

  /** `deriveContractTurnState`. */
  function Derive(v: View, viewer: Agent): TurnState {
    var derived := DeriveWithoutQuestions(v, viewer);
    if Blocking(v.questions, derived.agent).None? || Ended(v.contract.status) then derived
    else TurnState(Human, None)
  }

  // ---- Who is singled out ----

  predicate PassesAt(ps: seq<Participant>, test: Participant -> bool, i: int) { 0 <= i < |ps| && test(ps[i]) }

  /** Exactly one participant passes, and it is this agent. */
  predicate Sole(ps: seq<Participant>, test: Participant -> bool, a: Agent) {
    exists i :: 0 <= i < |ps| && PassesAt(ps, test, i) && ps[i].agent == a
                && forall j :: 0 <= j < |ps| && PassesAt(ps, test, j) ==> j == i
  }

  lemma {:induction false} NobodyPasses(ps: seq<Participant>, test: Participant -> bool)
    ensures Who(ps, test) == [] <==> forall i :: 0 <= i < |ps| ==> !PassesAt(ps, test, i)
  {
    if ps != [] {
      NobodyPasses(ps[1..], test);
      assert PassesAt(ps, test, 0) == test(ps[0]);
      assert forall i :: 0 < i < |ps| ==> PassesAt(ps, test, i) == PassesAt(ps[1..], test, i - 1);
      assert forall i :: 0 <= i < |ps[1..]| ==> PassesAt(ps[1..], test, i) == PassesAt(ps, test, i + 1);
    }
  }

  /** An agent is singled out exactly when it alone passes. */
  lemma {:induction false} OnlyExactly(ps: seq<Participant>, test: Participant -> bool, a: Agent)
    ensures Only(Who(ps, test)) == Some(a) <==> Sole(ps, test, a)
  {
    if ps != [] {
      var rest := ps[1..];
      NobodyPasses(rest, test);
      OnlyExactly(rest, test, a);
      assert forall i :: 0 < i < |ps| ==> PassesAt(ps, test, i) == PassesAt(rest, test, i - 1);
      assert forall i :: 0 <= i < |rest| ==> PassesAt(rest, test, i) == PassesAt(ps, test, i + 1);
      if PassesAt(ps, test, 0) {
        SoleFirst(ps, test, a);
      } else {
        SoleRest(ps, test, a);
      }
    }
  }

  lemma SoleFirst(ps: seq<Participant>, test: Participant -> bool, a: Agent)
    requires ps != [] && PassesAt(ps, test, 0)
    ensures Sole(ps, test, a) <==> ps[0].agent == a && forall i :: 0 < i < |ps| ==> !PassesAt(ps, test, i)
  {
  }

  lemma SoleRest(ps: seq<Participant>, test: Participant -> bool, a: Agent)
    requires ps != [] && !PassesAt(ps, test, 0)
    ensures Sole(ps, test, a) <==> Sole(ps[1..], test, a)
  {
    var rest := ps[1..];
    assert forall i :: 0 < i < |ps| ==> PassesAt(ps, test, i) == PassesAt(rest, test, i - 1);
    if Sole(ps, test, a) {
      var i :| 0 <= i < |ps| && PassesAt(ps, test, i) && ps[i].agent == a
                 && forall j :: 0 <= j < |ps| && PassesAt(ps, test, j) ==> j == i;
      assert PassesAt(rest, test, i - 1) && rest[i - 1].agent == a;
      assert forall j :: 0 <= j < |rest| && PassesAt(rest, test, j) ==> PassesAt(ps, test, j + 1);
    }
    if Sole(rest, test, a) {
      var i :| 0 <= i < |rest| && PassesAt(rest, test, i) && rest[i].agent == a
                 && forall j :: 0 <= j < |rest| && PassesAt(rest, test, j) ==> j == i;
      assert PassesAt(ps, test, i + 1) && ps[i + 1].agent == a;
    }
  }

  /** The accepter opens: on an active contract without messages an agent is
      awaited exactly when it alone accepted the invitation. */
  lemma AccepterOpens(v: View, viewer: Agent, a: Agent)
    requires v.contract.status == Active && !Spent(v.contract) && v.last.None?
    ensures DeriveWithoutQuestions(v, viewer).agent == Some(a)
      <==> Sole(v.participants, Accepters(v.contract.proposer), a)
  {
    OnlyExactly(v.participants, Accepters(v.contract.proposer), a);
  }

  /** Before activation the one who has not answered is awaited, if it is one. */
  lemma InviteeAnswers(v: View, viewer: Agent, a: Agent)
    requires v.contract.status == Proposed
    ensures DeriveWithoutQuestions(v, viewer).agent == Some(a) <==> Sole(v.participants, Unanswered(), a)
  {
    OnlyExactly(v.participants, Unanswered(), a);
  }

  /** The other party replies: an agent other than the viewer is awaited exactly
      when it is the only party beside the sender. */
  lemma PeerReplies(v: View, viewer: Agent, a: Agent)
    requires ReplyDue(v) && viewer != a
    ensures DeriveWithoutQuestions(v, viewer).agent == Some(a) <==> Sole(v.participants, Peers(v.last.value.sender), a)
  {
    OnlyExactly(v.participants, Peers(v.last.value.sender), a);
  }

  // ---- What the answer does not depend on ----

  predicate Distinct(ps: seq<Participant>) {
    forall i, j :: 0 <= i < j < |ps| ==> ps[i].agent != ps[j].agent
  }

  /** How many agents take part rather than watch. */
  function Parties(ps: seq<Participant>): nat {
    |Who(ps, (p: Participant) => p.role != Observer)|
  }

  predicate Takes(ps: seq<Participant>, a: Agent) {
    exists i :: 0 <= i < |ps| && ps[i].agent == a && ps[i].role != Observer
  }

  lemma {:induction false} OthersWithout(ps: seq<Participant>, a: Agent)
    requires forall i :: 0 <= i < |ps| ==> ps[i].agent != a
    ensures |Others(ps, a)| == Parties(ps)
  {
    if ps != [] {
      OthersWithout(ps[1..], a);
    }
  }

  /** A party sees one party fewer than there are. */
  lemma {:induction false} OthersOf(ps: seq<Participant>, a: Agent)
    requires Distinct(ps) && Takes(ps, a)
    ensures |Others(ps, a)| == Parties(ps) - 1
  {
    if ps[0].agent == a {
      OthersWithout(ps[1..], a);
    } else {
      assert Takes(ps[1..], a) by {
        var i :| 0 <= i < |ps| && ps[i].agent == a && ps[i].role != Observer;
        assert ps[1..][i - 1] == ps[i];
      }
      OthersOf(ps[1..], a);
    }
  }

  lemma {:induction false} OthersLeaveOut(ps: seq<Participant>, a: Agent)
    ensures a !in Others(ps, a)
  {
    if ps != [] {
      OthersLeaveOut(ps[1..], a);
    }
  }

  /** The reply is due from one of several, so each viewer is told something else. */
  predicate FallsToViewer(v: View) {
    ReplyDue(v) && |Others(v.participants, v.last.value.sender)| != 1
  }

  /** Two viewers are told of different agents exactly when a reply is due and
      there is not one other party to owe it. */
  lemma ViewersDisagreeExactly(v: View, x: Agent, y: Agent)
    requires x != y
    ensures DeriveWithoutQuestions(v, x).agent != DeriveWithoutQuestions(v, y).agent <==> FallsToViewer(v)
  {
  }

  /** A person is awaited exactly when the contract lives and the owed agent, or
      anyone when nobody is owed, has a blocking question. */
  lemma HumanExactly(v: View, viewer: Agent)
    ensures Derive(v, viewer).awaiting == Human
       <==> !Ended(v.contract.status)
            && var owed := DeriveWithoutQuestions(v, viewer).agent;
               (owed.Some? && owed.value in v.questions) || (owed.None? && v.questions != [])
  {
  }

  /** A viewer is told "you" exactly when it is the awaited agent, and a named
      agent is always one that can move. */
  lemma YouExactly(v: View, viewer: Agent)
    ensures Derive(v, viewer).awaiting == You <==> Derive(v, viewer).agent == Some(viewer)
    ensures Derive(v, viewer).awaiting in {Nobody, Human} <==> Derive(v, viewer).agent == None
  {
  }

  /** With two parties, everyone is told of the same agent, questions or not. */
  lemma TwoPartiesAgree(v: View, x: Agent, y: Agent)
    requires Distinct(v.participants) && Parties(v.participants) == 2
    requires v.last.Some? ==> Takes(v.participants, v.last.value.sender)
    ensures Derive(v, x).agent == Derive(v, y).agent
    ensures (Derive(v, x).awaiting == You && Derive(v, y).awaiting == You) ==> x == y
    ensures (Derive(v, x).awaiting == Human) == (Derive(v, y).awaiting == Human)
  {
    if v.last.Some? {
      OthersOf(v.participants, v.last.value.sender);
    }
    if x != y {
      ViewersDisagreeExactly(v, x, y);
    }
    HumanExactly(v, x);
    HumanExactly(v, y);
    YouExactly(v, x);
    YouExactly(v, y);
  }

  /** Whoever asked for the reply is not the one awaited, whoever looks, however
      many take part. */
  lemma SenderIsNotAwaited(v: View, viewer: Agent)
    requires ReplyDue(v)
    ensures Derive(v, viewer).agent != Some(v.last.value.sender)
  {
    OthersLeaveOut(v.participants, v.last.value.sender);
  }
}
