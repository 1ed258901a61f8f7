/** Whose move it is, case by case and said in the fields of the contract. */
module WhoseMove {
  import opened Text
  import opened Turns = TurnState

  /** Nobody is awaited on a contract that ended, whoever has a question open; nor
      once its turns are spent and no approval is missing; nor after a message
      that took no turn or asked for nothing. */
  predicate NothingOwed(v: View) {
    var c := v.contract;
    c.status in {Closed, ContractStatus.Expired, Cancelled, Rejected}
    || (c.status == Active
        && if c.currentTurns >= c.maxTurns then !c.gated || c.approved
           else v.last.Some?
                && (v.last.value.consumesTurn == Some(false) || v.last.value.requiresAction == Some(false)))
  }

  lemma NobodyIsAwaited(v: View, viewer: Agent)
    requires NothingOwed(v)
    ensures DeriveWithoutQuestions(v, viewer) == TurnState(Nobody, None)
    ensures v.contract.status != Active ==> Derive(v, viewer) == TurnState(Nobody, None)
  {
  }

  /** A spent contract that waits for approval waits for its proposer. */
  lemma ProposerIsAwaited(v: View, viewer: Agent)
    requires v.contract.status == Active && v.contract.currentTurns >= v.contract.maxTurns
    requires v.contract.gated && !v.contract.approved
    ensures DeriveWithoutQuestions(v, viewer)
         == TurnState(if viewer == v.contract.proposer then You else Peer, Some(v.contract.proposer))
  {
  }

  /** A reply that several could give is asked of whoever looks, and of nobody
      when the sender looks; one that only one can give is asked of that one. */
  lemma ReplyIsAwaited(v: View, viewer: Agent)
    requires v.contract.status == Active && v.contract.currentTurns < v.contract.maxTurns && v.last.Some?
    requires v.last.value.consumesTurn != Some(false) && v.last.value.requiresAction != Some(false)
    ensures var sender := v.last.value.sender;
      var others := Who(v.participants, (p: Participant) => p.role != Observer && p.agent != sender);
      DeriveWithoutQuestions(v, viewer).agent
        == if |others| == 1 then Some(others[0]) else if viewer == sender then None else Some(viewer)
  {
    var sender := v.last.value.sender;
    SameTest(v.participants, Peers(sender), (p: Participant) => p.role != Observer && p.agent != sender);
  }

  lemma {:induction false} SameTest(ps: seq<Participant>, a: Participant -> bool, b: Participant -> bool)
    requires forall p :: a(p) == b(p)
    ensures Who(ps, a) == Who(ps, b)
  {
    if ps != [] {
      SameTest(ps[1..], a, b);
    }
  }

  /** Somebody passes a test and is alone in it. */
  ghost predicate Alone(ps: seq<Participant>, test: Participant -> bool, i: nat) {
    i < |ps| && test(ps[i]) && forall j :: 0 <= j < |ps| && test(ps[j]) ==> j == i
  }

  lemma SoleIsAlone(ps: seq<Participant>, test: Participant -> bool, a: Agent)
    ensures Sole(ps, test, a) <==> exists i: nat :: Alone(ps, test, i) && ps[i].agent == a
  {
    if Sole(ps, test, a) {
      var i :| 0 <= i < |ps| && PassesAt(ps, test, i) && ps[i].agent == a
                 && forall j :: 0 <= j < |ps| && PassesAt(ps, test, j) ==> j == i;
      forall j | 0 <= j < |ps| && test(ps[j]) ensures j == i {
        assert PassesAt(ps, test, j);
      }
      assert Alone(ps, test, i);
    }
    if i: nat :| Alone(ps, test, i) && ps[i].agent == a {
      assert PassesAt(ps, test, i);
      forall j | 0 <= j < |ps| && PassesAt(ps, test, j) ensures j == i {
        assert test(ps[j]);
      }
    }
  }

  /** An invitee that accepted opens an active contract, if it is the only one. */
  lemma OpenerIsAwaited(v: View, viewer: Agent, a: Agent)
    requires v.contract.status == Active && v.contract.currentTurns < v.contract.maxTurns && v.last.None?
    ensures var proposer := v.contract.proposer;
      var test := (p: Participant) => p.role == Invitee && p.answer == Accepted && p.agent != proposer;
      DeriveWithoutQuestions(v, viewer).agent == Some(a) <==>
        exists i: nat :: Alone(v.participants, test, i) && v.participants[i].agent == a
  {
    var proposer := v.contract.proposer;
    var test := (p: Participant) => p.role == Invitee && p.answer == Accepted && p.agent != proposer;
    AccepterOpens(v, viewer, a);
    OnlyExactly(v.participants, test, a);
    SameTest(v.participants, Accepters(proposer), test);
    SoleIsAlone(v.participants, test, a);
  }

  /** Before activation the one who has not answered is awaited. */
  lemma AnswerIsAwaited(v: View, viewer: Agent, a: Agent)
    requires v.contract.status == Proposed
    ensures var test := (p: Participant) => p.answer == Pending;
      DeriveWithoutQuestions(v, viewer).agent == Some(a) <==>
        exists i: nat :: Alone(v.participants, test, i) && v.participants[i].agent == a
  {
    var test := (p: Participant) => p.answer == Pending;
    InviteeAnswers(v, viewer, a);
    OnlyExactly(v.participants, test, a);
    SameTest(v.participants, Unanswered(), test);
    SoleIsAlone(v.participants, test, a);
  }

  /** A person is awaited, and no agent, while a living contract's owed agent has
      a question open, or anybody when no agent is owed. */
  lemma PersonIsAwaited(v: View, viewer: Agent)
    requires v.contract.status == Proposed || v.contract.status == Active
    ensures var owed := DeriveWithoutQuestions(v, viewer).agent;
      Derive(v, viewer)
        == if (if owed.Some? then owed.value in v.questions else v.questions != [])
           then TurnState(Human, None) else DeriveWithoutQuestions(v, viewer)
  {
  }
}
