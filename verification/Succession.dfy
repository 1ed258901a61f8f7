/** Which earlier contracts a proposal is likely to carry on. */
module Succession {
  import opened Text
  import Closure
  import TurnState
  import Lifecycle

  /** A candidate as the query returns it; `agents` are its non-observers. */
  datatype Candidate = Candidate(
    id: string, status: TurnState.ContractStatus, currentTurns: int, maxTurns: int,
    closedBy: Option<string>, approved: bool, withoutApproval: bool, agents: seq<string>)

  function Members(xs: seq<string>): set<string> { set x | x in xs }

  /** `sameSet`: as many distinct members, and every one of the first in the second. */
  predicate SameSet(a: seq<string>, b: seq<string>) {
    |Members(a)| == |Members(b)| && forall x :: x in Members(a) ==> x in Members(b)
  }

  lemma SubsetOfSameSize(a: set<string>, b: set<string>)
    requires a <= b && |a| == |b|
    ensures a == b
  {
    if x :| x in b && x !in a {
      SmallerSubset(a, b - {x});
    }
  }

  lemma {:induction false} SmallerSubset(a: set<string>, b: set<string>)
    requires a <= b
    ensures |a| <= |b|
  {
    if x :| x in a {
      SmallerSubset(a - {x}, b - {x});
    }
  }

  /** The test is equality of the two as sets: order and repetition do not count. */
  lemma SameSetExactly(a: seq<string>, b: seq<string>)
    ensures SameSet(a, b) <==> forall x :: x in a <==> x in b
  {
    if SameSet(a, b) {
      SubsetOfSameSize(Members(a), Members(b));
      assert forall x :: x in a <==> x in Members(a);
      assert forall x :: x in b <==> x in Members(b);
    }
    assert (forall x :: x in a <==> x in b) ==> Members(a) == Members(b);
  }

  predicate Unfinished(c: Candidate) {
    if c.status == TurnState.Active then c.currentTurns >= c.maxTurns
    else if c.status != TurnState.Closed && c.status != TurnState.Expired then false
    else !Closure.IsSuccess(Closure.Resolve(c.closedBy, c.approved, c.withoutApproval))
  }

  /** `filterLikelyPredecessors`. */
  function Likely(rows: seq<Candidate>, agents: seq<string>): seq<string> {
    if rows == [] then []
    else (if SameSet(rows[0].agents, agents) && Unfinished(rows[0]) then [rows[0].id] else [])
         + Likely(rows[1..], agents)
  }

  lemma {:induction false} LikelyExactly(rows: seq<Candidate>, agents: seq<string>, id: string)
    ensures id in Likely(rows, agents)
       <==> exists i :: 0 <= i < |rows| && rows[i].id == id && Unfinished(rows[i])
                        && forall x :: x in rows[i].agents <==> x in agents
  {
    if rows != [] {
      LikelyExactly(rows[1..], agents, id);
      SameSetExactly(rows[0].agents, agents);
      if i :| 0 <= i < |rows| && rows[i].id == id && Unfinished(rows[i]) && SameSet(rows[i].agents, agents) {
        assert i > 0 ==> rows[1..][i - 1] == rows[i];
      }
      forall i | 0 <= i < |rows|
        ensures SameSet(rows[i].agents, agents) <==> forall x :: x in rows[i].agents <==> x in agents
      {
        SameSetExactly(rows[i].agents, agents);
      }
      forall j | 0 <= j < |rows[1..]| ensures rows[1..][j] == rows[j + 1] {
      }
    }
  }

  /** The candidate row of a contract. */
  function RowOf(s: Lifecycle.State, id: string, agents: seq<string>): Candidate {
    Candidate(id, s.contract.status, s.contract.currentTurns, s.contract.maxTurns, s.closedBy, s.contract.approved,
              s.withoutApproval, agents)
  }

  /** In every run, the contract its proposer still has to decide on is offered
      for continuation and a completed one never is; a closed gated one is offered
      unapproved if it was refused, expired, or closed by the kill switch or the
      older sweep script, and otherwise only if closed by hand after its approval. */
  lemma OfferedOverARun(s: Lifecycle.State, run: seq<Lifecycle.Action>, id: string, agents: seq<string>)
    requires Lifecycle.Initial(s) && Lifecycle.Runs(s, run)
    ensures var t := Lifecycle.After(s, run); var c := t.contract;
      (c.status == TurnState.Active && Lifecycle.GatePending(c) && TurnState.Spent(c) ==>
        Unfinished(RowOf(t, id, agents)))
      && (TurnState.Ended(c.status) && Lifecycle.OutcomeOf(t) == Closure.CompletedApproved ==>
        !Unfinished(RowOf(t, id, agents)))
      && (c.status == TurnState.Closed && c.gated && Unfinished(RowOf(t, id, agents)) ==>
            Lifecycle.OutcomeOf(t) in {Closure.ClosedUnapproved, Closure.Expired}
            || t.closedBy in {Some(Lifecycle.BY_KILL_SWITCH), Some(Lifecycle.BY_OLD_SWEEP)}
            || (Lifecycle.OutcomeOf(t) == Closure.ClosedByParticipant && c.approved))
  {
    if Lifecycle.After(s, run).contract.gated && Lifecycle.After(s, run).contract.status == TurnState.Closed {
      Lifecycle.GateHoldsExactly(s, run);
    }
  }

  /** A candidate's work is unfinished when its turns are spent while it is active,
      or when it ended, rejected and cancelled ones apart, in any way but an
      approved completion. */
  lemma UnfinishedExactly(c: Candidate)
    ensures Unfinished(c)
       <==> (c.status == TurnState.Active && c.currentTurns >= c.maxTurns)
            || ((c.status == TurnState.Closed || c.status == TurnState.Expired)
                && (c.withoutApproval
                    || !(c.closedBy == Some("system:completion-approved")
                         || (c.closedBy == Some("system:max-turns") && c.approved))))
  {
  }
}
