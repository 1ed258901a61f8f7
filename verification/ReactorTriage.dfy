/** What the reactor makes of an event, said in the fields of the event. */
module ReactorTriage {
  import opened Text
  import opened Reactor

  predicate TooOld(e: Event, p: Pass) { e.stamp.Some? && p.now - e.stamp.value > p.maxAge }

  predicate SeenBefore(e: Event, seen: set<string>) { SemanticKey(e).Some? && SemanticKey(e).value in seen }

  /** The event is for an agent that is not the one that is named to open. */
  predicate OthersOpen(e: Event, p: Pass) {
    p.self.Some? && p.self.value != "" && e.opensNext.Some? && e.opensNext.value != "" && p.self != e.opensNext
  }

  /** An event wakes a worker exactly when something is owed: it does not say that
      nothing is, it is no receipt, approval or stale run, and the contract it
      announces is not another's to open. Otherwise it is recorded. */
  lemma WakesExactly(e: Event, seen: set<string>, p: Pass)
    requires !SeenBefore(e, seen) && !TooOld(e, p) && !e.blockedArtifact
    ensures Dispose(e, seen, p) == Act
       <==> e.requiresAction != Some(false) && e.attention != Some("informational")
            && (e.name == "message" ==>
                  e.messageType != Some("receipt") && e.messageType != Some("approval")
                  && e.attention != Some("receipt"))
            && e.name != "task.run_stale" && !(e.name == "contract.accepted" && OthersOpen(e, p))
    ensures Dispose(e, seen, p) != Act ==> Dispose(e, seen, p) == Record
  {
  }

  /** A repeat is dropped before its age counts, an old event before what it is
      looked at, and an unapproved artifact reaches a person before anything else. */
  lemma DroppedExactly(e: Event, seen: set<string>, p: Pass)
    ensures Dispose(e, seen, p) == Duplicate <==> SeenBefore(e, seen)
    ensures Dispose(e, seen, p) == Stale <==> !SeenBefore(e, seen) && TooOld(e, p)
    ensures Dispose(e, seen, p) == Escalate <==> !SeenBefore(e, seen) && !TooOld(e, p) && e.blockedArtifact
  {
  }

  /** What counts as one message: its id within its contract, or, without an id,
      its sender and turn. Only messages are told apart at all. */
  lemma NamedExactly(e: Event)
    ensures SemanticKey(e).Some?
       <==> e.name == "message" && e.contractId.Some? && e.contractId.value != ""
            && ((e.messageId.Some? && e.messageId.value != "")
                || (e.turn.Some? && e.sender.Some? && e.sender.value != ""))
    ensures SemanticKey(e).Some? ==>
      SemanticKey(e).value
      == if e.messageId.Some? && e.messageId.value != ""
         then "message:" + (e.contractId.value + (":" + e.messageId.value))
         else "message-legacy:" + (e.contractId.value + (":" + (e.sender.value + (":" + Dec(e.turn.value)))))
  {
  }

  /** A key is remembered for the rest of the pass unless the event was too old. */
  lemma RememberedExactly(e: Event, seen: set<string>, p: Pass)
    ensures forall key ::
      key in SeenAfter(e, seen, p) <==> key in seen || (SemanticKey(e) == Some(key) && !TooOld(e, p))
  {
  }

  /** An event stays in the queue exactly when a worker was needed and failed; one
      that ends its contract needs none, and a dry run starts none. */
  lemma KeptExactly(e: Event, d: Disposition, outcome: Outcome, p: Pass)
    ensures !Handled(e, d, outcome, p)
       <==> d == Act && outcome == FailedRun && !p.dryRun
            && e.name != "contract.closed" && e.name != "contract.expired"
  {
  }

  /** So a fresh message that asks for something, seen for the first time, waits in
      the queue for as long as its worker fails, and a receipt never does. */
  lemma MessageWaits(e: Event, p: Pass)
    requires e.name == "message" && !TooOld(e, p) && !e.blockedArtifact && !p.dryRun
    requires e.messageType == Some("request") && e.requiresAction.None? && e.attention.None?
    ensures Kept([e], [FailedRun], {}, p) == [e] && Kept([e], [Acted], {}, p) == []
    ensures Kept([e.(messageType := Some("receipt"))], [FailedRun], {}, p) == []
  {
    var receipt := e.(messageType := Some("receipt"));
    WakesExactly(e, {}, p);
    WakesExactly(receipt, {}, p);
    KeptOne(e, FailedRun, p);
    KeptOne(e, Acted, p);
    KeptOne(receipt, FailedRun, p);
  }

  lemma KeptOne(e: Event, outcome: Outcome, p: Pass)
    ensures Kept([e], [outcome], {}, p) == if Handled(e, Dispose(e, {}, p), outcome, p) then [] else [e]
  {
    var d := Dispose(e, {}, p);
    assert Decide([e], [outcome], {}, p) == [Reactor.Decision(d, Handled(e, d, outcome, p))] by {
      assert [e][1..] == [] && [outcome][1..] == [];
    }
    assert Retained([e], [Reactor.Decision(d, Handled(e, d, outcome, p))])
        == (if Handled(e, d, outcome, p) then [] else [e]) + Retained([], []) by {
      assert [e][1..] == [] && [Reactor.Decision(d, Handled(e, d, outcome, p))][1..] == [];
    }
  }
}
