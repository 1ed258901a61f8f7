/** How a contract ended: the platform's classification, the completion gate on
    closing, and the reactor's reading of the announced event. */
module Closure {
  import opened Text

  datatype Outcome = CompletedApproved | TurnsExhausted | Expired | ClosedByParticipant | ClosedUnapproved

  const BY_APPROVAL := "system:completion-approved"
  const BY_TURNS := "system:max-turns"
  const BY_EXPIRY := "system:expiry"

  function Code(o: Outcome): string {
    match o
    case CompletedApproved => "completed-approved"
    case TurnsExhausted => "turns-exhausted"
    case Expired => "expired"
    case ClosedByParticipant => "closed-by-participant"
    case ClosedUnapproved => "closed-unapproved"
  }

  /** `resolveCloseOutcome`. */
  function Resolve(closedBy: Option<string>, approved: bool, withoutApproval: bool): Outcome {
    if withoutApproval then ClosedUnapproved
    else
      var who := if closedBy.Some? then closedBy.value else "";
      if who == BY_APPROVAL then CompletedApproved
      else if who == BY_TURNS then (if approved then CompletedApproved else TurnsExhausted)
      else if who == BY_EXPIRY then Expired
      else ClosedByParticipant
  }

  predicate IsSuccess(o: Outcome) { o == CompletedApproved }

  // ---- The gate ----

  const UNAPPROVED_CLOSE_REASON_MIN := 10

  predicate Reasoned(reason: Option<string>) {
    reason.Some? && Units(Trim(reason.value)) >= UNAPPROVED_CLOSE_REASON_MIN
  }

  datatype Gate = Allowed(withoutApproval: bool) | Refused(status: nat, code: string)

  /** `evaluateGatedClose`. */
  function EvaluateGatedClose(pending: bool, isProposer: bool, withoutApproval: bool, reason: Option<string>): Gate {
    if !pending then Allowed(false)
    else
      var text := Trim(if reason.Some? then reason.value else "");
      if isProposer && withoutApproval && Units(text) >= UNAPPROVED_CLOSE_REASON_MIN then Allowed(true)
      else Refused(409, "COMPLETION_APPROVAL_REQUIRED")
  }

  // ---- The announced event ----

  /** What `emitContractClosed` announces, as far as its readers look. The
      platform has never sent `completion_requires_approval` here. */
  datatype Announcement = Announcement(
    expired: bool,
    outcome: Option<string>,
    closedBy: Option<string>,
    approved: bool,
    requiresApproval: bool)

  function Announce(expired: bool, closedBy: Option<string>, approved: bool, withoutApproval: bool): Announcement {
    Announcement(expired, Some(Code(Resolve(closedBy, approved, withoutApproval))), closedBy, approved, false)
  }

  /** The same event as platforms that had no outcome sent it. */
  function Undeclared(a: Announcement): Announcement { a.(outcome := None) }

  function FromCode(code: string): Option<Outcome> {
    if code == Code(CompletedApproved) then Some(CompletedApproved)
    else if code == Code(TurnsExhausted) then Some(TurnsExhausted)
    else if code == Code(Expired) then Some(Expired)
    else if code == Code(ClosedByParticipant) then Some(ClosedByParticipant)
    else if code == Code(ClosedUnapproved) then Some(ClosedUnapproved)
    else None
  }

  /** `read_close_outcome`, in the reactor. */
  function ReadCloseOutcome(a: Announcement): Outcome {
    if a.outcome.Some? && a.outcome.value != "" && FromCode(a.outcome.value).Some?
    then FromCode(a.outcome.value).value
    else
      var who := if a.closedBy.Some? then a.closedBy.value else "";
      if who == BY_APPROVAL then CompletedApproved
      else if who == BY_TURNS then (if a.approved then CompletedApproved else TurnsExhausted)
      else if who == BY_EXPIRY || a.expired then Expired
      else if a.requiresApproval && !a.approved then ClosedUnapproved
      else ClosedByParticipant
  }

  /** `work_was_accepted`. */
  predicate WorkWasAccepted(o: Outcome) { o == CompletedApproved }

  lemma CodesDiffer(o: Outcome)
    ensures FromCode(Code(o)) == Some(o)
  {
    assert |Code(CompletedApproved)| == 18 && |Code(TurnsExhausted)| == 15 && |Code(Expired)| == 7;
    assert |Code(ClosedByParticipant)| == 21 && |Code(ClosedUnapproved)| == 17;
  }

  /** The reactor reads a declared outcome as it was meant. */
  lemma DeclaredIsRead(expired: bool, closedBy: Option<string>, approved: bool, withoutApproval: bool)
    ensures ReadCloseOutcome(Announce(expired, closedBy, approved, withoutApproval))
      == Resolve(closedBy, approved, withoutApproval)
  {
    CodesDiffer(Resolve(closedBy, approved, withoutApproval));
  }

  /** Without the outcome field the reactor infers the same one exactly when the
      closure was not a refusal of the work, and an expiry says who closed it. */
  lemma InferredExactly(expired: bool, closedBy: Option<string>, approved: bool, withoutApproval: bool)
    ensures ReadCloseOutcome(Undeclared(Announce(expired, closedBy, approved, withoutApproval)))
              == Resolve(closedBy, approved, withoutApproval)
       <==> !withoutApproval && (expired ==> closedBy in {Some(BY_APPROVAL), Some(BY_TURNS), Some(BY_EXPIRY)})
  {
  }

  /** On whether the work was accepted the two disagree only about a refusal
      that the platform itself is said to have closed as complete. */
  lemma AcceptanceInferredExactly(expired: bool, closedBy: Option<string>, approved: bool, withoutApproval: bool)
    ensures WorkWasAccepted(ReadCloseOutcome(Undeclared(Announce(expired, closedBy, approved, withoutApproval))))
              == IsSuccess(Resolve(closedBy, approved, withoutApproval))
       <==> !(withoutApproval && (closedBy == Some(BY_APPROVAL) || (closedBy == Some(BY_TURNS) && approved)))
  {
  }

  // ---- The outcomes by name ----

  /** How a contract ended, from who closed it, whether it was approved, and
      whether it was closed without approval. */
  lemma ResolvedExactly(closedBy: Option<string>, approved: bool, withoutApproval: bool)
    ensures Code(Resolve(closedBy, approved, withoutApproval))
         == if withoutApproval then "closed-unapproved"
            else if closedBy == Some("system:completion-approved") then "completed-approved"
            else if closedBy == Some("system:max-turns") then
              (if approved then "completed-approved" else "turns-exhausted")
            else if closedBy == Some("system:expiry") then "expired"
            else "closed-by-participant"
  {
  }

  const CODES: set<string> := {"completed-approved", "turns-exhausted", "expired", "closed-by-participant",
                               "closed-unapproved"}

  /** The reactor takes a code it knows as it is, and works out any other closure
      from the rest of the event. */
  lemma ReadExactly(a: Announcement)
    ensures Code(ReadCloseOutcome(a))
         == if a.outcome.Some? && a.outcome.value in CODES then a.outcome.value
            else if a.closedBy == Some("system:completion-approved") then "completed-approved"
            else if a.closedBy == Some("system:max-turns") then
              (if a.approved then "completed-approved" else "turns-exhausted")
            else if a.closedBy == Some("system:expiry") || a.expired then "expired"
            else if a.requiresApproval && !a.approved then "closed-unapproved"
            else "closed-by-participant"
  {
    assert "" !in CODES;
  }

  /** Only a completion that was approved counts as accepted work. */
  lemma AcceptedExactly(o: Outcome)
    ensures WorkWasAccepted(o) <==> Code(o) == "completed-approved"
    ensures IsSuccess(o) <==> Code(o) == "completed-approved"
  {
    CodesDiffer(o);
    CodesDiffer(CompletedApproved);
  }

  /** A pending gate lets only its proposer, or an operator, close, who refuses the
      work and says why in at least ten characters. */
  lemma GatedExactly(pending: bool, isProposer: bool, withoutApproval: bool, reason: Option<string>)
    ensures var refused := isProposer && withoutApproval && reason.Some? && Units(Trim(reason.value)) >= 10;
      EvaluateGatedClose(pending, isProposer, withoutApproval, reason)
      == if !pending || refused then Allowed(pending) else Refused(409, "COMPLETION_APPROVAL_REQUIRED")
  {
    assert Trim("") == "";
  }
}
