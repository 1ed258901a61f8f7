/** The life of one contract: invitations, messages, closings and expiry, each
    statement on the database one step, the steps of different requests
    interleaving freely. */
module Lifecycle {
  import opened Text
  import opened Closure
  import opened TurnState

  // ---- Who may do what ----

  datatype Mutation = AcceptIt | RejectIt | CancelIt | SendMessage | CloseIt | UploadAttachment

  datatype Decision = Permit | Forbid(status: nat, code: string)

  /** `evaluateContractParticipantMutation`. */
  function MayMutate(m: Mutation, p: Participant): Decision {
    match m
    case AcceptIt => MayAnswer(p)
    case RejectIt => MayAnswer(p)
    case CancelIt => if p.role == Proposer then Permit else Forbid(403, "FORBIDDEN")
    case SendMessage => if p.role == Observer then Forbid(403, "FORBIDDEN") else Permit
    case CloseIt => if p.role == Observer then Forbid(403, "FORBIDDEN") else Permit
    case UploadAttachment => if p.role == Observer then Forbid(403, "FORBIDDEN") else Permit
  }

  function MayAnswer(p: Participant): Decision {
    if p.role == Observer || p.role == Proposer then Forbid(403, "FORBIDDEN")
    else if p.answer != Pending then Forbid(409, "ALREADY_RESPONDED")
    else Permit
  }

  // ---- State ----

  datatype Kind = Turn | Request | Receipt | Approval

  /** An agent, whose name is a slug, or an operator, whose name is the e-mail
      address of the session. */
  datatype Actor = ByAgent(agent: Agent, name: string) | ByOperator(name: string)

  datatype Closing = Closing(actor: Actor, withoutApproval: bool, reason: Option<string>, sawApproval: bool)

  type Req = string

  datatype State = State(
    contract: Contract,
    closedBy: Option<string>,
    withoutApproval: bool,
    approvedBy: Option<Agent>,
    participants: seq<Participant>,
    messages: seq<Message>,
    questions: seq<Agent>,
    closers: map<Req, Closing>,
    expirers: map<Req, ContractStatus>,
    approvers: set<Agent>,
    closings: seq<Closing>,
    announced: seq<Announcement>)

  datatype Action =
    | AnswerInvite(agent: Agent, yes: bool)
    | Activate
    | RejectContract(name: string)
    | CancelContract(agent: Agent, name: string)
    | Send(agent: Agent, kind: Kind, requiresAction: Option<bool>)
    | SetQuestions(questions: seq<Agent>)
    | BeginClose(req: Req, actor: Actor, without: bool, reason: Option<string>)
    | CommitClose(req: Req)
    | BeginExpiry(req: Req)
    | CommitExpiry(req: Req)
    | Sweep
    | OldSweep
    | KillSwitch(active: bool)

  /** The names under which the kill switch and the older sweep script close;
      the classifier knows neither. */
  const BY_KILL_SWITCH := "system:kill-switch"
  const BY_OLD_SWEEP := "system:expiry-sweep"

  const SYSTEM_NAMES: set<string> := {BY_APPROVAL, BY_TURNS, BY_EXPIRY, BY_KILL_SWITCH, BY_OLD_SWEEP}

  predicate NameChar(c: char) { 'a' <= c <= 'z' || '0' <= c <= '9' || c == '_' || c == '-' }

  /** The names agents can register. */
  predicate Slug(name: string) {
    name != "" && name[0] != '_' && name[0] != '-' && forall i :: 0 <= i < |name| ==> NameChar(name[i])
  }

  /** What a login accepts for an address always holds. */
  predicate Address(name: string) { '@' in name }

  predicate Named(actor: Actor) {
    match actor
    case ByAgent(_, name) => Slug(name)
    case ByOperator(name) => Address(name)
  }

  predicate Initial(s: State) {
    s.contract.status == Proposed && s.contract.currentTurns == 0 && !s.contract.approved
    && s.closedBy == None && !s.withoutApproval && s.approvedBy == None
    && Seated(s.participants, s.contract.proposer)
    && s.messages == [] && s.closers == map[] && s.expirers == map[]
    && s.approvers == {} && s.closings == [] && s.announced == []
  }

  /** The proposer and nobody else has the proposer's role; no agent twice. */
  predicate Seated(ps: seq<Participant>, proposer: Agent) {
    Distinct(ps) && ps != [] && ps[0].agent == proposer && ps[0].role == Proposer && ps[0].answer == Accepted
    && forall i :: 0 < i < |ps| ==> ps[i].role != Proposer
  }

  function Find(ps: seq<Participant>, a: Agent): Option<nat> {
    if ps == [] then None
    else if ps[0].agent == a then Some(0)
    else
      match Find(ps[1..], a)
      case None => None
      case Some(i) => Some(i + 1)
  }

  lemma {:induction false} FindSound(ps: seq<Participant>, a: Agent)
    ensures Find(ps, a).Some? ==> Find(ps, a).value < |ps| && ps[Find(ps, a).value].agent == a
    ensures Find(ps, a).None? ==> forall i :: 0 <= i < |ps| ==> ps[i].agent != a
  {
    if ps != [] {
      FindSound(ps[1..], a);
    }
  }

  function Permission(s: State, a: Agent, m: Mutation): Decision {
    match Find(s.participants, a)
    case None => Forbid(404, "NOT_FOUND")
    case Some(i) => if i < |s.participants| then MayMutate(m, s.participants[i]) else Forbid(404, "NOT_FOUND")
  }

  predicate GatePending(c: Contract) { c.gated && !c.approved }

  function GateFor(c: Contract, a: Action): Gate
    requires a.BeginClose?
  {
    EvaluateGatedClose(GatePending(c), a.actor.ByOperator? || a.actor.agent == c.proposer, a.without, a.reason)
  }

  predicate Consumes(k: Kind) { k != Receipt && k != Approval }

  /** A step can be taken when its request got that far. An answer, and a close
      or expiry once begun, acts on what it read before. */
  predicate Enabled(s: State, a: Action) {
    match a
    case AnswerInvite(agent, yes) => Permission(s, agent, if yes then AcceptIt else RejectIt) == Permit
    case Activate => forall i :: 0 <= i < |s.participants| ==> s.participants[i].answer == Accepted
    case RejectContract(name) =>
      Slug(name) && exists i :: 0 <= i < |s.participants| && s.participants[i].answer == Answer.Refused
    case CancelContract(agent, name) => Slug(name) && Permission(s, agent, CancelIt) == Permit
    case Send(agent, kind, _) => Permission(s, agent, SendMessage) == Permit
    case SetQuestions(_) => true
    case BeginClose(req, actor, _, _) =>
      req !in s.closers && s.contract.status == Active && GateFor(s.contract, a).Allowed?
      && Named(actor) && (actor.ByAgent? ==> Permission(s, actor.agent, CloseIt) == Permit)
    case CommitClose(req) => req in s.closers
    case BeginExpiry(req) => req !in s.expirers && (s.contract.status == Proposed || s.contract.status == Active)
    case CommitExpiry(req) => req in s.expirers
    case Sweep => true
    case OldSweep => true
    case KillSwitch(_) => true
  }

  /** `insert_message_atomic`: the message, the turn it costs, the approval it
      records and the closing it brings about, in one statement. */
  function SendStep(s: State, agent: Agent, kind: Kind, requiresAction: Option<bool>): State {
    var c := s.contract;
    var approves := kind == Approval;
    if c.status != Active || (Consumes(kind) && Spent(c)) || (approves && agent != c.proposer) then s
    else
      var asks := if !Consumes(kind) then false else if kind == Request then true
                      else if requiresAction.Some? then requiresAction.value else true;
      var turns := c.currentTurns + (if Consumes(kind) then 1 else 0);
      var approved := c.approved || approves;
      var by' := if approves && !c.approved then Some(agent) else s.approvedBy;
      var completes := approves && c.gated && Spent(c);
      var exhausts := Consumes(kind) && turns >= c.maxTurns && !(c.gated && !approved);
      var ends := completes || exhausts;
      var closedBy := if completes then Some(BY_APPROVAL) else if exhausts then Some(BY_TURNS) else s.closedBy;
      s.(contract := c.(currentTurns := turns, approved := approved, status := if ends then Closed else Active),
         approvedBy := by', closedBy := closedBy,
         messages := s.messages + [Message(agent, Some(asks), Some(Consumes(kind)))],
         approvers := if approves then s.approvers + {agent} else s.approvers,
         announced := if ends then s.announced + [Announce(false, closedBy, approved, false)] else s.announced)
  }

  /** The close route's update: only while active, and a refusal of the work
      only while no approval is recorded. */
  function CloseStep(s: State, req: Req): State
    requires req in s.closers
  {
    var k := s.closers[req];
    var t := s.(closers := s.closers - {req});
    if s.contract.status != Active || (k.withoutApproval && s.contract.approved) then t
    else
      t.(contract := s.contract.(status := Closed), closedBy := Some(k.actor.name),
        withoutApproval := k.withoutApproval,
         closings := s.closings + [k],
         announced := s.announced + [Announce(false, Some(k.actor.name), k.sawApproval, k.withoutApproval)])
  }

  function Expire(s: State, seen: ContractStatus): State {
    s.(contract := s.contract.(status := if seen == Proposed then ContractStatus.Expired else Closed),
      closedBy := Some(BY_EXPIRY),
       announced := s.announced + [Announce(seen == Proposed, Some(BY_EXPIRY), s.contract.approved, false)])
  }

  /** The older sweep script announces nothing. */
  function OldSweepStep(s: State): State {
    if s.contract.status != Proposed && s.contract.status != Active then s
    else
      s.(contract := s.contract.(status := if s.contract.status == Proposed then ContractStatus.Expired else Closed),
         closedBy := Some(BY_OLD_SWEEP))
  }

  /** The kill switch closes whatever is active, then cancels whatever is
      proposed, in two statements; it looks at no gate and announces nothing. */
  function KillStep(s: State, active: bool): State {
    if active && s.contract.status == Active
    then s.(contract := s.contract.(status := Closed), closedBy := Some(BY_KILL_SWITCH))
    else if !active then EndProposed(s, Cancelled, BY_KILL_SWITCH)
    else s
  }

  function AnswerStep(ps: seq<Participant>, a: Agent, answer: Answer): seq<Participant> {
    match Find(ps, a)
    case None => ps
    case Some(i) => if i < |ps| && ps[i].answer == Pending then ps[i := ps[i].(answer := answer)] else ps
  }

  function EndProposed(s: State, status: ContractStatus, name: string): State {
    if s.contract.status != Proposed then s
    else s.(contract := s.contract.(status := status), closedBy := Some(name))
  }

  function Apply(s: State, a: Action): State
    requires Enabled(s, a)
  {
    match a
    case AnswerInvite(agent, yes) =>
      s.(participants := AnswerStep(s.participants, agent, if yes then Accepted else Answer.Refused))
    case Activate => if s.contract.status == Proposed then s.(contract := s.contract.(status := Active)) else s
    case RejectContract(name) => EndProposed(s, Rejected, name)
    case CancelContract(agent, name) => EndProposed(s, Cancelled, name)
    case Send(agent, kind, requiresAction) => SendStep(s, agent, kind, requiresAction)
    case SetQuestions(qs) => s.(questions := qs)
    case BeginClose(req, actor, _, reason) =>
      var k := Closing(actor, GateFor(s.contract, a).withoutApproval, reason, s.contract.approved);
      s.(closers := s.closers[req := k])
    case CommitClose(req) => CloseStep(s, req)
    case BeginExpiry(req) => s.(expirers := s.expirers[req := s.contract.status])
    case CommitExpiry(req) => Expire(s.(expirers := s.expirers - {req}), s.expirers[req])
    case Sweep =>
      if s.contract.status == Proposed || s.contract.status == Active then Expire(s, s.contract.status) else s
    case OldSweep => OldSweepStep(s)
    case KillSwitch(active) => KillStep(s, active)
  }

  predicate Runs(s: State, run: seq<Action>)
    decreases |run|
  {
    run == [] || (Enabled(s, run[0]) && Runs(Apply(s, run[0]), run[1..]))
  }

  function After(s: State, run: seq<Action>): State
    requires Runs(s, run)
    decreases |run|
  {
    if run == [] then s else After(Apply(s, run[0]), run[1..])
  }

  // ---- What every step keeps ----

  function OutcomeOf(s: State): Outcome { Resolve(s.closedBy, s.contract.approved, s.withoutApproval) }

  function ViewOf(s: State): View {
    View(s.contract, s.participants, if s.messages == [] then None else Some(s.messages[|s.messages| - 1]), s.questions)
  }

  function TurnsTaken(ms: seq<Message>): nat {
    if ms == [] then 0 else TurnsTaken(ms[..|ms| - 1]) + (if ms[|ms| - 1].consumesTurn == Some(true) then 1 else 0)
  }

  /** The proposer, or an operator, said why the work is not accepted. */
  predicate Refusal(k: Closing, proposer: Agent) {
    k.withoutApproval && Reasoned(k.reason) && (k.actor.ByAgent? ==> k.actor.agent == proposer)
  }

  predicate ApprovalInv(s: State) {
    s.contract.approved ==> s.approvedBy == Some(s.contract.proposer) && s.contract.proposer in s.approvers
  }

  predicate ClosersInv(s: State) {
    forall r :: r in s.closers ==> CloserInv(s, s.closers[r])
  }

  predicate CloserInv(s: State, k: Closing) {
    Named(k.actor)
    && (k.withoutApproval ==> s.contract.gated && Refusal(k, s.contract.proposer))
    && (!k.withoutApproval && s.contract.gated ==> s.contract.approved)
    && (k.sawApproval ==> s.contract.approved)
  }

  predicate EndInv(s: State) {
    (s.closedBy == Some(BY_APPROVAL) ==> s.contract.approved)
    && (s.contract.status == Closed && s.contract.gated && !s.withoutApproval && !s.contract.approved ==>
          s.closedBy in {Some(BY_EXPIRY), Some(BY_KILL_SWITCH), Some(BY_OLD_SWEEP)})
    && |s.closings| <= 1 && (s.closings == [] ==> !s.withoutApproval)
    && (s.closings != [] ==> Ended(s.contract.status) && s.closings[0].withoutApproval == s.withoutApproval)
    && (s.withoutApproval ==> s.contract.gated && !s.contract.approved && Refusal(s.closings[0], s.contract.proposer))
    && (s.withoutApproval ==> s.closedBy == Some(BY_EXPIRY) || (s.closedBy.Some? && s.closedBy.value !in SYSTEM_NAMES))
  }

  predicate TurnsInv(s: State) {
    s.contract.currentTurns == TurnsTaken(s.messages)
    && (s.messages != [] && s.contract.currentTurns > 0 ==> s.contract.currentTurns <= s.contract.maxTurns)
    && (s.contract.maxTurns >= 1 && s.contract.status == Active && Spent(s.contract) ==> GatePending(s.contract))
    && (s.contract.status == Proposed ==> s.contract.currentTurns == 0)
  }

  predicate SeatsInv(s: State) {
    Seated(s.participants, s.contract.proposer)
    && forall i :: 0 <= i < |s.messages| ==> Takes(s.participants, s.messages[i].sender)
  }

  predicate ExpirersInv(s: State) {
    forall r :: r in s.expirers ==> s.expirers[r] == Proposed || s.expirers[r] == Active
  }

  /** An announced success is an approved one; a refusal is said to be closed by
      whoever closed it. */
  predicate AnnouncementInv(s: State, x: Announcement) {
    exists w: bool :: x == Announce(x.expired, x.closedBy, x.approved, w)
      && (x.expired ==> x.closedBy == Some(BY_EXPIRY))
      && (x.approved ==> s.contract.approved)
      && (x.closedBy == Some(BY_APPROVAL) ==> s.contract.approved)
      && (w ==> x.closedBy != Some(BY_APPROVAL) && x.closedBy != Some(BY_TURNS))
  }

  predicate AnnouncedInv(s: State) {
    forall i :: 0 <= i < |s.announced| ==> AnnouncementInv(s, s.announced[i])
  }

  predicate Inv(s: State) {
    ApprovalInv(s) && ClosersInv(s) && EndInv(s) && TurnsInv(s) && SeatsInv(s) && ExpirersInv(s) && AnnouncedInv(s)
  }

  /** A colon, which no slug has, and no '@', which every address has. */
  predicate SystemLike(name: string) {
    |name| > 6 && name[6] == ':' && forall i :: 0 <= i < |name| ==> name[i] != '@'
  }

  lemma ClosingNamesAreSystemLike()
    ensures SystemLike(BY_APPROVAL) && SystemLike(BY_TURNS) && SystemLike(BY_EXPIRY)
  {
  }

  lemma SweepingNamesAreSystemLike()
    ensures SystemLike(BY_KILL_SWITCH) && SystemLike(BY_OLD_SWEEP)
  {
  }

  lemma NamedIsNot(actor: Actor, name: string)
    requires Named(actor) && SystemLike(name)
    ensures actor.name != name
  {
    assert actor.ByAgent? ==> (|actor.name| > 6 ==> NameChar(actor.name[6]));
  }

  /** Nobody who closes a contract bears a name of the system. */
  lemma NamedIsNoSystem(actor: Actor)
    requires Named(actor)
    ensures actor.name !in SYSTEM_NAMES
  {
    ClosingNamesAreSystemLike();
    SweepingNamesAreSystemLike();
    NamedIsNot(actor, BY_APPROVAL);
    NamedIsNot(actor, BY_TURNS);
    NamedIsNot(actor, BY_EXPIRY);
    NamedIsNot(actor, BY_KILL_SWITCH);
    NamedIsNot(actor, BY_OLD_SWEEP);
  }

  lemma StepEnd(s: State, a: Action)
    requires Inv(s) && Enabled(s, a)
    ensures EndInv(Apply(s, a))
  {
    if a.CommitClose? {
      var k := s.closers[a.req];
      assert CloserInv(s, k);
      EndByClose(s, k, a.req);
    } else if a.RejectContract? || a.CancelContract? {
      NamedIsNoSystem(ByAgent("", a.name));
    }
  }

  lemma EndByClose(s: State, k: Closing, req: Req)
    requires EndInv(s) && req in s.closers && k == s.closers[req] && CloserInv(s, k)
    ensures EndInv(CloseStep(s, req))
  {
    var t := CloseStep(s, req);
    if t.closings != s.closings {
      assert t.closings[|s.closings|] == k;
      NamedIsNoSystem(k.actor);
    }
  }

  lemma StepTurns(s: State, a: Action)
    requires Inv(s) && Enabled(s, a)
    ensures TurnsInv(Apply(s, a))
  {
    if !a.Send? {
      assert Apply(s, a).messages == s.messages;
      assert Apply(s, a).contract.currentTurns == s.contract.currentTurns;
    }
  }

  lemma TakesKept(ps: seq<Participant>, qs: seq<Participant>, a: Agent)
    requires |ps| == |qs| && Takes(ps, a)
    requires forall i :: 0 <= i < |ps| ==> ps[i].agent == qs[i].agent && ps[i].role == qs[i].role
    ensures Takes(qs, a)
  {
    var i :| 0 <= i < |ps| && ps[i].agent == a && ps[i].role != Observer;
    assert qs[i].agent == a;
  }

  lemma AnswerSeats(s: State, agent: Agent, yes: bool)
    requires SeatsInv(s) && Enabled(s, AnswerInvite(agent, yes))
    ensures SeatsInv(Apply(s, AnswerInvite(agent, yes)))
  {
    var t := Apply(s, AnswerInvite(agent, yes));
    FindSound(s.participants, agent);
    forall i | 0 <= i < |t.messages| ensures Takes(t.participants, t.messages[i].sender) {
      TakesKept(s.participants, t.participants, t.messages[i].sender);
    }
  }

  lemma SendSeats(s: State, agent: Agent, kind: Kind, requiresAction: Option<bool>)
    requires SeatsInv(s) && Enabled(s, Send(agent, kind, requiresAction))
    ensures SeatsInv(SendStep(s, agent, kind, requiresAction))
  {
    FindSound(s.participants, agent);
    assert Takes(s.participants, agent);
  }

  lemma StepSeats(s: State, a: Action)
    requires SeatsInv(s) && Enabled(s, a)
    ensures SeatsInv(Apply(s, a))
  {
    match a
    case AnswerInvite(agent, yes) => AnswerSeats(s, agent, yes);
    case Send(agent, kind, requiresAction) => SendSeats(s, agent, kind, requiresAction);
    case _ =>
  }

  lemma StepApproval(s: State, a: Action)
    requires Inv(s) && Enabled(s, a)
    ensures ApprovalInv(Apply(s, a))
  {
  }

  /** Approval stays, and the rest of what a closer looked at is fixed. */
  lemma TermsKept(s: State, a: Action)
    requires Enabled(s, a)
    ensures var c, d := s.contract, Apply(s, a).contract;
      d.gated == c.gated && d.proposer == c.proposer && (c.approved ==> d.approved)
  {
  }

  lemma NewCloser(s: State, a: Action, r: Req)
    requires Enabled(s, a) && r in Apply(s, a).closers && (r in s.closers ==> Apply(s, a).closers[r] != s.closers[r])
    ensures CloserInv(Apply(s, a), Apply(s, a).closers[r])
  {
  }

  lemma StepClosers(s: State, a: Action)
    requires ClosersInv(s) && Enabled(s, a)
    ensures ClosersInv(Apply(s, a))
  {
    var t := Apply(s, a);
    TermsKept(s, a);
    forall r | r in t.closers ensures CloserInv(t, t.closers[r]) {
      if r in s.closers && t.closers[r] == s.closers[r] {
        assert CloserInv(s, s.closers[r]);
      } else {
        NewCloser(s, a, r);
      }
    }
  }

  lemma StepExpirers(s: State, a: Action)
    requires ExpirersInv(s) && Enabled(s, a)
    ensures ExpirersInv(Apply(s, a))
  {
  }

  lemma StepAnnounced(s: State, a: Action)
    requires Inv(s) && Enabled(s, a)
    ensures AnnouncedInv(Apply(s, a))
  {
    var t := Apply(s, a);
    forall i | 0 <= i < |t.announced| ensures AnnouncementInv(t, t.announced[i]) {
      if i >= |s.announced| {
        NewAnnouncement(s, a);
      }
    }
  }

  lemma NewAnnouncement(s: State, a: Action)
    requires Inv(s) && Enabled(s, a) && |Apply(s, a).announced| > |s.announced|
    ensures AnnouncementInv(Apply(s, a), Apply(s, a).announced[|s.announced|])
    ensures |Apply(s, a).announced| == |s.announced| + 1
  {
    var t := Apply(s, a);
    var x := t.announced[|s.announced|];
    if a.CommitClose? {
      var k := s.closers[a.req];
      assert CloserInv(s, k);
      NamedIsNoSystem(k.actor);
      assert x == Announce(x.expired, x.closedBy, x.approved, k.withoutApproval);
    } else {
      assert x == Announce(x.expired, x.closedBy, x.approved, false);
    }
  }

  lemma StepInv(s: State, a: Action)
    requires Inv(s) && Enabled(s, a)
    ensures Inv(Apply(s, a))
  {
    StepApproval(s, a);
    StepClosers(s, a);
    StepEnd(s, a);
    StepTurns(s, a);
    StepSeats(s, a);
    StepExpirers(s, a);
    StepAnnounced(s, a);
  }

  lemma {:induction false} RunInv(s: State, run: seq<Action>)
    requires Inv(s) && Runs(s, run)
    ensures Inv(After(s, run))
    decreases |run|
  {
    if run != [] {
      StepInv(s, run[0]);
      RunInv(Apply(s, run[0]), run[1..]);
    }
  }

  // ---- What holds in every run ----

  /** A contract counts as completed only if its proposer recorded approval. */
  lemma CompletedMeansApproved(s: State, run: seq<Action>)
    requires Initial(s) && Runs(s, run) && OutcomeOf(After(s, run)) == CompletedApproved
    ensures var t := After(s, run);
      t.contract.approved && t.approvedBy == Some(t.contract.proposer) && t.contract.proposer in t.approvers
  {
    RunInv(s, run);
  }

  /** At most one request closes a contract, and the contract counts as closed
      unapproved exactly when that one refused the work: then it was gated and
      never approved, and its proposer, or an operator, gave a reason of at least
      ten characters. */
  lemma UnapprovedMeansRefused(s: State, run: seq<Action>)
    requires Initial(s) && Runs(s, run)
    ensures var t := After(s, run);
      |t.closings| <= 1 && (OutcomeOf(t) == ClosedUnapproved <==> t.closings != [] && t.closings[0].withoutApproval)
    ensures var t := After(s, run);
      OutcomeOf(t) == ClosedUnapproved ==>
        t.contract.gated && !t.contract.approved && Ended(t.contract.status)
          && Refusal(t.closings[0], t.contract.proposer)
  {
    RunInv(s, run);
  }

  /** A closed gated contract was never ended by its budget, and counts as
      completed only if approved. Unapproved, it counts as closed by a participant
      exactly when the kill switch or the older sweep script closed it: those two
      pass the gate, under names the classifier does not know. */
  lemma GateHoldsExactly(s: State, run: seq<Action>)
    requires Initial(s) && Runs(s, run)
    requires var t := After(s, run); t.contract.gated && t.contract.status == Closed
    ensures var t := After(s, run);
      OutcomeOf(t) != TurnsExhausted && (OutcomeOf(t) == CompletedApproved ==> t.contract.approved)
    ensures var t := After(s, run);
      !t.contract.approved ==>
        (OutcomeOf(t) == ClosedByParticipant <==> t.closedBy in {Some(BY_KILL_SWITCH), Some(BY_OLD_SWEEP)})
  {
    RunInv(s, run);
  }

  /** Those names are signed by those steps alone. */
  lemma SignedByTheirSteps(s: State, a: Action)
    requires Inv(s) && Enabled(s, a) && Apply(s, a).closedBy != s.closedBy
    ensures Apply(s, a).closedBy == Some(BY_KILL_SWITCH) <==> a.KillSwitch?
    ensures Apply(s, a).closedBy == Some(BY_OLD_SWEEP) <==> a.OldSweep?
  {
    if a.CommitClose? {
      assert CloserInv(s, s.closers[a.req]);
      NamedIsNoSystem(s.closers[a.req].actor);
    } else if a.RejectContract? || a.CancelContract? {
      NamedIsNoSystem(ByAgent("", a.name));
    }
  }

  /** The input: the kill switch on an active contract that waits for approval. */
  lemma KillSwitchPassesTheGate(s: State)
    requires Inv(s) && s.contract.status == Active && GatePending(s.contract)
    ensures var t := Apply(s, KillSwitch(true));
      t.contract.status == Closed && t.contract.gated && !t.contract.approved && OutcomeOf(t) == ClosedByParticipant
  {
    assert s.closings == [];
    assert BY_KILL_SWITCH[7] == 'k' && BY_APPROVAL[7] == 'c' && BY_TURNS[7] == 'm' && BY_EXPIRY[7] == 'e';
  }

  /** What can end a contract whose gate is pending: its proposer's approval once
      the budget is spent, a refusal, an expiry, or the kill switch. */
  predicate PassesGate(s: State, a: Action)
    requires Enabled(s, a)
  {
    match a
    case Send(agent, kind, _) => agent == s.contract.proposer && kind == Approval && Spent(s.contract)
    case CommitClose(req) => s.closers[req].withoutApproval
    case CommitExpiry(_) => true
    case Sweep => true
    case OldSweep => true
    case KillSwitch(active) => active
    case _ => false
  }

  lemma GateEndsExactly(s: State, a: Action)
    requires Inv(s) && Enabled(s, a) && s.contract.status == Active && GatePending(s.contract)
    ensures Ended(Apply(s, a).contract.status) <==> PassesGate(s, a)
  {
    if a.CommitClose? {
      assert CloserInv(s, s.closers[a.req]);
    }
  }

  /** The turns of a contract are its turn-taking messages, and never more than
      its budget. */
  lemma TurnsAreCounted(s: State, run: seq<Action>)
    requires Initial(s) && Runs(s, run)
    ensures var t := After(s, run);
      t.contract.currentTurns == TurnsTaken(t.messages)
      && (t.contract.currentTurns > 0 ==> t.contract.currentTurns <= t.contract.maxTurns)
  {
    RunInv(s, run);
  }

  /** An ended contract stays ended, and only an expiry that had read it before
      it ended changes how: whatever was recorded becomes an expiry, unless the
      work was refused. */
  lemma EndedChangesOnlyByExpiry(s: State, a: Action)
    requires Inv(s) && Enabled(s, a) && Ended(s.contract.status)
    ensures var t := Apply(s, a);
      Ended(t.contract.status)
      && (OutcomeOf(t) != OutcomeOf(s)
        <==> a.CommitExpiry? && OutcomeOf(s) != Outcome.Expired && OutcomeOf(s) != ClosedUnapproved)
      && (OutcomeOf(t) != OutcomeOf(s) ==> OutcomeOf(t) == Outcome.Expired)
  {
  }

  lemma {:induction false} EndedForGood(s: State, run: seq<Action>)
    requires Inv(s) && Runs(s, run) && Ended(s.contract.status)
    ensures Ended(After(s, run).contract.status)
    decreases |run|
  {
    if run != [] {
      EndedChangesOnlyByExpiry(s, run[0]);
      StepInv(s, run[0]);
      EndedForGood(Apply(s, run[0]), run[1..]);
    }
  }

  /** The run in which an approved, completed contract is written over: the
      expiry read it while it was waiting for that approval. */
  lemma LateExpiryHidesApproval(s: State, req: Req)
    requires Inv(s) && s.contract.status == Active && GatePending(s.contract) && Spent(s.contract) && req !in s.expirers
    ensures var run := [BeginExpiry(req), Send(s.contract.proposer, Approval, None), CommitExpiry(req)];
      Runs(s, run) && Runs(s, run[..2]) && OutcomeOf(After(s, run[..2])) == CompletedApproved
      && OutcomeOf(After(s, run)) == Outcome.Expired
  {
    var begin, send, commit := BeginExpiry(req), Send(s.contract.proposer, Approval, None), CommitExpiry(req);
    var s1 := Apply(s, begin);
    var s2 := ApprovedWhileExpiring(s, req);
    RunsCons(s2, commit, []);
    RunsCons(s1, send, [commit]);
    RunsCons(s1, send, []);
    RunsCons(s, begin, [send, commit]);
    RunsCons(s, begin, [send]);
    assert [begin] + [send, commit] == [begin, send, commit] && [begin] + [send] == [begin, send, commit][..2];
    assert [send] + [commit] == [send, commit];
  }

  lemma ApprovedWhileExpiring(s: State, req: Req) returns (t: State)
    requires Inv(s) && s.contract.status == Active && GatePending(s.contract) && Spent(s.contract) && req !in s.expirers
    ensures var a := Send(s.contract.proposer, Approval, None);
      Enabled(s, BeginExpiry(req)) && Enabled(Apply(s, BeginExpiry(req)), a)
        && t == Apply(Apply(s, BeginExpiry(req)), a)
    ensures Enabled(t, CommitExpiry(req)) && OutcomeOf(t) == CompletedApproved
    ensures OutcomeOf(Apply(t, CommitExpiry(req))) == Outcome.Expired
  {
    t := Apply(Apply(s, BeginExpiry(req)), Send(s.contract.proposer, Approval, None));
  }

  lemma RunsCons(s: State, a: Action, rest: seq<Action>)
    requires Enabled(s, a) && Runs(Apply(s, a), rest)
    ensures Runs(s, [a] + rest) && After(s, [a] + rest) == After(Apply(s, a), rest)
  {
    assert ([a] + rest)[1..] == rest;
  }

  // ---- No contract is stuck ----

  /** A gated contract with its budget spent waits for its proposer, whoever
      looks, unless the proposer waits for a person; and that proposer can
      complete it by approving. */
  lemma ProposerCanApprove(s: State, run: seq<Action>)
    requires Initial(s) && Runs(s, run)
    requires var t := After(s, run); t.contract.status == Active && GatePending(t.contract) && Spent(t.contract)
    ensures var t := After(s, run); var proposer := t.contract.proposer;
      forall viewer :: Derive(ViewOf(t), viewer).agent == if proposer in t.questions then None else Some(proposer)
    ensures var t := After(s, run); var a := Send(t.contract.proposer, Approval, None);
      Enabled(t, a) && Apply(t, a).contract.status == Closed && OutcomeOf(Apply(t, a)) == CompletedApproved
  {
    RunInv(s, run);
  }

  lemma RefusalGoesAhead(t: State, req: Req, name: string, reason: Option<string>)
    requires SeatsInv(t)
    requires t.contract.status == Active && GatePending(t.contract) && req !in t.closers && Slug(name)
    ensures var a := BeginClose(req, ByAgent(t.contract.proposer, name), true, reason);
      (Enabled(t, a) <==> Reasoned(reason))
      && (Reasoned(reason) ==>
            Apply(Apply(t, a), CommitClose(req)).contract.status == Closed
            && OutcomeOf(Apply(Apply(t, a), CommitClose(req))) == ClosedUnapproved)
  {
  }

  /** Or can close it unapproved, exactly when it says why. */
  lemma ProposerCanRefuseExactly(s: State, run: seq<Action>, req: Req, name: string, reason: Option<string>)
    requires Initial(s) && Runs(s, run) && Slug(name)
    requires var t := After(s, run); t.contract.status == Active && GatePending(t.contract) && req !in t.closers
    ensures var t := After(s, run); var a := BeginClose(req, ByAgent(t.contract.proposer, name), true, reason);
      Enabled(t, a) <==> Reasoned(reason)
    ensures var t := After(s, run); var a := BeginClose(req, ByAgent(t.contract.proposer, name), true, reason);
      Reasoned(reason) ==> Apply(Apply(t, a), CommitClose(req)).contract.status == Closed
                           && OutcomeOf(Apply(Apply(t, a), CommitClose(req))) == ClosedUnapproved
  {
    RunInv(s, run);
    RefusalGoesAhead(After(s, run), req, name, reason);
  }

  /** With a budget of at least one turn, a spent contract is still active only
      while its gate is pending; otherwise its last turn closed it. */
  lemma SpentIsPendingOrClosed(s: State, run: seq<Action>)
    requires Initial(s) && Runs(s, run) && s.contract.maxTurns >= 1
    requires After(s, run).contract.status == Active && Spent(After(s, run).contract)
    ensures GatePending(After(s, run).contract)
  {
    RunInv(s, run);
    BudgetIsFixed(s, run);
  }

  lemma {:induction false} BudgetIsFixed(s: State, run: seq<Action>)
    requires Runs(s, run)
    ensures After(s, run).contract.maxTurns == s.contract.maxTurns
    decreases |run|
  {
    if run != [] {
      BudgetIsFixed(Apply(s, run[0]), run[1..]);
    }
  }

  // ---- Whose move it is ----

  /** In every reachable state of a two-party contract, all viewers are told of
      the same agent, and at most one is told it is its own move. */
  lemma EveryoneSeesTheSameMove(s: State, run: seq<Action>, x: Agent, y: Agent)
    requires Initial(s) && Runs(s, run) && Parties(After(s, run).participants) == 2
    ensures var v := ViewOf(After(s, run));
      Derive(v, x).agent == Derive(v, y).agent
      && ((Derive(v, x).awaiting == You && Derive(v, y).awaiting == You) ==> x == y)
  {
    RunInv(s, run);
    TwoPartiesAgree(ViewOf(After(s, run)), x, y);
  }

  // ---- What consumers are told ----

  /** Every announced closure is read by the reactor as the platform meant it.
      Read without its outcome field it is read the same exactly when it is no
      refusal of the work, and it still says the work was accepted exactly when
      the platform does; and accepted work was approved by the proposer. */
  lemma ConsumersAgree(s: State, run: seq<Action>, i: nat)
    requires Initial(s) && Runs(s, run) && i < |After(s, run).announced|
    ensures var t := After(s, run); var x := t.announced[i]; var o := ReadCloseOutcome(x);
      x.outcome == Some(Code(o))
      && (WorkWasAccepted(ReadCloseOutcome(Undeclared(x))) <==> WorkWasAccepted(o))
      && (ReadCloseOutcome(Undeclared(x)) == o <==> o != ClosedUnapproved)
      && (WorkWasAccepted(o) ==> t.contract.approved && t.contract.proposer in t.approvers)
  {
    RunInv(s, run);
    var t := After(s, run);
    var x := t.announced[i];
    assert AnnouncementInv(t, x);
    var w: bool :| x == Announce(x.expired, x.closedBy, x.approved, w)
      && (x.expired ==> x.closedBy == Some(BY_EXPIRY))
      && (x.approved ==> t.contract.approved)
      && (x.closedBy == Some(BY_APPROVAL) ==> t.contract.approved)
      && (w ==> x.closedBy != Some(BY_APPROVAL) && x.closedBy != Some(BY_TURNS));
    DeclaredIsRead(x.expired, x.closedBy, x.approved, w);
    InferredExactly(x.expired, x.closedBy, x.approved, w);
    AcceptanceInferredExactly(x.expired, x.closedBy, x.approved, w);
  }
}
