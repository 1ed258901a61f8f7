/** The reactor's pass over its queue: triage of each event, what is handled,
    what stays queued, and what a sequence of passes does to one message. */
module Reactor {
  import opened Text

  datatype Event = Event(
    name: string,
    contractId: Option<string>,
    messageId: Option<string>,
    turn: Option<nat>,
    sender: Option<string>,
    messageType: Option<string>,
    requiresAction: Option<bool>,
    attention: Option<string>,
    stamp: Option<int>,
    blockedArtifact: bool,
    opensNext: Option<string>)

  datatype Disposition = Act | Record | Duplicate | Stale | Escalate

  datatype Outcome = Acted | NoAction | NeedsHuman | FailedRun

  /** What one pass runs under. */
  datatype Pass = Pass(now: int, maxAge: int, self: Option<string>, dryRun: bool)

  predicate Truthy(s: Option<string>) { s.Some? && s.value != "" }

  // ---- Events ----

  function SemanticKey(e: Event): Option<string> {
    if e.name != "message" || !Truthy(e.contractId) then None
    else if Truthy(e.messageId) then Some("message:" + (e.contractId.value + (":" + e.messageId.value)))
    else if e.turn.Some? && Truthy(e.sender) then
      Some("message-legacy:" + (e.contractId.value + (":" + (e.sender.value + (":" + Dec(e.turn.value))))))
    else None
  }

  predicate IsStale(e: Event, p: Pass) {
    e.stamp.Some? && p.now - e.stamp.value > p.maxAge
  }

  predicate ConsumesTurn(messageType: Option<string>) {
    var t := if Truthy(messageType) then messageType.value else "message";
    t != "receipt" && t != "approval"
  }

  predicate RequiresAction(e: Event) {
    ConsumesTurn(e.messageType) && e.requiresAction != Some(false)
    && e.attention != Some("receipt") && e.attention != Some("informational")
  }

  predicate OpensElsewhere(e: Event, self: Option<string>) {
    e.name == "contract.accepted" && Truthy(self) && Truthy(e.opensNext) && e.opensNext != self
  }

  /** What an event is on its own, once it is neither a duplicate nor stale. */
  function Kind(e: Event, p: Pass): Disposition {
    if e.blockedArtifact then Escalate
    else if e.name == "task.run_stale" || OpensElsewhere(e, p.self) then Record
    else if e.name == "message" then (if RequiresAction(e) then Act else Record)
    else if e.requiresAction == Some(false) || e.attention == Some("informational") then Record
    else Act
  }

  function Dispose(e: Event, seen: set<string>, p: Pass): Disposition {
    if SemanticKey(e).Some? && SemanticKey(e).value in seen then Duplicate
    else if IsStale(e, p) then Stale
    else Kind(e, p)
  }

  function SeenAfter(e: Event, seen: set<string>, p: Pass): set<string> {
    if SemanticKey(e).Some? && !IsStale(e, p) then seen + {SemanticKey(e).value} else seen
  }

  predicate EndsContract(e: Event) { e.name == "contract.closed" || e.name == "contract.expired" }

  /** Whether an event leaves the queue: everything does but a worker's failure. */
  predicate Handled(e: Event, d: Disposition, outcome: Outcome, p: Pass) {
    d != Act || EndsContract(e) || p.dryRun || outcome != FailedRun
  }

  datatype Decision = Decision(disposition: Disposition, handled: bool)

  /** The decisions of a pass, event by event; `outcomes[i]` is what the worker
      would answer if it were started for event i. */
  function Decide(events: seq<Event>, outcomes: seq<Outcome>, seen: set<string>, p: Pass): (ds: seq<Decision>)
    requires |outcomes| == |events|
    ensures |ds| == |events|
  {
    if events == [] then []
    else
      var d := Dispose(events[0], seen, p);
      [Decision(d, Handled(events[0], d, outcomes[0], p))]
      + Decide(events[1..], outcomes[1..], SeenAfter(events[0], seen, p), p)
  }

  function Retained(events: seq<Event>, ds: seq<Decision>): seq<Event>
    requires |events| == |ds|
  {
    if events == [] then []
    else (if ds[0].handled then [] else [events[0]]) + Retained(events[1..], ds[1..])
  }

  /** The queue a pass leaves behind. */
  function Kept(events: seq<Event>, outcomes: seq<Outcome>, seen: set<string>, p: Pass): seq<Event>
    requires |outcomes| == |events|
  {
    Retained(events, Decide(events, outcomes, seen, p))
  }

  // ---- The loop ----

  class Result {
    var acted: nat
    var recorded: nat
    var duplicates: nat
    var stale: nat
    var escalated: nat
    var failed: nat
    var awaitingHuman: nat

    constructor ()
      ensures Processed() == 0 && failed == 0
    {
      acted, recorded, duplicates, stale, escalated, failed, awaitingHuman := 0, 0, 0, 0, 0, 0, 0;
    }

    function Processed(): nat
      reads this
    {
      acted + recorded + duplicates + stale + escalated + awaitingHuman
    }
  }

  /** `triage_event`, adding to the keys seen in this pass. */
  method Triage(e: Event, seen: set<string>, p: Pass) returns (d: Disposition, seen': set<string>)
    ensures d == Dispose(e, seen, p) && seen' == SeenAfter(e, seen, p)
  {
    seen' := seen;
    var key := SemanticKey(e);
    if key.Some? && key.value in seen { return Duplicate, seen; }
    if IsStale(e, p) { return Stale, seen; }
    if key.Some? { seen' := seen + {key.value}; }
    if e.blockedArtifact { return Escalate, seen'; }
    if e.name == "task.run_stale" { return Record, seen'; }
    if e.name == "contract.accepted" {
      if Truthy(p.self) && Truthy(e.opensNext) && e.opensNext != p.self { return Record, seen'; }
    }
    if e.name == "message" && !RequiresAction(e) { return Record, seen'; }
    if e.name != "message" && (e.requiresAction == Some(false) || e.attention == Some("informational")) {
      return Record, seen';
    }
    d := Act;
  }

  /** `_apply`: count one event and say whether it is done with. Reconciling a
      closure may add failures of the tracker, which keep nothing queued. */
  method ApplyEvent(e: Event, d: Disposition, result: Result, outcome: Outcome, trackerFailures: nat, p: Pass)
    returns (handled: bool)
    modifies result
    ensures handled == Handled(e, d, outcome, p)
    ensures result.Processed() == old(result.Processed()) + (if handled then 1 else 0)
    ensures result.duplicates == old(result.duplicates) + (if d == Duplicate then 1 else 0)
    ensures result.stale == old(result.stale) + (if d == Stale then 1 else 0)
    ensures result.escalated == old(result.escalated) + (if d == Escalate then 1 else 0)
    ensures result.recorded == old(result.recorded) + (if d == Record then 1 else 0)
    ensures result.awaitingHuman == old(result.awaitingHuman)
      + (if d == Act && !EndsContract(e) && !p.dryRun && outcome == NeedsHuman then 1 else 0)
    ensures result.failed == old(result.failed) + (if handled then 0 else 1)
      + (if d == Act && EndsContract(e) && !p.dryRun then trackerFailures else 0)
  {
    match d
    case Duplicate =>
      result.duplicates := result.duplicates + 1;
      handled := true;
    case Stale =>
      result.stale := result.stale + 1;
      handled := true;
    case Escalate =>
      result.escalated := result.escalated + 1;
      handled := true;
    case Record =>
      result.recorded := result.recorded + 1;
      handled := true;
    case Act =>
      if e.name == "contract.closed" || e.name == "contract.expired" {
        result.acted := result.acted + 1;
        if !p.dryRun { result.failed := result.failed + trackerFailures; }
        return true;
      }
      if p.dryRun {
        result.acted := result.acted + 1;
        return true;
      }
      if outcome == NeedsHuman {
        result.awaitingHuman := result.awaitingHuman + 1;
        return true;
      }
      if outcome != FailedRun {
        result.acted := result.acted + 1;
        return true;
      }
      result.failed := result.failed + 1;
      handled := false;
  }

  /** `drain`: every event once, in order; the queue that is written back, and
      counters that account for every event. */
  method Drain(events: seq<Event>, outcomes: seq<Outcome>, trackerFailures: nat, p: Pass)
    returns (retained: seq<Event>, result: Result)
    requires |outcomes| == |events|
    ensures retained == Kept(events, outcomes, {}, p)
    ensures result.Processed() + |retained| == |events|
    ensures result.failed >= |retained|
  {
    result := new Result();
    var seen: set<string> := {};
    retained := [];
    ghost var all := Kept(events, outcomes, {}, p);
    assert events[0..] == events && outcomes[0..] == outcomes;
    for i := 0 to |events|
      invariant result.Processed() + |retained| == i && result.failed >= |retained|
      invariant all == retained + Kept(events[i..], outcomes[i..], seen, p)
    {
      var d, seen' := Triage(events[i], seen, p);
      var handled := ApplyEvent(events[i], d, result, outcomes[i], trackerFailures, p);
      if !handled {
        retained := retained + [events[i]];
      }
      seen := seen';
    }
  }

  // ---- One message through one pass ----

  predicate HasKey(e: Event, key: string) { SemanticKey(e) == Some(key) }

  function Copies(events: seq<Event>, key: string): nat {
    if events == [] then 0 else (if HasKey(events[0], key) then 1 else 0) + Copies(events[1..], key)
  }

  /** Handled for what it is, rather than dropped as a repeat or as too old. */
  predicate Dealt(d: Decision) {
    d.handled && d.disposition != Duplicate && d.disposition != Stale
  }

  function DealtWith(events: seq<Event>, ds: seq<Decision>, key: string): nat
    requires |events| == |ds|
  {
    if events == [] then 0
    else (if HasKey(events[0], key) && Dealt(ds[0]) then 1 else 0) + DealtWith(events[1..], ds[1..], key)
  }

  /** The first copy of a message that is not too old. */
  function FirstFresh(events: seq<Event>, key: string, p: Pass): Option<Event> {
    if events == [] then None
    else if HasKey(events[0], key) && !IsStale(events[0], p) then Some(events[0])
    else FirstFresh(events[1..], key, p)
  }

  /** A message already seen in this pass is neither dealt with nor kept again. */
  lemma {:induction false} SeenIsDropped(events: seq<Event>, outcomes: seq<Outcome>, seen: set<string>, p: Pass,
                                         key: string)
    requires |outcomes| == |events| && key in seen
    ensures var ds := Decide(events, outcomes, seen, p);
      DealtWith(events, ds, key) == 0 && Copies(Retained(events, ds), key) == 0
  {
    if events != [] {
      var seen' := SeenAfter(events[0], seen, p);
      SeenIsDropped(events[1..], outcomes[1..], seen', p, key);
      CopiesCons(events, Decide(events, outcomes, seen, p), key);
    }
  }

  lemma CopiesCons(events: seq<Event>, ds: seq<Decision>, key: string)
    requires |events| == |ds| && events != []
    ensures Copies(Retained(events, ds), key)
         == (if !ds[0].handled && HasKey(events[0], key) then 1 else 0) + Copies(Retained(events[1..], ds[1..]), key)
  {
    CopiesFirst(Retained(events, ds), events[0], !ds[0].handled, Retained(events[1..], ds[1..]), key);
  }

  lemma CopiesFirst(kept: seq<Event>, e: Event, keeps: bool, rest: seq<Event>, key: string)
    requires kept == (if keeps then [e] else []) + rest
    ensures Copies(kept, key) == (if keeps && HasKey(e, key) then 1 else 0) + Copies(rest, key)
  {
    if keeps {
      assert kept[0] == e && kept[1..] == rest;
    } else {
      assert kept == rest;
    }
  }

  /** An earlier event of this queue is the same message and not too old. */
  predicate FreshBefore(events: seq<Event>, i: nat, key: string, p: Pass)
    requires i <= |events|
  {
    exists j :: 0 <= j < i && HasKey(events[j], key) && !IsStale(events[j], p)
  }

  /** What a pass decides on its i-th event, said without the set of keys: a
      repeat when the message came before and was fresh, then too old, then what
      the event is on its own; and it leaves the queue unless it needed a worker
      and the worker failed. */
  lemma {:induction false} DecisionExactly(events: seq<Event>, outcomes: seq<Outcome>, seen: set<string>, p: Pass,
      i: nat)
    requires |outcomes| == |events| && i < |events|
    ensures var d, e := Decide(events, outcomes, seen, p)[i], events[i]; var key := SemanticKey(e);
      d.disposition == (if key.Some? && (key.value in seen || FreshBefore(events, i, key.value, p)) then Duplicate
                        else if IsStale(e, p) then Stale else Kind(e, p))
      && (d.handled <==> !(d.disposition == Act && !EndsContract(e) && !p.dryRun && outcomes[i] == FailedRun))
    decreases |events|
  {
    if i > 0 {
      var seen' := SeenAfter(events[0], seen, p);
      DecisionExactly(events[1..], outcomes[1..], seen', p, i - 1);
      if SemanticKey(events[i]).Some? {
        var key := SemanticKey(events[i]).value;
        FreshBeforeFirst(events, i, key, p);
        assert key in seen' <==> key in seen || (HasKey(events[0], key) && !IsStale(events[0], p));
      }
    }
  }

  lemma FreshBeforeFirst(events: seq<Event>, i: nat, key: string, p: Pass)
    requires 0 < i <= |events|
    ensures FreshBefore(events, i, key, p)
       <==> (HasKey(events[0], key) && !IsStale(events[0], p)) || FreshBefore(events[1..], i - 1, key, p)
  {
    var rest := events[1..];
    if j :| 0 <= j < i && HasKey(events[j], key) && !IsStale(events[j], p) {
      assert j > 0 ==> rest[j - 1] == events[j];
    }
    if j :| 0 <= j < i - 1 && HasKey(rest[j], key) && !IsStale(rest[j], p) {
      assert events[j + 1] == rest[j];
    }
  }

  /** A message with a fresh copy is either dealt with or kept, once; a message
      without one is neither. Stale copies before it make no difference. */
  lemma {:induction false} DealtOrKept(events: seq<Event>, outcomes: seq<Outcome>, seen: set<string>, p: Pass,
                                       key: string)
    requires |outcomes| == |events| && key !in seen
    ensures var ds := Decide(events, outcomes, seen, p); var kept := Retained(events, ds);
      DealtWith(events, ds, key) + Copies(kept, key) == (if FirstFresh(events, key, p).Some? then 1 else 0)
      && forall x :: x in kept && HasKey(x, key) ==> FirstFresh(events, key, p) == Some(x)
  {
    if events != [] {
      var ds := Decide(events, outcomes, seen, p);
      var seen' := SeenAfter(events[0], seen, p);
      CopiesCons(events, ds, key);
      if HasKey(events[0], key) && !IsStale(events[0], p) {
        SeenIsDropped(events[1..], outcomes[1..], seen', p, key);
        NoCopies(Retained(events[1..], ds[1..]), key);
      } else {
        DealtOrKept(events[1..], outcomes[1..], seen', p, key);
      }
    }
  }

  lemma {:induction false} NoCopies(events: seq<Event>, key: string)
    requires Copies(events, key) == 0
    ensures forall x :: x in events ==> !HasKey(x, key)
    ensures forall q :: FirstFresh(events, key, q).None?
  {
    if events != [] {
      NoCopies(events[1..], key);
    }
  }

  lemma {:induction false} SomeCopy(events: seq<Event>, key: string) returns (x: Event)
    requires Copies(events, key) >= 1
    ensures x in events && HasKey(x, key)
  {
    if HasKey(events[0], key) {
      x := events[0];
    } else {
      x := SomeCopy(events[1..], key);
    }
  }

  /** The only copy of a message is the one found fresh, while it is. */
  lemma {:induction false} SoleCopy(events: seq<Event>, key: string, x: Event, p: Pass)
    requires Copies(events, key) == 1 && x in events && HasKey(x, key) && !IsStale(x, p)
    ensures FirstFresh(events, key, p) == Some(x)
  {
    if HasKey(events[0], key) {
      NoCopies(events[1..], key);
    } else {
      SoleCopy(events[1..], key, x, p);
    }
  }

  lemma {:induction false} TwoCopies(events: seq<Event>, i: nat, j: nat, key: string)
    requires i < j < |events| && HasKey(events[i], key) && HasKey(events[j], key)
    ensures Copies(events, key) >= 2
  {
    if i == 0 {
      OneCopy(events[1..], j - 1, key);
    } else {
      TwoCopies(events[1..], i - 1, j - 1, key);
    }
  }

  lemma {:induction false} OneCopy(events: seq<Event>, i: nat, key: string)
    requires i < |events| && HasKey(events[i], key)
    ensures Copies(events, key) >= 1
  {
    if i > 0 {
      OneCopy(events[1..], i - 1, key);
    }
  }

  /** No two events left in the queue are the same message. */
  lemma RetainedKeysDistinct(events: seq<Event>, outcomes: seq<Outcome>, p: Pass, i: nat, j: nat)
    requires |outcomes| == |events|
    requires i < j < |Retained(events, Decide(events, outcomes, {}, p))|
    ensures var kept := Retained(events, Decide(events, outcomes, {}, p));
      SemanticKey(kept[i]).Some? ==> SemanticKey(kept[i]) != SemanticKey(kept[j])
  {
    var kept := Retained(events, Decide(events, outcomes, {}, p));
    if SemanticKey(kept[i]).Some? && SemanticKey(kept[i]) == SemanticKey(kept[j]) {
      var key := SemanticKey(kept[i]).value;
      TwoCopies(kept, i, j, key);
      DealtOrKept(events, outcomes, {}, p, key);
      assert false;
    }
  }

  // ---- Order and repetition ----

  predicate Subsequence(a: seq<Event>, b: seq<Event>) {
    if a == [] then true
    else if b == [] then false
    else if a[0] == b[0] then Subsequence(a[1..], b[1..])
    else Subsequence(a, b[1..])
  }

  lemma {:induction false} SubsequenceSkips(a: seq<Event>, b: seq<Event>)
    requires b != [] && Subsequence(a, b[1..])
    ensures Subsequence(a, b)
  {
    if a != [] && a[0] == b[0] {
      SubsequenceDrops(a, b[1..]);
    }
  }

  lemma {:induction false} SubsequenceDrops(a: seq<Event>, b: seq<Event>)
    requires a != [] && Subsequence(a, b)
    ensures Subsequence(a[1..], b)
  {
    if a[0] == b[0] {
      SubsequenceSkips(a[1..], b);
    } else {
      SubsequenceDrops(a, b[1..]);
      SubsequenceSkips(a[1..], b);
    }
  }

  /** What stays queued keeps its order. */
  lemma {:induction false} RetainedInOrder(events: seq<Event>, ds: seq<Decision>)
    requires |events| == |ds|
    ensures Subsequence(Retained(events, ds), events)
  {
    if events != [] {
      RetainedInOrder(events[1..], ds[1..]);
      if ds[0].handled {
        assert Retained(events, ds) == Retained(events[1..], ds[1..]);
        SubsequenceSkips(Retained(events, ds), events);
      } else {
        assert Retained(events, ds)[1..] == Retained(events[1..], ds[1..]);
      }
    }
  }

  function Repeat(o: Outcome, n: nat): (os: seq<Outcome>)
    ensures |os| == n && forall i :: 0 <= i < n ==> os[i] == o
  {
    if n == 0 then [] else [o] + Repeat(o, n - 1)
  }

  /** An event that a pass leaves queued would be left again. */
  predicate Waiting(e: Event, p: Pass) {
    !IsStale(e, p) && Kind(e, p) == Act && !EndsContract(e) && !p.dryRun
  }

  lemma {:induction false} RetainedWaits(events: seq<Event>, outcomes: seq<Outcome>, seen: set<string>, p: Pass)
    requires |outcomes| == |events|
    ensures forall e :: e in Retained(events, Decide(events, outcomes, seen, p)) ==> Waiting(e, p)
  {
    if events != [] {
      RetainedWaits(events[1..], outcomes[1..], SeenAfter(events[0], seen, p), p);
    }
  }

  lemma {:induction false} FailingKeepsAll(events: seq<Event>, outcomes: seq<Outcome>, seen: set<string>, p: Pass)
    requires |outcomes| == |events| && forall i :: 0 <= i < |outcomes| ==> outcomes[i] == FailedRun
    requires forall e :: e in events ==> Waiting(e, p)
    requires forall key :: key in seen ==> Copies(events, key) == 0
    requires forall key :: Copies(events, key) <= 1
    ensures Retained(events, Decide(events, outcomes, seen, p)) == events
  {
    if events != [] {
      var e, rest := events[0], events[1..];
      assert e in events;
      if SemanticKey(e).Some? {
        assert Copies(events, SemanticKey(e).value) >= 1;
      }
      forall key ensures Copies(rest, key) <= Copies(events, key) {}
      forall key | key in SeenAfter(e, seen, p) ensures Copies(rest, key) == 0 {
        assert Copies(events, key) <= 1;
      }
      FailingKeepsAll(rest, outcomes[1..], SeenAfter(e, seen, p), p);
    }
  }

  /** Draining again at once with a worker that always fails changes nothing. */
  lemma RedrainIsIdentity(events: seq<Event>, outcomes: seq<Outcome>, p: Pass)
    requires |outcomes| == |events|
    ensures var kept := Retained(events, Decide(events, outcomes, {}, p));
      Retained(kept, Decide(kept, Repeat(FailedRun, |kept|), {}, p)) == kept
  {
    var kept := Retained(events, Decide(events, outcomes, {}, p));
    RetainedWaits(events, outcomes, {}, p);
    forall key ensures Copies(kept, key) <= 1 {
      DealtOrKept(events, outcomes, {}, p, key);
    }
    FailingKeepsAll(kept, Repeat(FailedRun, |kept|), {}, p);
  }

  // ---- Many passes ----

  /** What happens around a pass: the events appended to the queue since the last
      one, and what the pass runs under. */
  datatype Visit = Visit(arrivals: seq<Event>, p: Pass)

  /** A pass as it went: `outcomes[i]` for the i-th event it met. */
  datatype Drained = Drained(visit: Visit, outcomes: seq<Outcome>)

  function Met(queue: seq<Event>, v: Visit): seq<Event> { queue + v.arrivals }

  /** A dry run writes nothing back. */
  function QueueAfter(queue: seq<Event>, d: Drained): seq<Event>
    requires |d.outcomes| == |Met(queue, d.visit)|
  {
    var met := Met(queue, d.visit);
    if d.visit.p.dryRun then met else Kept(met, d.outcomes, {}, d.visit.p)
  }

  /** The passes of a plan, met with some answers of the worker. */
  predicate Follows(queue: seq<Event>, run: seq<Drained>, plan: seq<Visit>)
    decreases |run|
  {
    |run| == |plan|
    && (run == []
        || (run[0].visit == plan[0] && |run[0].outcomes| == |Met(queue, plan[0])|
            && Follows(QueueAfter(queue, run[0]), run[1..], plan[1..])))
  }

  function Final(queue: seq<Event>, run: seq<Drained>, plan: seq<Visit>): seq<Event>
    requires Follows(queue, run, plan)
    decreases |run|
  {
    if run == [] then queue else Final(QueueAfter(queue, run[0]), run[1..], plan[1..])
  }

  /** How often a message is dealt with by the passes that are not dry. */
  function Total(queue: seq<Event>, run: seq<Drained>, plan: seq<Visit>, key: string): nat
    requires Follows(queue, run, plan)
    decreases |run|
  {
    if run == [] then 0
    else DealtBy(queue, run[0], key) + Total(QueueAfter(queue, run[0]), run[1..], plan[1..], key)
  }

  function DealtBy(queue: seq<Event>, d: Drained, key: string): nat
    requires |d.outcomes| == |Met(queue, d.visit)|
  {
    if d.visit.p.dryRun then 0
    else DealtWith(Met(queue, d.visit), Decide(Met(queue, d.visit), d.outcomes, {}, d.visit.p), key)
  }

  /** One pass that is not dry: the fresh message is dealt with or left, once. */
  lemma OnePass(queue: seq<Event>, d: Drained, key: string)
    requires |d.outcomes| == |Met(queue, d.visit)| && !d.visit.p.dryRun
    ensures var met, next := Met(queue, d.visit), QueueAfter(queue, d);
      DealtBy(queue, d, key) + Copies(next, key) == (if FirstFresh(met, key, d.visit.p).Some? then 1 else 0)
      && forall x :: x in next && HasKey(x, key) ==> FirstFresh(met, key, d.visit.p) == Some(x)
  {
    DealtOrKept(Met(queue, d.visit), d.outcomes, {}, d.visit.p, key);
  }

  lemma {:induction false} CopiesAppend(a: seq<Event>, b: seq<Event>, key: string)
    ensures Copies(a + b, key) == Copies(a, key) + Copies(b, key)
  {
    if a == [] {
      assert a + b == b;
    } else {
      assert (a + b)[1..] == a[1..] + b;
      CopiesAppend(a[1..], b, key);
    }
  }

  lemma {:induction false} FirstFreshAppend(a: seq<Event>, b: seq<Event>, key: string, p: Pass)
    ensures FirstFresh(a + b, key, p)
         == if FirstFresh(a, key, p).Some? then FirstFresh(a, key, p) else FirstFresh(b, key, p)
  {
    if a == [] {
      assert a + b == b;
    } else {
      assert (a + b)[1..] == a[1..] + b;
      FirstFreshAppend(a[1..], b, key, p);
    }
  }

  // ---- How often ----

  /** How many of the passes that are not dry meet a fresh copy that arrived since
      the last such pass: what is there before is taken to be gone by then. */
  function Times(queue: seq<Event>, plan: seq<Visit>, key: string): nat
    decreases |plan|
  {
    if plan == [] then 0
    else if plan[0].p.dryRun then Times(Met(queue, plan[0]), plan[1..], key)
    else (if FirstFresh(Met(queue, plan[0]), key, plan[0].p).Some? then 1 else 0) + Times([], plan[1..], key)
  }

  /** Copies that were left behind add one time at most. */
  lemma {:induction false} TimesSplit(a: seq<Event>, b: seq<Event>, plan: seq<Visit>, key: string)
    ensures Times(a + b, plan, key) <= (if Copies(a, key) > 0 then 1 else 0) + Times(b, plan, key)
    decreases |plan|
  {
    if plan != [] {
      assert Met(a + b, plan[0]) == a + Met(b, plan[0]);
      if plan[0].p.dryRun {
        TimesSplit(a, Met(b, plan[0]), plan[1..], key);
      } else {
        FirstFreshAppend(a, Met(b, plan[0]), key, plan[0].p);
        if Copies(a, key) == 0 {
          NoCopies(a, key);
        }
      }
    }
  }

  lemma {:induction false} AtMostTimes(queue: seq<Event>, run: seq<Drained>, plan: seq<Visit>, key: string)
    requires Follows(queue, run, plan)
    ensures Total(queue, run, plan, key) <= Times(queue, plan, key)
    decreases |run|
  {
    if run != [] {
      var next := QueueAfter(queue, run[0]);
      AtMostTimes(next, run[1..], plan[1..], key);
      if !plan[0].p.dryRun {
        OnePass(queue, run[0], key);
        TimesSplit(next, [], plan[1..], key);
        assert next + [] == next;
      }
    }
  }

  /** The run in which the worker always answers alike. */
  function Always(o: Outcome, queue: seq<Event>, plan: seq<Visit>): (run: seq<Drained>)
    ensures Follows(queue, run, plan)
    decreases |plan|
  {
    if plan == [] then []
    else
      var d := Drained(plan[0], Repeat(o, |Met(queue, plan[0])|));
      var rest := Always(o, QueueAfter(queue, d), plan[1..]);
      assert ([d] + rest)[1..] == rest;
      [d] + rest
  }

  lemma {:induction false} SuccessKeepsNothing(events: seq<Event>, outcomes: seq<Outcome>, seen: set<string>, p: Pass)
    requires |outcomes| == |events| && forall i :: 0 <= i < |outcomes| ==> outcomes[i] == Acted
    ensures Kept(events, outcomes, seen, p) == []
  {
    if events != [] {
      SuccessKeepsNothing(events[1..], outcomes[1..], SeenAfter(events[0], seen, p), p);
    }
  }

  /** A worker that never fails reaches that number. */
  lemma {:induction false} TimesReached(queue: seq<Event>, plan: seq<Visit>, key: string)
    ensures Total(queue, Always(Acted, queue, plan), plan, key) == Times(queue, plan, key)
    decreases |plan|
  {
    if plan != [] {
      var run := Always(Acted, queue, plan);
      var next := QueueAfter(queue, run[0]);
      TimesReached(next, plan[1..], key);
      assert run[1..] == Always(Acted, next, plan[1..]);
      if !plan[0].p.dryRun {
        OnePass(queue, run[0], key);
        SuccessKeepsNothing(Met(queue, plan[0]), run[0].outcomes, {}, plan[0].p);
      }
    }
  }

  /** Whatever the worker answers, a message is dealt with at most so often over
      passes and arrivals exactly when no more of those passes meet a fresh copy
      that arrived since the one before. */
  lemma AtMostExactly(queue: seq<Event>, plan: seq<Visit>, key: string, n: nat)
    ensures (forall run :: Follows(queue, run, plan) ==> Total(queue, run, plan, key) <= n)
      <==> Times(queue, plan, key) <= n
  {
    TimesReached(queue, plan, key);
    forall run | Follows(queue, run, plan) ensures Total(queue, run, plan, key) <= Times(queue, plan, key) {
      AtMostTimes(queue, run, plan, key);
    }
  }

  /** No copy of the message arrives; other events may. */
  predicate NoneArrives(plan: seq<Visit>, key: string) {
    forall i :: 0 <= i < |plan| ==> Copies(plan[i].arrivals, key) == 0
  }

  lemma {:induction false} NoneLeftNoTimes(queue: seq<Event>, plan: seq<Visit>, key: string)
    requires Copies(queue, key) == 0 && NoneArrives(plan, key)
    ensures Times(queue, plan, key) == 0
    decreases |plan|
  {
    if plan != [] {
      assert Copies(plan[0].arrivals, key) == 0;
      CopiesAppend(queue, plan[0].arrivals, key);
      NoCopies(Met(queue, plan[0]), key);
      NoneLeftNoTimes(if plan[0].p.dryRun then Met(queue, plan[0]) else [], plan[1..], key);
    }
  }

  /** While no copy arrives, a message is dealt with at most once. */
  lemma AtMostOnce(queue: seq<Event>, run: seq<Drained>, plan: seq<Visit>, key: string)
    requires Follows(queue, run, plan) && NoneArrives(plan, key)
    ensures Total(queue, run, plan, key) <= 1
  {
    AtMostTimes(queue, run, plan, key);
    TimesSplit(queue, [], plan, key);
    NoneLeftNoTimes([], plan, key);
    assert queue + [] == queue;
  }

  // ---- What is lost ----

  /** The clock does not go back and the age limit is one. */
  predicate Steady(plan: seq<Visit>) {
    plan == []
    || ((forall i :: 0 <= i < |plan| ==> plan[0].p.now <= plan[i].p.now && plan[0].p.maxAge == plan[i].p.maxAge)
        && Steady(plan[1..]))
  }

  /** The first and the last pass that are not dry. */
  function FirstReal(plan: seq<Visit>): Option<Pass> {
    if plan == [] then None else if !plan[0].p.dryRun then Some(plan[0].p) else FirstReal(plan[1..])
  }

  function LastReal(plan: seq<Visit>): (r: Option<Pass>)
    ensures r.Some? <==> FirstReal(plan).Some?
  {
    if plan == [] then None
    else if LastReal(plan[1..]).Some? then LastReal(plan[1..])
    else if !plan[0].p.dryRun then Some(plan[0].p)
    else None
  }

  lemma {:induction false} LastRealIsThere(plan: seq<Visit>)
    ensures LastReal(plan).Some? ==>
      exists i :: 0 <= i < |plan| && plan[i].p == LastReal(plan).value && !plan[i].p.dryRun
  {
    if plan != [] {
      LastRealIsThere(plan[1..]);
      var rest := plan[1..];
      if i :| 0 <= i < |rest| && LastReal(rest).Some? && rest[i].p == LastReal(rest).value && !rest[i].p.dryRun {
        assert plan[i + 1].p == LastReal(plan).value;
      }
    }
  }

  /** What is fresh at the last pass was fresh before. */
  lemma FreshUntilLast(plan: seq<Visit>, e: Event)
    requires plan != [] && Steady(plan) && LastReal(plan).Some? && !IsStale(e, LastReal(plan).value)
    ensures !IsStale(e, plan[0].p)
  {
    LastRealIsThere(plan);
  }

  lemma {:induction false} NoneLeft(queue: seq<Event>, run: seq<Drained>, plan: seq<Visit>, key: string)
    requires Follows(queue, run, plan) && Copies(queue, key) == 0 && NoneArrives(plan, key)
    ensures Total(queue, run, plan, key) == 0 && Copies(Final(queue, run, plan), key) == 0
    decreases |run|
  {
    if run != [] {
      assert Copies(plan[0].arrivals, key) == 0;
      CopiesAppend(queue, plan[0].arrivals, key);
      if !plan[0].p.dryRun {
        NoCopies(Met(queue, plan[0]), key);
        OnePass(queue, run[0], key);
      }
      NoneLeft(QueueAfter(queue, run[0]), run[1..], plan[1..], key);
    }
  }

  /** One waiting copy, fresh until the last pass, is dealt with or still waits. */
  lemma {:induction false} WaitsOrDealt(queue: seq<Event>, run: seq<Drained>, plan: seq<Visit>, key: string, e: Event)
    requires Follows(queue, run, plan) && Steady(plan) && NoneArrives(plan, key)
    requires Copies(queue, key) == 1 && e in queue && HasKey(e, key)
    requires LastReal(plan).Some? ==> !IsStale(e, LastReal(plan).value)
    ensures Total(queue, run, plan, key) + Copies(Final(queue, run, plan), key) == 1
    decreases |run|
  {
    if run != [] {
      var met, next := Met(queue, plan[0]), QueueAfter(queue, run[0]);
      assert Copies(plan[0].arrivals, key) == 0;
      CopiesAppend(queue, plan[0].arrivals, key);
      if plan[0].p.dryRun {
        WaitsOrDealt(next, run[1..], plan[1..], key, e);
      } else {
        FreshUntilLast(plan, e);
        SoleCopy(met, key, e, plan[0].p);
        AfterFresh(queue, run, plan, key, e);
      }
    }
  }

  /** The first pass that is not dry, when the copy it finds stays fresh. */
  lemma {:induction false} AfterFresh(queue: seq<Event>, run: seq<Drained>, plan: seq<Visit>, key: string, e: Event)
    requires Follows(queue, run, plan) && Steady(plan) && NoneArrives(plan, key)
    requires plan != [] && !plan[0].p.dryRun && FirstFresh(Met(queue, plan[0]), key, plan[0].p) == Some(e)
    requires !IsStale(e, LastReal(plan).value)
    ensures Total(queue, run, plan, key) + Copies(Final(queue, run, plan), key) == 1
    decreases |run|, 0
  {
    var next := QueueAfter(queue, run[0]);
    OnePass(queue, run[0], key);
    if Copies(next, key) == 0 {
      NoneLeft(next, run[1..], plan[1..], key);
    } else {
      var x := SomeCopy(next, key);
      WaitsOrDealt(next, run[1..], plan[1..], key, x);
    }
  }

  lemma {:induction false} NoneFound(events: seq<Event>, key: string)
    requires forall x :: x in events ==> !HasKey(x, key)
    ensures Copies(events, key) == 0
  {
    if events != [] {
      NoneFound(events[1..], key);
    }
  }

  /** The first fresh copy needs no worker, so the first pass deals with it. */
  lemma NoWorkerNeeded(queue: seq<Event>, run: seq<Drained>, plan: seq<Visit>, key: string, e: Event)
    requires Follows(queue, run, plan) && NoneArrives(plan, key)
    requires plan != [] && !plan[0].p.dryRun && FirstFresh(Met(queue, plan[0]), key, plan[0].p) == Some(e)
    requires Kind(e, plan[0].p) != Act
    ensures Total(queue, run, plan, key) + Copies(Final(queue, run, plan), key) == 1
  {
    var next := QueueAfter(queue, run[0]);
    OnePass(queue, run[0], key);
    RetainedWaits(Met(queue, plan[0]), run[0].outcomes, {}, plan[0].p);
    NoneFound(next, key);
    NoneLeft(next, run[1..], plan[1..], key);
  }

  lemma {:induction false} FailingDealsNothing(events: seq<Event>, outcomes: seq<Outcome>, seen: set<string>, p: Pass,
      key: string)
    requires |outcomes| == |events| && (forall i :: 0 <= i < |outcomes| ==> outcomes[i] == FailedRun) && key !in seen
    requires FirstFresh(events, key, p).Some? && Waiting(FirstFresh(events, key, p).value, p)
    ensures DealtWith(events, Decide(events, outcomes, seen, p), key) == 0
  {
    var seen' := SeenAfter(events[0], seen, p);
    if HasKey(events[0], key) && !IsStale(events[0], p) {
      SeenIsDropped(events[1..], outcomes[1..], seen', p, key);
    } else {
      FailingDealsNothing(events[1..], outcomes[1..], seen', p, key);
    }
  }

  /** A worker that always fails keeps one copy until it is stale, and then none. */
  lemma {:induction false} FailingLoses(queue: seq<Event>, plan: seq<Visit>, key: string, e: Event)
    requires Steady(plan) && NoneArrives(plan, key) && FirstReal(plan).Some?
    requires FirstFresh(queue, key, FirstReal(plan).value) == Some(e)
    requires Kind(e, FirstReal(plan).value) == Act && IsStale(e, LastReal(plan).value)
    ensures var run := Always(FailedRun, queue, plan);
      Total(queue, run, plan, key) == 0 && Copies(Final(queue, run, plan), key) == 0
    decreases |plan|
  {
    var run, rest := Always(FailedRun, queue, plan), plan[1..];
    var met, next := Met(queue, plan[0]), QueueAfter(queue, run[0]);
    assert run[1..] == Always(FailedRun, next, rest);
    assert Copies(plan[0].arrivals, key) == 0;
    FirstFreshAppend(queue, plan[0].arrivals, key, FirstReal(plan).value);
    FreshIsThere(queue, key, FirstReal(plan).value);
    if plan[0].p.dryRun {
      FailingLoses(next, rest, key, e);
    } else {
      OnePass(queue, run[0], key);
      FailingDealsNothing(met, run[0].outcomes, {}, plan[0].p, key);
      var x := SomeCopy(next, key);
      FailingGoesOn(next, rest, key, e);
    }
  }

  lemma FreshIsThere(events: seq<Event>, key: string, p: Pass)
    requires FirstFresh(events, key, p).Some?
    ensures var e := FirstFresh(events, key, p).value; e in events && HasKey(e, key) && !IsStale(e, p)
  {
    if !(HasKey(events[0], key) && !IsStale(events[0], p)) {
      FreshIsThere(events[1..], key, p);
    }
  }

  lemma {:induction false} FailingGoesOn(queue: seq<Event>, plan: seq<Visit>, key: string, e: Event)
    requires Steady(plan) && NoneArrives(plan, key)
    requires Copies(queue, key) == 1 && e in queue && HasKey(e, key) && RequiresAction(e) && !e.blockedArtifact
    requires LastReal(plan).Some? && IsStale(e, LastReal(plan).value)
    ensures var run := Always(FailedRun, queue, plan);
      Total(queue, run, plan, key) == 0 && Copies(Final(queue, run, plan), key) == 0
    decreases |plan|
  {
    var run, rest := Always(FailedRun, queue, plan), plan[1..];
    var met, next := Met(queue, plan[0]), QueueAfter(queue, run[0]);
    assert run[1..] == Always(FailedRun, next, rest);
    assert Copies(plan[0].arrivals, key) == 0;
    CopiesAppend(queue, plan[0].arrivals, key);
    if plan[0].p.dryRun {
      FailingGoesOn(next, rest, key, e);
    } else {
      OnePass(queue, run[0], key);
      if IsStale(e, plan[0].p) {
        StaleIsNotFresh(met, key, e, plan[0].p);
        NoneLeft(next, run[1..], rest, key);
      } else {
        SoleCopy(met, key, e, plan[0].p);
        FailingDealsNothing(met, run[0].outcomes, {}, plan[0].p, key);
        var x := SomeCopy(next, key);
        FailingGoesOn(next, rest, key, e);
      }
    }
  }

  lemma {:induction false} StaleIsNotFresh(events: seq<Event>, key: string, e: Event, p: Pass)
    requires Copies(events, key) == 1 && e in events && HasKey(e, key) && IsStale(e, p)
    ensures FirstFresh(events, key, p).None?
  {
    if HasKey(events[0], key) {
      NoCopies(events[1..], key);
    } else {
      StaleIsNotFresh(events[1..], key, e, p);
    }
  }

  /** The message is never lost and never doubled, whatever the worker answers,
      exactly when the first pass that is not dry finds a fresh copy, and the first
      it finds needs no worker or is still fresh at the last pass that is not dry.
      No copy arrives in between; other events may. */
  lemma NothingLostExactly(queue: seq<Event>, plan: seq<Visit>, key: string)
    requires Steady(plan) && NoneArrives(plan, key) && FirstReal(plan).Some?
    ensures (forall run :: Follows(queue, run, plan) ==>
               Total(queue, run, plan, key) + Copies(Final(queue, run, plan), key) == 1)
       <==> var first := FirstFresh(queue, key, FirstReal(plan).value);
            first.Some?
              && (Kind(first.value, FirstReal(plan).value) != Act || !IsStale(first.value, LastReal(plan).value))
  {
    var first := FirstFresh(queue, key, FirstReal(plan).value);
    if first.None? {
      FailingFindsNothing(queue, plan, key);
    } else if Kind(first.value, FirstReal(plan).value) == Act && IsStale(first.value, LastReal(plan).value) {
      FailingLoses(queue, plan, key, first.value);
    } else {
      forall run | Follows(queue, run, plan)
        ensures Total(queue, run, plan, key) + Copies(Final(queue, run, plan), key) == 1
      {
        SkipDry(queue, run, plan, key, first.value);
      }
    }
  }

  /** Leading dry passes change nothing. */
  lemma {:induction false} SkipDry(queue: seq<Event>, run: seq<Drained>, plan: seq<Visit>, key: string, e: Event)
    requires Follows(queue, run, plan) && Steady(plan) && NoneArrives(plan, key) && FirstReal(plan).Some?
    requires FirstFresh(queue, key, FirstReal(plan).value) == Some(e)
    requires Kind(e, FirstReal(plan).value) != Act || !IsStale(e, LastReal(plan).value)
    ensures Total(queue, run, plan, key) + Copies(Final(queue, run, plan), key) == 1
    decreases |run|
  {
    FirstFreshAppend(queue, plan[0].arrivals, key, FirstReal(plan).value);
    if plan[0].p.dryRun {
      SkipDry(QueueAfter(queue, run[0]), run[1..], plan[1..], key, e);
    } else if Kind(e, plan[0].p) != Act {
      NoWorkerNeeded(queue, run, plan, key, e);
    } else {
      AfterFresh(queue, run, plan, key, e);
    }
  }

  lemma {:induction false} FailingFindsNothing(queue: seq<Event>, plan: seq<Visit>, key: string)
    requires NoneArrives(plan, key) && FirstReal(plan).Some? && FirstFresh(queue, key, FirstReal(plan).value).None?
    ensures var run := Always(FailedRun, queue, plan);
      Total(queue, run, plan, key) + Copies(Final(queue, run, plan), key) == 0
    decreases |plan|
  {
    var run := Always(FailedRun, queue, plan);
    var next := QueueAfter(queue, run[0]);
    assert run[1..] == Always(FailedRun, next, plan[1..]);
    assert Copies(plan[0].arrivals, key) == 0;
    NoCopies(plan[0].arrivals, key);
    FirstFreshAppend(queue, plan[0].arrivals, key, FirstReal(plan).value);
    if plan[0].p.dryRun {
      FailingFindsNothing(next, plan[1..], key);
    } else {
      OnePass(queue, run[0], key);
      NoneLeft(next, run[1..], plan[1..], key);
    }
  }

  /** Copies that carry one timestamp, as retries of one delivery do, lose
      nothing: while any copy is fresh the message is dealt with or waits. */
  lemma SameStampNothingLost(queue: seq<Event>, run: seq<Drained>, plan: seq<Visit>, key: string, e: Event)
    requires Follows(queue, run, plan) && Steady(plan) && NoneArrives(plan, key) && FirstReal(plan).Some?
    requires e in queue && HasKey(e, key) && !IsStale(e, LastReal(plan).value)
    requires forall x :: x in queue && HasKey(x, key) ==> x.stamp == e.stamp
    ensures Total(queue, run, plan, key) + Copies(Final(queue, run, plan), key) == 1
  {
    FreshAtFirst(plan, e);
    FreshFound(queue, key, e, FirstReal(plan).value);
    NothingLostExactly(queue, plan, key);
  }

  lemma {:induction false} FreshAtFirst(plan: seq<Visit>, e: Event)
    requires Steady(plan) && FirstReal(plan).Some? && LastReal(plan).Some? && !IsStale(e, LastReal(plan).value)
    ensures !IsStale(e, FirstReal(plan).value)
  {
    if plan[0].p.dryRun {
      FreshAtFirst(plan[1..], e);
    } else {
      FreshUntilLast(plan, e);
    }
  }

  lemma {:induction false} FreshFound(events: seq<Event>, key: string, e: Event, p: Pass)
    requires e in events && HasKey(e, key) && !IsStale(e, p)
    ensures FirstFresh(events, key, p).Some?
    ensures FirstFresh(events, key, p).value in events && HasKey(FirstFresh(events, key, p).value, key)
  {
    if !(HasKey(events[0], key) && !IsStale(events[0], p)) {
      FreshFound(events[1..], key, e, p);
    }
  }

  /** Copies with different timestamps can lose a message: the older copy is the
      one kept, and when it grows stale the fresher one is already gone. */
  lemma OlderCopyLosesTheMessage(older: Event, newer: Event, key: string, p: Pass, q: Pass)
    requires HasKey(older, key) && HasKey(newer, key) && !p.dryRun && !q.dryRun && p.now <= q.now
      && p.maxAge == q.maxAge
    requires Waiting(older, p) && IsStale(older, q) && !IsStale(newer, q)
    ensures var queue, plan := [older, newer], [Visit([], p), Visit([], q)]; var run := Always(FailedRun, queue, plan);
      Total(queue, run, plan, key) == 0 && Copies(Final(queue, run, plan), key) == 0
  {
    var plan := [Visit([], p), Visit([], q)];
    assert plan[1..] == [Visit([], q)] && [Visit([], q)][1..] == [];
    assert LastReal([]) == None && LastReal([Visit([], q)]) == Some(q) && Steady([]) && Steady([Visit([], q)]);
    FailingLoses([older, newer], plan, key, older);
  }

  // ---- Keys name messages ----

  predicate NoColon(s: string) { Free(s, ':') }

  lemma ColonCut(a: string, x: string, b: string, y: string)
    requires NoColon(a) && NoColon(b) && a + (":" + x) == b + (":" + y)
    ensures a == b && x == y
  {
    var s := a + (":" + x);
    assert s[|a|] == ':' && s[|b|] == ':';
    assert forall i :: 0 <= i < |a| ==> s[i] == a[i];
    assert forall i :: 0 <= i < |b| ==> s[i] == b[i];
    assert |a| == |b|;
    assert a == s[..|a|] && b == s[..|b|] && x == s[|a| + 1..] && y == s[|b| + 1..];
  }

  /** Two events share a key exactly when they name the same message, contract
      ids holding no colon: the same message id, or without one the same turn of
      the same sender. */
  predicate SameMessage(e: Event, f: Event) {
    e.contractId == f.contractId
    && if Truthy(e.messageId) then e.messageId == f.messageId
       else !Truthy(f.messageId) && e.sender == f.sender && e.turn == f.turn
  }

  lemma KeyNamesMessage(e: Event, f: Event)
    requires SemanticKey(e).Some? && SemanticKey(f).Some?
    requires NoColon(e.contractId.value) && NoColon(f.contractId.value)
    ensures SemanticKey(e) == SemanticKey(f) <==> SameMessage(e, f)
  {
    var k, l := SemanticKey(e).value, SemanticKey(f).value;
    assert Truthy(e.messageId) ==> k[7] == ':';
    assert Truthy(f.messageId) ==> l[7] == ':';
    assert !Truthy(e.messageId) ==> k[7] == '-';
    assert !Truthy(f.messageId) ==> l[7] == '-';
    if k == l {
      if Truthy(e.messageId) && Truthy(f.messageId) {
        assert k[8..] == e.contractId.value + (":" + e.messageId.value);
        assert l[8..] == f.contractId.value + (":" + f.messageId.value);
        ColonCut(e.contractId.value, e.messageId.value, f.contractId.value, f.messageId.value);
      } else if !Truthy(e.messageId) && !Truthy(f.messageId) {
        LegacyKeys(e, f);
      }
    }
  }

  lemma LegacyKeys(e: Event, f: Event)
    requires SemanticKey(e).Some? && SemanticKey(e) == SemanticKey(f)
    requires !Truthy(e.messageId) && !Truthy(f.messageId)
    requires NoColon(e.contractId.value) && NoColon(f.contractId.value)
    ensures SameMessage(e, f)
  {
    var a, b := e.sender.value + (":" + Dec(e.turn.value)), f.sender.value + (":" + Dec(f.turn.value));
    var k := SemanticKey(e).value;
    assert k[15..] == e.contractId.value + (":" + a) == f.contractId.value + (":" + b);
    ColonCut(e.contractId.value, a, f.contractId.value, b);
    LastColon(e.sender.value, Dec(e.turn.value), f.sender.value, Dec(f.turn.value));
    DecInjective(e.turn.value, f.turn.value);
  }

  lemma LastColon(a: string, x: string, b: string, y: string)
    requires NoColon(x) && NoColon(y) && a + (":" + x) == b + (":" + y)
    ensures a == b && x == y
  {
    var s := a + (":" + x);
    assert s[|a|] == ':' && s[|b|] == ':';
    assert forall i :: |a| < i < |s| ==> s[i] == x[i - |a| - 1];
    assert forall i :: |b| < i < |s| ==> s[i] == y[i - |b| - 1];
    assert |a| == |b|;
    assert a == s[..|a|] && b == s[..|b|] && x == s[|a| + 1..] && y == s[|b| + 1..];
  }
}
