/** Automatic reloads of a stale page, and the stored log that bounds them. The
    log is cut down at every reload; what it answers must be what the whole
    history would. */
module ReloadBudget {

  const RELOAD_WINDOW_MS := 120000
  const RELOAD_BUDGET := 3

  datatype Build = Same | Moved | Unknown

  datatype Action = Refresh | Reload | GiveUp | Idle

  /** `recentReloads`: the reloads still inside the window. */
  function Recent(log: seq<int>, now: int): (r: seq<int>)
    ensures |r| <= |log|
  {
    if log == [] then []
    else (if now - log[0] < RELOAD_WINDOW_MS then [log[0]] else []) + Recent(log[1..], now)
  }

  predicate CanReload(log: seq<int>, now: int) { |Recent(log, now)| < RELOAD_BUDGET }

  function Decide(visible: bool, build: Build, log: seq<int>, now: int): Action {
    if !visible then Idle
    else if build == Moved then (if CanReload(log, now) then Reload else GiveUp)
    else Refresh
  }

  /** One tick of the page: when it decided, when it pruned the log and when it
      stamped the new entry, the clock being read each time; and whether the
      browser let it store the log. */
  datatype Tick = Tick(visible: bool, build: Build, decidedAt: int, prunedAt: int, stampedAt: int, stored: bool)

  predicate Orderly(t: Tick) { t.decidedAt <= t.prunedAt <= t.stampedAt }

  function LogAfter(log: seq<int>, t: Tick): seq<int> {
    if Decide(t.visible, t.build, log, t.decidedAt) == Reload && t.stored
    then Recent(log, t.prunedAt) + [t.stampedAt] else log
  }

  /** The browser's session storage for one tab. */
  class Tab {
    var log: seq<int>

    constructor ()
      ensures log == []
    {
      log := [];
    }

    method OnTick(t: Tick) returns (action: Action)
      modifies this
      ensures action == Decide(t.visible, t.build, old(log), t.decidedAt)
      ensures log == LogAfter(old(log), t)
    {
      action := Decide(t.visible, t.build, log, t.decidedAt);
      if action == Reload {
        ReloadNow(t.prunedAt, t.stampedAt, t.stored);
      }
    }

    method ReloadNow(prunedAt: int, stampedAt: int, stored: bool)
      modifies this
      ensures log == if stored then Recent(old(log), prunedAt) + [stampedAt] else old(log)
    {
      if stored {
        log := Recent(log, prunedAt) + [stampedAt];
      }
    }
  }

  // ---- Runs ----

  /** A reload, and whether the browser let the log record it. */
  datatype Event = Event(at: int, stored: bool)

  /** The stored log, every reload there was, and the time. */
  datatype State = State(log: seq<int>, history: seq<Event>, clock: int)

  predicate Enabled(s: State, t: Tick) { Orderly(t) && s.clock <= t.decidedAt }

  function Step(s: State, t: Tick): State {
    var reloads := Decide(t.visible, t.build, s.log, t.decidedAt) == Reload;
    State(LogAfter(s.log, t), if reloads then s.history + [Event(t.stampedAt, t.stored)] else s.history,
          if reloads then t.stampedAt else t.decidedAt)
  }

  predicate Runs(s: State, run: seq<Tick>)
    decreases |run|
  {
    run == [] || (Enabled(s, run[0]) && Runs(Step(s, run[0]), run[1..]))
  }

  function After(s: State, run: seq<Tick>): State
    decreases |run|
  {
    if run == [] then s else After(Step(s, run[0]), run[1..])
  }

  function Started(clock: int): State { State([], [], clock) }

  function Times(h: seq<Event>): (ts: seq<int>)
    ensures |ts| == |h| && forall i :: 0 <= i < |h| ==> ts[i] == h[i].at
  {
    if h == [] then [] else Times(h[..|h| - 1]) + [h[|h| - 1].at]
  }

  function Outcomes(h: seq<Event>): (os: seq<bool>)
    ensures |os| == |h| && forall i :: 0 <= i < |h| ==> os[i] == h[i].stored
  {
    if h == [] then [] else Outcomes(h[..|h| - 1]) + [h[|h| - 1].stored]
  }

  /** The times of the reloads that were recorded, and of those that were not. */
  function Only(h: seq<Event>, stored: bool): seq<int> {
    if h == [] then []
    else Only(h[..|h| - 1], stored) + (if h[|h| - 1].stored == stored then [h[|h| - 1].at] else [])
  }

  lemma OnlyAppend(h: seq<Event>, e: Event, stored: bool)
    ensures Only(h + [e], stored) == Only(h, stored) + (if e.stored == stored then [e.at] else [])
  {
    assert (h + [e])[..|h|] == h;
  }

  lemma TimesAppend(h: seq<Event>, e: Event)
    ensures Times(h + [e]) == Times(h) + [e.at]
  {
    assert (h + [e])[..|h|] == h;
  }

  // ---- The log and the history ----

  lemma {:induction false} RecentConcat(a: seq<int>, b: seq<int>, now: int)
    ensures Recent(a + b, now) == Recent(a, now) + Recent(b, now)
  {
    if a == [] {
      assert a + b == b;
    } else {
      assert (a + b)[1..] == a[1..] + b;
      RecentConcat(a[1..], b, now);
    }
  }

  /** What is cut off now would be ignored later anyway. */
  lemma {:induction false} RecentOfRecent(log: seq<int>, t: int, now: int)
    requires t <= now
    ensures Recent(Recent(log, t), now) == Recent(log, now)
  {
    if log != [] {
      var head := if t - log[0] < RELOAD_WINDOW_MS then [log[0]] else [];
      RecentConcat(head, Recent(log[1..], t), now);
      RecentOfRecent(log[1..], t, now);
    }
  }

  lemma {:induction false} RecentShrinks(log: seq<int>, t: int, now: int)
    requires t <= now
    ensures |Recent(log, now)| <= |Recent(log, t)|
  {
    if log != [] {
      RecentShrinks(log[1..], t, now);
    }
  }

  /** From `clock` on, the stored log answers like the whole history. */
  ghost predicate Agrees(log: seq<int>, history: seq<int>, clock: int) {
    forall now :: clock <= now ==> Recent(log, now) == Recent(history, now)
  }

  predicate Sorted(h: seq<int>) { forall i, j :: 0 <= i < j < |h| ==> h[i] <= h[j] }

  /** A reload that follows three others comes a whole window after the first. */
  predicate Spaced(h: seq<int>) {
    forall i :: 0 <= i && i + RELOAD_BUDGET < |h| ==> h[i + RELOAD_BUDGET] - h[i] >= RELOAD_WINDOW_MS
  }

  predicate UpTo(h: seq<int>, clock: int) { forall i :: 0 <= i < |h| ==> h[i] <= clock }

  /** A reload after three that were recorded comes a whole window after the first. */
  predicate FourthLater(h: seq<Event>, i: nat)
    requires i + RELOAD_BUDGET < |h|
  {
    h[i].stored && h[i + 1].stored && h[i + 2].stored ==> h[i + RELOAD_BUDGET].at - h[i].at >= RELOAD_WINDOW_MS
  }

  ghost predicate LogInv(s: State) {
    Agrees(s.log, Only(s.history, true), s.clock) && |s.log| <= RELOAD_BUDGET
  }

  predicate InOrder(h: seq<int>, clock: int) { Sorted(h) && UpTo(h, clock) }

  predicate FourthsLater(h: seq<Event>) {
    forall i: nat :: i + RELOAD_BUDGET < |h| ==> FourthLater(h, i)
  }

  ghost predicate Inv(s: State) {
    LogInv(s) && InOrder(Only(s.history, true), s.clock) && Spaced(Only(s.history, true))
    && InOrder(Times(s.history), s.clock) && FourthsLater(s.history)
  }

  /** In a sorted history, everything from a recent reload on is recent. */
  lemma {:induction false} RecentFrom(h: seq<int>, i: nat, now: int)
    requires Sorted(h) && i < |h| && now - h[i] < RELOAD_WINDOW_MS
    ensures |Recent(h, now)| >= |h| - i
    decreases |h|
  {
    if i > 0 {
      RecentFrom(h[1..], i - 1, now);
    } else if |h| > 1 {
      RecentFrom(h[1..], 0, now);
    }
  }

  lemma StoredAgrees(s: State, t: Tick)
    requires Inv(s) && Enabled(s, t)
    ensures Agrees(Recent(s.log, t.prunedAt) + [t.stampedAt], Only(s.history, true) + [t.stampedAt], t.stampedAt)
  {
    var h := Only(s.history, true);
    forall now | t.stampedAt <= now
      ensures Recent(Recent(s.log, t.prunedAt) + [t.stampedAt], now) == Recent(h + [t.stampedAt], now)
    {
      RecentConcat(Recent(s.log, t.prunedAt), [t.stampedAt], now);
      RecentConcat(h, [t.stampedAt], now);
      RecentOfRecent(s.log, t.prunedAt, now);
    }
  }

  /** Where fewer than the budget are recent, the budget-th last one is not. */
  lemma LastIsOld(h: seq<int>, now: int)
    requires Sorted(h) && |Recent(h, now)| < RELOAD_BUDGET <= |h|
    ensures now - h[|h| - RELOAD_BUDGET] >= RELOAD_WINDOW_MS
  {
    if now - h[|h| - RELOAD_BUDGET] < RELOAD_WINDOW_MS {
      RecentFrom(h, |h| - RELOAD_BUDGET, now);
    }
  }

  lemma StoredSpaced(s: State, t: Tick)
    requires Inv(s) && Enabled(s, t) && CanReload(s.log, t.decidedAt)
    ensures Spaced(Only(s.history, true) + [t.stampedAt])
  {
    var h := Only(s.history, true);
    if |h| >= RELOAD_BUDGET {
      LastIsOld(h, t.decidedAt);
    }
  }

  /** The last three, when recorded, are the last three that were. */
  lemma LastThree(h: seq<Event>)
    requires |h| >= 3 && h[|h| - 3].stored && h[|h| - 2].stored && h[|h| - 1].stored
    ensures var ts := Only(h, true); |ts| >= 3 && ts[|ts| - 3] == h[|h| - 3].at
  {
    var g := h[..|h| - 1];
    var f := g[..|g| - 1];
    assert Only(h, true) == Only(g, true) + [h[|h| - 1].at];
    assert Only(g, true) == Only(f, true) + [h[|h| - 2].at];
    assert Only(f, true) == Only(f[..|f| - 1], true) + [h[|h| - 3].at];
  }

  lemma LastFourth(s: State, t: Tick)
    requires Inv(s) && Enabled(s, t) && CanReload(s.log, t.decidedAt) && |s.history| >= RELOAD_BUDGET
    ensures FourthLater(s.history + [Event(t.stampedAt, t.stored)], |s.history| - RELOAD_BUDGET)
  {
    var h := s.history;
    if h[|h| - 3].stored && h[|h| - 2].stored && h[|h| - 1].stored {
      LastThree(h);
      LastIsOld(Only(h, true), t.decidedAt);
    }
  }

  lemma ReloadFourths(s: State, t: Tick)
    requires Inv(s) && Enabled(s, t) && CanReload(s.log, t.decidedAt)
    ensures FourthsLater(s.history + [Event(t.stampedAt, t.stored)])
  {
    var h, g := s.history, s.history + [Event(t.stampedAt, t.stored)];
    forall i: nat | i + RELOAD_BUDGET < |g| ensures FourthLater(g, i) {
      if i + RELOAD_BUDGET < |h| {
        assert FourthLater(h, i);
      } else {
        LastFourth(s, t);
      }
    }
  }

  lemma LaterInOrder(h: seq<int>, clock: int, later: int)
    requires InOrder(h, clock) && clock <= later
    ensures InOrder(h, later) && InOrder(h + [later], later)
  {
  }

  lemma ReloadLog(s: State, t: Tick)
    requires Inv(s) && Enabled(s, t) && CanReload(s.log, t.decidedAt)
    requires Decide(t.visible, t.build, s.log, t.decidedAt) == Reload
    ensures LogInv(Step(s, t))
  {
    OnlyAppend(s.history, Event(t.stampedAt, t.stored), true);
    if t.stored {
      StoredAgrees(s, t);
      RecentShrinks(s.log, t.decidedAt, t.prunedAt);
    } else {
      assert Only(s.history, true) + [] == Only(s.history, true);
    }
  }

  lemma StepInv(s: State, t: Tick)
    requires Inv(s) && Enabled(s, t)
    ensures Inv(Step(s, t))
  {
    if Decide(t.visible, t.build, s.log, t.decidedAt) == Reload {
      var e := Event(t.stampedAt, t.stored);
      ReloadLog(s, t);
      OnlyAppend(s.history, e, true);
      TimesAppend(s.history, e);
      LaterInOrder(Only(s.history, true), s.clock, t.stampedAt);
      LaterInOrder(Times(s.history), s.clock, t.stampedAt);
      StoredSpaced(s, t);
      ReloadFourths(s, t);
    }
  }

  lemma {:induction false} RunInv(s: State, run: seq<Tick>)
    requires Inv(s) && Runs(s, run)
    ensures Inv(After(s, run))
    decreases |run|
  {
    if run != [] {
      StepInv(s, run[0]);
      RunInv(Step(s, run[0]), run[1..]);
    }
  }

  // ---- The promises ----

  predicate AllStored(h: seq<Event>) { forall i :: 0 <= i < |h| ==> h[i].stored }

  lemma {:induction false} OnlyWhenAll(h: seq<Event>)
    requires AllStored(h)
    ensures Only(h, true) == Times(h) && Only(h, false) == []
  {
    if h != [] {
      OnlyWhenAll(h[..|h| - 1]);
    }
  }

  /** Whatever the browser stores, the log never holds more than the budget, and
      from now on answers every question as all the reloads it was let record. */
  lemma PrunedLogIsEnough(clock: int, run: seq<Tick>, now: int)
    requires Runs(Started(clock), run) && After(Started(clock), run).clock <= now
    ensures var s := After(Started(clock), run);
      |s.log| <= RELOAD_BUDGET && Recent(s.log, now) == Recent(Only(s.history, true), now)
      && (CanReload(s.log, now) <==> CanReload(Only(s.history, true), now))
      && (AllStored(s.history) ==> Only(s.history, true) == Times(s.history))
  {
    RunInv(Started(clock), run);
    if AllStored(After(Started(clock), run).history) {
      OnlyWhenAll(After(Started(clock), run).history);
    }
  }

  /** How many of these fall in the window that starts at `from`. */
  function Within(h: seq<int>, from: int): nat {
    if h == [] then 0 else (if from <= h[0] < from + RELOAD_WINDOW_MS then 1 else 0) + Within(h[1..], from)
  }

  lemma {:induction false} NoneWithin(h: seq<int>, from: int)
    requires forall i :: 0 <= i < |h| ==> h[i] >= from + RELOAD_WINDOW_MS
    ensures Within(h, from) == 0
  {
    if h != [] {
      NoneWithin(h[1..], from);
    }
  }

  /** All but the first `n` lie past the window. */
  predicate Past(h: seq<int>, from: int, n: nat) {
    forall i :: n <= i < |h| ==> h[i] >= from + RELOAD_WINDOW_MS
  }

  lemma {:induction false} AtMostFirst(h: seq<int>, from: int, n: nat)
    requires Past(h, from, n)
    ensures Within(h, from) <= n
  {
    if h == [] {
    } else if n == 0 {
      NoneWithin(h, from);
    } else {
      AtMostFirst(h[1..], from, n - 1);
    }
  }

  lemma {:induction false} WithinBudget(h: seq<int>, from: int)
    requires Sorted(h) && Spaced(h)
    ensures Within(h, from) <= RELOAD_BUDGET
  {
    if h != [] {
      if h[0] < from {
        WithinBudget(h[1..], from);
      } else {
        forall i | RELOAD_BUDGET <= i < |h| ensures h[i] >= from + RELOAD_WINDOW_MS {
          var first := i - RELOAD_BUDGET;
          assert h[first + RELOAD_BUDGET] - h[first] >= RELOAD_WINDOW_MS;
        }
        AtMostFirst(h, from, RELOAD_BUDGET);
      }
    }
  }

  lemma {:induction false} WithinAppend(a: seq<int>, b: seq<int>, from: int)
    ensures Within(a + b, from) == Within(a, from) + Within(b, from)
  {
    if a == [] {
      assert a + b == b;
    } else {
      assert (a + b)[1..] == a[1..] + b;
      WithinAppend(a[1..], b, from);
    }
  }

  lemma {:induction false} WithinSplit(h: seq<Event>, from: int)
    ensures Within(Times(h), from) == Within(Only(h, true), from) + Within(Only(h, false), from)
  {
    if h != [] {
      var e, init := h[|h| - 1], h[..|h| - 1];
      WithinSplit(init, from);
      WithinAppend(Times(init), [e.at], from);
      WithinAppend(Only(init, e.stored), [e.at], from);
      assert Only(init, !e.stored) + [] == Only(init, !e.stored);
      assert Only(h, true) == Only(init, true) + if e.stored then [e.at] else [];
      assert Only(h, false) == Only(init, false) + if e.stored then [] else [e.at];
    }
  }

  /** However the ticks fall, a window holds no more reloads than the budget and
      those in it that could not be recorded: the budget, when all could. */
  lemma ReloadsAreBounded(clock: int, run: seq<Tick>, from: int)
    requires Runs(Started(clock), run)
    ensures var h := After(Started(clock), run).history;
      Within(Times(h), from) <= RELOAD_BUDGET + Within(Only(h, false), from)
      && (AllStored(h) ==> Within(Only(h, false), from) == 0)
  {
    var h := After(Started(clock), run).history;
    RunInv(Started(clock), run);
    WithinBudget(Only(h, true), from);
    WithinSplit(h, from);
    if AllStored(h) {
      OnlyWhenAll(h);
    }
  }

  // ---- When the budget is exceeded ----

  /** A run whose reloads were recorded or not as given, and a window with more
      than the budget. */
  predicate Exceeds(clock: int, outcomes: seq<bool>, run: seq<Tick>, from: int) {
    Runs(Started(clock), run)
    && var h := After(Started(clock), run).history;
       Outcomes(h) == outcomes && Within(Times(h), from) > RELOAD_BUDGET
  }

  /** Some write but the last is refused. */
  predicate RefusedEarly(outcomes: seq<bool>) {
    exists j :: 0 <= j < |outcomes| - 1 && !outcomes[j]
  }

  lemma NotExceeded(clock: int, outcomes: seq<bool>, run: seq<Tick>, from: int)
    requires !(|outcomes| > RELOAD_BUDGET && RefusedEarly(outcomes))
    ensures !Exceeds(clock, outcomes, run, from)
  {
    if Runs(Started(clock), run) && Outcomes(After(Started(clock), run).history) == outcomes {
      var h := After(Started(clock), run).history;
      RunInv(Started(clock), run);
      forall i | 0 <= i && i + RELOAD_BUDGET < |h|
        ensures Times(h)[i + RELOAD_BUDGET] - Times(h)[i] >= RELOAD_WINDOW_MS
      {
        assert outcomes[i] && outcomes[i + 1] && outcomes[i + 2];
        assert FourthLater(h, i);
      }
      WithinBudget(Times(h), from);
    }
  }

  // ---- The runs that exceed it ----

  /** A visible page on an old build reloads, if it may. */
  function At(now: int, stored: bool): Tick { Tick(true, Moved, now, now, now, stored) }

  lemma {:induction false} RunsAppend(s: State, a: seq<Tick>, b: seq<Tick>)
    requires Runs(s, a) && Runs(After(s, a), b)
    ensures Runs(s, a + b) && After(s, a + b) == After(After(s, a), b)
    decreases |a|
  {
    if a == [] {
      assert a + b == b;
    } else {
      assert (a + b)[1..] == a[1..] + b;
      RunsAppend(Step(s, a[0]), a[1..], b);
    }
  }

  lemma {:induction false} NoneRecent(log: seq<int>, now: int)
    requires UpTo(log, now - RELOAD_WINDOW_MS)
    ensures Recent(log, now) == []
  {
    if log != [] {
      NoneRecent(log[1..], now);
    }
  }

  predicate Rested(s: State, now: int) { s.clock <= now && UpTo(s.log, now - RELOAD_WINDOW_MS) }

  function Recorded(outcomes: seq<bool>): nat {
    if outcomes == [] then 0
    else Recorded(outcomes[..|outcomes| - 1]) + if outcomes[|outcomes| - 1] then 1 else 0
  }

  function Events(now: int, outcomes: seq<bool>): (es: seq<Event>)
    ensures |es| == |outcomes| && forall i :: 0 <= i < |es| ==> es[i] == Event(now, outcomes[i])
  {
    if outcomes == [] then [] else Events(now, outcomes[..|outcomes| - 1]) + [Event(now, outcomes[|outcomes| - 1])]
  }

  /** While the budget lasts, every tick of a burst reloads. */
  lemma {:induction false} BurstRuns(s: State, now: int, outcomes: seq<bool>) returns (run: seq<Tick>)
    requires Rested(s, now) && (outcomes == [] || Recorded(outcomes[..|outcomes| - 1]) < RELOAD_BUDGET)
    ensures Runs(s, run) && After(s, run).history == s.history + Events(now, outcomes)
    ensures |Recent(After(s, run).log, now)| == Recorded(outcomes)
    ensures After(s, run).clock <= now && UpTo(After(s, run).log, now)
      && (outcomes != [] ==> After(s, run).clock == now)
  {
    if outcomes == [] {
      run := [];
      NoneRecent(s.log, now);
      assert s.history + [] == s.history;
    } else {
      var init, last := outcomes[..|outcomes| - 1], outcomes[|outcomes| - 1];
      assert init == [] || Recorded(init[..|init| - 1]) <= Recorded(init);
      var most := BurstRuns(s, now, init);
      var t := After(s, most);
      BurstStep(t, now, last);
      assert [At(now, last)][1..] == [];
      RunsAppend(s, most, [At(now, last)]);
      run := most + [At(now, last)];
      assert s.history + Events(now, init) + [Event(now, last)] == s.history + Events(now, outcomes);
    }
  }

  lemma BurstStep(t: State, now: int, stored: bool)
    requires t.clock <= now && |Recent(t.log, now)| < RELOAD_BUDGET && UpTo(t.log, now)
    ensures var u := Step(t, At(now, stored));
      Enabled(t, At(now, stored)) && u.history == t.history + [Event(now, stored)] && u.clock == now && UpTo(u.log, now)
      && |Recent(u.log, now)| == |Recent(t.log, now)| + if stored then 1 else 0
  {
    RecentConcat(Recent(t.log, now), [now], now);
    RecentOfRecent(t.log, now, now);
    RecentMembers(t.log, now);
    assert [now][1..] == [];
  }

  lemma {:induction false} RecentMembers(log: seq<int>, now: int)
    requires UpTo(log, now)
    ensures UpTo(Recent(log, now), now)
  {
    if log != [] {
      RecentMembers(log[1..], now);
    }
  }

  lemma OutcomesAppend(a: seq<Event>, b: seq<Event>)
    ensures Outcomes(a + b) == Outcomes(a) + Outcomes(b)
  {
  }

  lemma OutcomesOfEvents(now: int, outcomes: seq<bool>)
    ensures Outcomes(Events(now, outcomes)) == outcomes
  {
  }

  /** Reloads a window apart are never held back. */
  lemma {:induction false} ApartRuns(s: State, outcomes: seq<bool>) returns (run: seq<Tick>, es: seq<Event>)
    requires UpTo(s.log, s.clock)
    ensures Runs(s, run) && After(s, run).history == s.history + es && Outcomes(es) == outcomes
    ensures UpTo(After(s, run).log, After(s, run).clock)
    decreases |outcomes|
  {
    if outcomes == [] {
      run, es := [], [];
      assert s.history + [] == s.history;
    } else {
      var now := s.clock + RELOAD_WINDOW_MS;
      var first := OneReload(s, now, outcomes[0]);
      var t := After(s, first);
      var rest, more := ApartRuns(t, outcomes[1..]);
      Joined(s, first, rest, [Event(now, outcomes[0])], more);
      run, es := first + rest, [Event(now, outcomes[0])] + more;
      OutcomesCons(Event(now, outcomes[0]), more, outcomes);
    }
  }

  lemma Joined(s: State, a: seq<Tick>, b: seq<Tick>, es: seq<Event>, gs: seq<Event>)
    requires Runs(s, a) && Runs(After(s, a), b)
    requires After(s, a).history == s.history + es && After(After(s, a), b).history == After(s, a).history + gs
    ensures Runs(s, a + b) && After(s, a + b) == After(After(s, a), b)
      && After(s, a + b).history == s.history + (es + gs)
  {
    RunsAppend(s, a, b);
    Reassociate(s.history, es, gs);
  }

  lemma Reassociate(a: seq<Event>, b: seq<Event>, c: seq<Event>)
    ensures (a + b) + c == a + (b + c)
  {
  }

  lemma OutcomesCons(e: Event, more: seq<Event>, outcomes: seq<bool>)
    requires outcomes != [] && e.stored == outcomes[0] && Outcomes(more) == outcomes[1..]
    ensures Outcomes([e] + more) == outcomes
  {
    OutcomesAppend([e], more);
    assert [outcomes[0]] + outcomes[1..] == outcomes;
  }

  lemma OneReload(s: State, now: int, stored: bool) returns (run: seq<Tick>)
    requires Rested(s, now)
    ensures Runs(s, run) && After(s, run).history == s.history + [Event(now, stored)]
    ensures After(s, run).clock == now && UpTo(After(s, run).log, now)
  {
    assert [stored][..0] == [] && Events(now, [stored]) == [Event(now, stored)];
    run := BurstRuns(s, now, [stored]);
  }

  /** Four reloads at one moment, the first three not all recorded. */
  lemma ExceedingRun(clock: int, outcomes: seq<bool>, i: nat) returns (run: seq<Tick>, from: int)
    requires i + RELOAD_BUDGET < |outcomes| && !(outcomes[i] && outcomes[i + 1] && outcomes[i + 2])
    ensures Exceeds(clock, outcomes, run, from)
  {
    var s, before, four, after := Started(clock), outcomes[..i], outcomes[i..i + 4], outcomes[i + 4..];
    var one, es := ApartRuns(s, before);
    var t := After(s, one);
    from := t.clock + RELOAD_WINDOW_MS;
    RecordedThree(four);
    var two := BurstRuns(t, from, four);
    var three, gs := ApartRuns(After(t, two), after);
    Joined(t, two, three, Events(from, four), gs);
    Joined(s, one, two + three, es, Events(from, four) + gs);
    run := one + (two + three);
    ThreeParts(es, from, four, gs);
    ThreeSlices(outcomes, i);
  }

  lemma ThreeSlices(outcomes: seq<bool>, i: nat)
    requires i + 4 <= |outcomes|
    ensures outcomes[..i] + outcomes[i..i + 4] + outcomes[i + 4..] == outcomes
  {
  }

  lemma ThreeParts(es: seq<Event>, now: int, four: seq<bool>, gs: seq<Event>)
    requires |four| == 4
    ensures var h := [] + (es + (Events(now, four) + gs));
      Outcomes(h) == Outcomes(es) + four + Outcomes(gs) && Within(Times(h), now) >= 4
  {
    var mid := Events(now, four);
    var h := es + mid + gs;
    OutcomesAppend(es + mid, gs);
    OutcomesAppend(es, mid);
    OutcomesOfEvents(now, four);
    InMiddle(es, mid, gs);
    FourInMiddle(Times(h), |es|, now);
  }

  lemma InMiddle(a: seq<Event>, b: seq<Event>, c: seq<Event>)
    ensures [] + (a + (b + c)) == a + b + c
    ensures forall k :: 0 <= k < |b| ==> (a + b + c)[|a| + k] == b[k]
  {
  }

  lemma FourInMiddle(h: seq<int>, k: nat, from: int)
    requires k + 4 <= |h| && h[k] == from && h[k + 1] == from && h[k + 2] == from && h[k + 3] == from
    ensures Within(h, from) >= 4
  {
    assert h == h[..k] + h[k..k + 4] + h[k + 4..];
    WithinAppend(h[..k] + h[k..k + 4], h[k + 4..], from);
    WithinAppend(h[..k], h[k..k + 4], from);
    AllWithin(h[k..k + 4], from);
  }

  lemma {:induction false} AllWithin(h: seq<int>, from: int)
    requires forall i :: 0 <= i < |h| ==> h[i] == from
    ensures Within(h, from) == |h|
  {
    if h != [] {
      AllWithin(h[1..], from);
    }
  }

  lemma RecordedThree(four: seq<bool>)
    requires |four| == 4 && !(four[0] && four[1] && four[2])
    ensures Recorded(four[..3]) < RELOAD_BUDGET
  {
    var three, two, one := four[..3], four[..2], four[..1];
    assert three[..2] == two && two[..1] == one && one[..0] == [];
    assert Recorded(one) == if four[0] then 1 else 0;
    assert Recorded(two) == Recorded(one) + if four[1] then 1 else 0;
    assert Recorded(three) == Recorded(two) + if four[2] then 1 else 0;
  }

  /** Which reloads could be recorded decides whether the budget can be exceeded:
      exactly when there are more than the budget and the record of one but the
      last was refused. */
  lemma ExceededExactly(clock: int, outcomes: seq<bool>)
    ensures (exists run, from :: Exceeds(clock, outcomes, run, from))
       <==> |outcomes| > RELOAD_BUDGET && RefusedEarly(outcomes)
  {
    if |outcomes| > RELOAD_BUDGET && RefusedEarly(outcomes) {
      var j :| 0 <= j < |outcomes| - 1 && !outcomes[j];
      var run, from := ExceedingRun(clock, outcomes, if j + RELOAD_BUDGET < |outcomes| then j else |outcomes| - 4);
    } else {
      forall run, from ensures !Exceeds(clock, outcomes, run, from) {
        NotExceeded(clock, outcomes, run, from);
      }
    }
  }

  // ---- Without storage ----

  function Unstored(clock: int, n: nat): seq<Tick> {
    if n == 0 then [] else [At(clock, false)] + Unstored(clock, n - 1)
  }

  /** A browser that refuses to store the log has no budget: it can reload any
      number of times at once. */
  lemma {:induction false} NoStorageNoBudget(clock: int, history: seq<Event>, n: nat)
    ensures var s := State([], history, clock);
      Runs(s, Unstored(clock, n)) && |After(s, Unstored(clock, n)).history| == |history| + n
    decreases n
  {
    if n > 0 {
      NoStorageNoBudget(clock, history + [Event(clock, false)], n - 1);
      assert Unstored(clock, n)[1..] == Unstored(clock, n - 1);
    }
  }

  // ---- The rule ----

  /** How many entries of the log are less than two minutes old. */
  function Lately(log: seq<int>, now: int): nat {
    if log == [] then 0 else (if now < log[0] + 120000 then 1 else 0) + Lately(log[1..], now)
  }

  lemma {:induction false} RecentCounts(log: seq<int>, now: int)
    ensures |Recent(log, now)| == Lately(log, now)
    ensures forall t :: t in Recent(log, now) <==> t in log && now < t + 120000
  {
    if log != [] {
      RecentCounts(log[1..], now);
    }
  }

  /** A visible page whose build moved reloads while fewer than three reloads are
      that recent, and then gives up; any other visible page refreshes its data. */
  lemma DecidedExactly(visible: bool, build: Build, log: seq<int>, now: int)
    ensures Decide(visible, build, log, now)
         == if !visible then Idle
            else if build != Moved then Refresh
            else if Lately(log, now) < 3 then Reload
            else GiveUp
  {
    RecentCounts(log, now);
  }

  /** A reload leaves in the log what is still recent, and itself behind it, if the
      browser lets it be stored; nothing else touches the log. */
  lemma LoggedExactly(log: seq<int>, t: Tick)
    ensures LogAfter(log, t)
         == if t.visible && t.build == Moved && Lately(log, t.decidedAt) < 3 && t.stored
            then Recent(log, t.prunedAt) + [t.stampedAt] else log
  {
    RecentCounts(log, t.decidedAt);
  }

  /** An interval of the window's length, and which reloads it holds. */
  lemma {:induction false} WithinExactly(h: seq<int>, from: int)
    ensures Within(h, from) > 0 <==> exists i :: 0 <= i < |h| && from <= h[i] < from + 120000
    ensures Within(h, from) <= |h|
    ensures Within(h, from) == |h| <==> forall i :: 0 <= i < |h| ==> from <= h[i] < from + 120000
  {
    if h != [] {
      WithinExactly(h[1..], from);
      assert forall i :: 0 < i < |h| ==> h[i] == h[1..][i - 1];
      assert forall i :: 0 <= i < |h[1..]| ==> h[1..][i] == h[i + 1];
    }
  }
}
