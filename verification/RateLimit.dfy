/** The in-memory rate limiter: fixed windows per key, and a timer that drops the
    windows that are over. */
module RateLimit {
  import opened Text

  datatype Entry = Entry(count: nat, resetAt: int)

  datatype Config = Config(windowMs: nat, maxRequests: nat)

  datatype Answer = Answer(allowed: bool, remaining: nat, resetAt: int)

  type Buckets = map<string, Entry>

  /** The window a key is in, if it is not over: it lasts through `resetAt`. */
  function Live(b: Buckets, key: string, now: int): Option<Entry> {
    if key in b && b[key].resetAt >= now then Some(b[key]) else None
  }

  /** The window a request at `now` falls in, the request counted. */
  function Counted(b: Buckets, key: string, c: Config, now: int): Entry {
    match Live(b, key, now)
    case None => Entry(1, now + c.windowMs)
    case Some(e) => e.(count := e.count + 1)
  }

  function AnswerOf(e: Entry, c: Config): Answer {
    if e.count > c.maxRequests then Answer(false, 0, e.resetAt) else Answer(true, c.maxRequests - e.count, e.resetAt)
  }

  function Cleaned(b: Buckets, now: int): Buckets {
    map key | key in b && b[key].resetAt >= now :: b[key]
  }

  class Limiter {
    var buckets: Buckets

    constructor ()
      ensures buckets == map[]
    {
      buckets := map[];
    }

    /** `checkRateLimitFallback`. */
    method Check(key: string, c: Config, now: int) returns (answer: Answer)
      modifies this
      ensures buckets == old(buckets)[key := Counted(old(buckets), key, c, now)]
      ensures answer == AnswerOf(Counted(old(buckets), key, c, now), c)
    {
      if key !in buckets || buckets[key].resetAt < now {
        buckets := buckets[key := Entry(0, now + c.windowMs)];
      }
      buckets := buckets[key := buckets[key].(count := buckets[key].count + 1)];
      var entry := buckets[key];
      if entry.count > c.maxRequests {
        return Answer(false, 0, entry.resetAt);
      }
      answer := Answer(true, c.maxRequests - entry.count, entry.resetAt);
    }

    /** The body of the cleanup timer. */
    method Cleanup(now: int)
      modifies this
      ensures buckets == Cleaned(old(buckets), now)
    {
      var keys := buckets.Keys;
      ghost var was := buckets;
      while keys != {}
        invariant keys <= was.Keys && buckets.Keys <= was.Keys
        invariant forall k :: k in was ==> (k in buckets <==> k in keys || was[k].resetAt >= now)
        invariant forall k :: k in buckets ==> buckets[k] == was[k]
        decreases |keys|
      {
        var key :| key in keys;
        if buckets[key].resetAt < now {
          buckets := buckets - {key};
        }
        keys := keys - {key};
      }
    }
  }

  // ---- Runs ----

  datatype Event = Call(key: string, c: Config, at: int) | Clean(at: int)

  function Apply(b: Buckets, e: Event): Buckets {
    match e
    case Call(key, c, at) => b[key := Counted(b, key, c, at)]
    case Clean(at) => Cleaned(b, at)
  }

  /** Time does not go back. */
  predicate Ordered(run: seq<Event>, clock: int)
    decreases |run|
  {
    run == [] || (clock <= run[0].at && Ordered(run[1..], run[0].at))
  }

  /** The answers to the calls on one key, in order. */
  function Answers(b: Buckets, run: seq<Event>, key: string): seq<Answer>
    decreases |run|
  {
    if run == [] then []
    else (if run[0].Call? && run[0].key == key then [AnswerOf(Counted(b, key, run[0].c, run[0].at), run[0].c)] else [])
         + Answers(Apply(b, run[0]), run[1..], key)
  }

  /** A run without anything but the calls on one key. */
  function OnlyKey(run: seq<Event>, key: string): seq<Event> {
    if run == [] then []
    else (if run[0].Call? && run[0].key == key then [run[0]] else []) + OnlyKey(run[1..], key)
  }

  /** From `clock` on, two tables hold the same window for a key. */
  ghost predicate Alike(a: Buckets, b: Buckets, key: string, clock: int) {
    forall now :: clock <= now ==> Live(a, key, now) == Live(b, key, now)
  }

  lemma StepAlike(a: Buckets, b: Buckets, key: string, e: Event, clock: int)
    requires Alike(a, b, key, clock) && clock <= e.at
    ensures !(e.Call? && e.key == key) ==> Alike(Apply(a, e), b, key, e.at)
    ensures e.Call? && e.key == key ==>
      Counted(a, key, e.c, e.at) == Counted(b, key, e.c, e.at) && Alike(Apply(a, e), Apply(b, e), key, e.at)
  {
    if e.Call? && e.key == key {
      assert Live(a, key, e.at) == Live(b, key, e.at);
    } else {
      forall now | e.at <= now ensures Live(Apply(a, e), key, now) == Live(b, key, now) {
        assert Live(a, key, now) == Live(b, key, now);
      }
    }
  }

  lemma {:induction false} AnswersAlike(a: Buckets, b: Buckets, run: seq<Event>, key: string, clock: int)
    requires Alike(a, b, key, clock) && Ordered(run, clock)
    ensures Answers(a, run, key) == Answers(b, OnlyKey(run, key), key)
    decreases |run|
  {
    if run != [] {
      var e, rest := run[0], OnlyKey(run[1..], key);
      StepAlike(a, b, key, e, clock);
      if e.Call? && e.key == key {
        AnswersAlike(Apply(a, e), Apply(b, e), run[1..], key, e.at);
        assert OnlyKey(run, key)[0] == e && OnlyKey(run, key)[1..] == rest;
      } else {
        AnswersAlike(Apply(a, e), b, run[1..], key, e.at);
        assert OnlyKey(run, key) == rest;
      }
    }
  }

  /** What a key is answered depends on its own calls alone: neither calls on
      other keys nor cleanups, at whatever moments, change anything. */
  lemma KeysAreIndependent(b: Buckets, run: seq<Event>, key: string, clock: int)
    requires Ordered(run, clock)
    ensures Answers(b, run, key) == Answers(b, OnlyKey(run, key), key)
  {
    AnswersAlike(b, b, run, key, clock);
  }

  // ---- How many are allowed ----

  /** A request that was allowed, and the end of the window it was counted in. */
  datatype Grant = Grant(at: int, resetAt: int)

  function Granted(h: seq<Grant>, b: Buckets, e: Event, key: string): seq<Grant> {
    if e.Call? && e.key == key && Counted(b, key, e.c, e.at).count <= e.c.maxRequests
    then h + [Grant(e.at, Counted(b, key, e.c, e.at).resetAt)] else h
  }

  function Grants(h: seq<Grant>, b: Buckets, run: seq<Event>, key: string): seq<Grant>
    decreases |run|
  {
    if run == [] then h else Grants(Granted(h, b, run[0], key), Apply(b, run[0]), run[1..], key)
  }

  function InBucket(h: seq<Grant>, resetAt: int): nat {
    if h == [] then 0 else InBucket(h[..|h| - 1], resetAt) + (if h[|h| - 1].resetAt == resetAt then 1 else 0)
  }

  function InInterval(h: seq<Grant>, from: int, c: Config): nat {
    if h == [] then 0
    else InInterval(h[..|h| - 1], from, c) + (if Hits(h[|h| - 1], from, c) then 1 else 0)
  }

  predicate Hits(g: Grant, from: int, c: Config) { from <= g.at <= from + c.windowMs }

  /** Every call on the key has the same limits. */
  predicate Limits(run: seq<Event>, key: string, c: Config) {
    forall i :: 0 <= i < |run| && run[i].Call? && run[i].key == key ==> run[i].c == c
  }

  function Min(a: nat, b: nat): nat { if a < b then a else b }

  predicate Placed(g: Grant, c: Config, clock: int) { g.resetAt - c.windowMs <= g.at <= g.resetAt && g.at <= clock }

  /** Different windows do not touch. */
  predicate Apart(x: int, y: int, c: Config) { x == y || x < y - c.windowMs || y < x - c.windowMs }

  ghost predicate Inv(h: seq<Grant>, b: Buckets, key: string, c: Config, clock: int) {
    (forall i :: 0 <= i < |h| ==> Placed(h[i], c, clock))
    && (forall i, j :: 0 <= i < |h| && 0 <= j < |h| ==> Apart(h[i].resetAt, h[j].resetAt, c))
    && (forall r: int :: InBucket(h, r) <= c.maxRequests)
    && (if key in b then Current(h, b[key], c, clock) else forall i :: 0 <= i < |h| ==> h[i].resetAt < clock)
  }

  /** The window that is stored is the last one, and counts its grants. */
  ghost predicate Current(h: seq<Grant>, e: Entry, c: Config, clock: int) {
    e.count >= 1 && e.resetAt - c.windowMs <= clock
    && InBucket(h, e.resetAt) == Min(e.count, c.maxRequests)
    && forall i :: 0 <= i < |h| ==> h[i].resetAt == e.resetAt || h[i].resetAt < e.resetAt - c.windowMs
  }

  lemma InBucketOne(h: seq<Grant>, g: Grant, r: int)
    ensures InBucket(h + [g], r) == InBucket(h, r) + (if g.resetAt == r then 1 else 0)
  {
    assert (h + [g])[..|h|] == h;
  }

  lemma {:induction false} NoneInBucket(h: seq<Grant>, r: int)
    requires forall i :: 0 <= i < |h| ==> h[i].resetAt != r
    ensures InBucket(h, r) == 0
  {
    if h != [] {
      NoneInBucket(h[..|h| - 1], r);
    }
  }

  /** A window opened now lies after all those before it, and has no grant yet. */
  lemma OpensApart(h: seq<Grant>, b: Buckets, key: string, c: Config, clock: int, now: int)
    requires Inv(h, b, key, c, clock) && clock <= now && Live(b, key, now).None?
    ensures forall i :: 0 <= i < |h| ==> h[i].resetAt < now
    ensures InBucket(h, now + c.windowMs) == 0
  {
    NoneInBucket(h, now + c.windowMs);
  }

  /** The window of a call: how many it granted, and where it lies. */
  lemma WindowOfCall(h: seq<Grant>, b: Buckets, key: string, c: Config, clock: int, now: int)
    requires Inv(h, b, key, c, clock) && clock <= now
    ensures var e := Counted(b, key, c, now);
      InBucket(h, e.resetAt) == Min(e.count - 1, c.maxRequests)
      && e.count >= 1 && e.resetAt - c.windowMs <= now <= e.resetAt
      && forall i :: 0 <= i < |h| ==> h[i].resetAt == e.resetAt || h[i].resetAt < e.resetAt - c.windowMs
  {
    if Live(b, key, now).None? {
      OpensApart(h, b, key, c, clock, now);
    }
  }

  /** One more grant, of a window in which the others are or which lies after
      theirs. */
  lemma GrantPlaced(h: seq<Grant>, c: Config, clock: int, g: Grant)
    requires forall i :: 0 <= i < |h| ==> Placed(h[i], c, clock)
    requires clock <= g.at && g.resetAt - c.windowMs <= g.at <= g.resetAt
    ensures var t := h + [g]; forall i :: 0 <= i < |t| ==> Placed(t[i], c, g.at)
  {
  }

  lemma GrantApart(h: seq<Grant>, c: Config, g: Grant)
    requires forall i, j :: 0 <= i < |h| && 0 <= j < |h| ==> Apart(h[i].resetAt, h[j].resetAt, c)
    requires forall i :: 0 <= i < |h| ==> h[i].resetAt == g.resetAt || h[i].resetAt < g.resetAt - c.windowMs
    ensures var t := h + [g];
      forall i, j :: 0 <= i < |t| && 0 <= j < |t| ==> Apart(t[i].resetAt, t[j].resetAt, c)
  {
    var t := h + [g];
    forall i, j | 0 <= i < |t| && 0 <= j < |t| ensures Apart(t[i].resetAt, t[j].resetAt, c) {
      if i < |h| && j < |h| {
        assert Apart(h[i].resetAt, h[j].resetAt, c);
      }
    }
  }

  lemma GrantLimits(h: seq<Grant>, g: Grant, max: nat)
    requires (forall r: int :: InBucket(h, r) <= max) && InBucket(h, g.resetAt) < max
    ensures forall r: int :: InBucket(h + [g], r) <= max
  {
    forall r: int ensures InBucket(h + [g], r) <= max {
      InBucketOne(h, g, r);
    }
  }

  /** The stored window after a call, whether it was allowed or not. */
  lemma CallCurrent(h: seq<Grant>, w: Entry, c: Config, now: int)
    requires w.count >= 1 && w.resetAt - c.windowMs <= now <= w.resetAt
    requires InBucket(h, w.resetAt) == Min(w.count - 1, c.maxRequests)
    requires forall i :: 0 <= i < |h| ==> h[i].resetAt == w.resetAt || h[i].resetAt < w.resetAt - c.windowMs
    ensures Current(if w.count <= c.maxRequests then h + [Grant(now, w.resetAt)] else h, w, c, now)
  {
    InBucketOne(h, Grant(now, w.resetAt), w.resetAt);
  }

  lemma CallInv(h: seq<Grant>, b: Buckets, key: string, c: Config, clock: int, now: int)
    requires Inv(h, b, key, c, clock) && clock <= now
    ensures var e := Call(key, c, now); Inv(Granted(h, b, e, key), Apply(b, e), key, c, now)
  {
    var w := Counted(b, key, c, now);
    WindowOfCall(h, b, key, c, clock, now);
    CallCurrent(h, w, c, now);
    if w.count <= c.maxRequests {
      var g := Grant(now, w.resetAt);
      GrantPlaced(h, c, clock, g);
      GrantApart(h, c, g);
      GrantLimits(h, g, c.maxRequests);
    }
  }

  lemma StepInv(h: seq<Grant>, b: Buckets, key: string, c: Config, clock: int, e: Event)
    requires Inv(h, b, key, c, clock) && clock <= e.at && (e.Call? && e.key == key ==> e.c == c)
    ensures Inv(Granted(h, b, e, key), Apply(b, e), key, c, e.at)
  {
    if e.Call? && e.key == key {
      CallInv(h, b, key, c, clock, e.at);
    }
  }

  function After(b: Buckets, run: seq<Event>): Buckets
    decreases |run|
  {
    if run == [] then b else After(Apply(b, run[0]), run[1..])
  }

  function Clock(run: seq<Event>, clock: int): int { if run == [] then clock else run[|run| - 1].at }

  lemma {:induction false} RunInv(h: seq<Grant>, b: Buckets, run: seq<Event>, key: string, c: Config, clock: int)
    requires Inv(h, b, key, c, clock) && Ordered(run, clock) && Limits(run, key, c)
    ensures Inv(Grants(h, b, run, key), After(b, run), key, c, Clock(run, clock))
    decreases |run|
  {
    if run != [] {
      StepInv(h, b, key, c, clock, run[0]);
      RunInv(Granted(h, b, run[0], key), Apply(b, run[0]), run[1..], key, c, run[0].at);
      assert |run| > 1 ==> run[1..][|run| - 2] == run[|run| - 1];
    }
  }

  lemma ReachedInv(run: seq<Event>, key: string, c: Config, clock: int)
    requires Ordered(run, clock) && Limits(run, key, c)
    ensures Inv(Grants([], map[], run, key), After(map[], run), key, c, Clock(run, clock))
  {
    RunInv([], map[], run, key, c, clock);
  }

  /** What a call is told, in any state of the key. */
  lemma AnswerOfCall(h: seq<Grant>, b: Buckets, key: string, c: Config, clock: int, now: int)
    requires Inv(h, b, key, c, clock) && clock <= now
    ensures var x := AnswerOf(Counted(b, key, c, now), c);
      (x.allowed <==> InBucket(h, x.resetAt) < c.maxRequests)
      && x.remaining == (if x.allowed then c.maxRequests - InBucket(h, x.resetAt) - 1 else 0)
      && x.resetAt - c.windowMs <= now <= x.resetAt
  {
    WindowOfCall(h, b, key, c, clock, now);
  }

  /** A call is refused exactly when its window has already granted the limit,
      and an allowed one is told how many are left. */
  lemma RefusedExactly(run: seq<Event>, key: string, c: Config, clock: int, now: int)
    requires Ordered(run, clock) && Limits(run, key, c) && Clock(run, clock) <= now
    ensures
      var h := Grants([], map[], run, key);
      var e := Counted(After(map[], run), key, c, now);
      var x := AnswerOf(e, c);
      (x.allowed <==> InBucket(h, x.resetAt) < c.maxRequests)
      && x.remaining == (if x.allowed then c.maxRequests - InBucket(h, x.resetAt) - 1 else 0)
      && x.resetAt - c.windowMs <= now <= x.resetAt
  {
    var h, b := Grants([], map[], run, key), After(map[], run);
    ReachedInv(run, key, c, clock);
    AnswerOfCall(h, b, key, c, Clock(run, clock), now);
  }

  /** No window grants more than the limit. */
  lemma PerWindow(run: seq<Event>, key: string, c: Config, clock: int, resetAt: int)
    requires Ordered(run, clock) && Limits(run, key, c)
    ensures InBucket(Grants([], map[], run, key), resetAt) <= c.maxRequests
  {
    ReachedInv(run, key, c, clock);
  }

  lemma {:induction false} InOneOrTwo(h: seq<Grant>, from: int, c: Config, x: int, y: int)
    requires forall i :: 0 <= i < |h| && Hits(h[i], from, c) ==> h[i].resetAt == x || h[i].resetAt == y
    ensures InInterval(h, from, c) <= InBucket(h, x) + InBucket(h, y)
    ensures x == y ==> InInterval(h, from, c) <= InBucket(h, x)
  {
    if h != [] {
      InOneOrTwo(h[..|h| - 1], from, c, x, y);
    }
  }

  /** Of the windows that an interval of one window's length meets, there are at
      most two. */
  lemma AtMostTwo(h: seq<Grant>, c: Config, clock: int, from: int, i: nat, j: nat, k: nat)
    requires forall i :: 0 <= i < |h| ==> Placed(h[i], c, clock)
    requires forall i, j :: 0 <= i < |h| && 0 <= j < |h| ==> Apart(h[i].resetAt, h[j].resetAt, c)
    requires i < |h| && j < |h| && k < |h| && Hits(h[i], from, c) && Hits(h[j], from, c) && Hits(h[k], from, c)
    ensures h[i].resetAt == h[j].resetAt || h[i].resetAt == h[k].resetAt || h[j].resetAt == h[k].resetAt
  {
    assert Placed(h[i], c, clock) && Placed(h[j], c, clock) && Placed(h[k], c, clock);
    assert Apart(h[i].resetAt, h[j].resetAt, c) && Apart(h[i].resetAt, h[k].resetAt, c)
      && Apart(h[j].resetAt, h[k].resetAt, c);
  }

  lemma InBothBuckets(h: seq<Grant>, c: Config, clock: int, from: int)
    requires forall i :: 0 <= i < |h| ==> Placed(h[i], c, clock)
    requires forall i, j :: 0 <= i < |h| && 0 <= j < |h| ==> Apart(h[i].resetAt, h[j].resetAt, c)
    requires forall r: int :: InBucket(h, r) <= c.maxRequests
    ensures InInterval(h, from, c) <= 2 * c.maxRequests
  {
    if i :| 0 <= i < |h| && Hits(h[i], from, c) {
      var x := h[i].resetAt;
      if j :| 0 <= j < |h| && Hits(h[j], from, c) && h[j].resetAt != x {
        var y := h[j].resetAt;
        forall k | 0 <= k < |h| && Hits(h[k], from, c) ensures h[k].resetAt == x || h[k].resetAt == y {
          AtMostTwo(h, c, clock, from, i, j, k);
        }
        InOneOrTwo(h, from, c, x, y);
      } else {
        InOneOrTwo(h, from, c, x, x);
      }
    } else {
      InOneOrTwo(h, from, c, 0, 0);
    }
  }

  /** No interval of a window's length, wherever it starts, holds more than twice
      the limit. */
  lemma TwicePerInterval(run: seq<Event>, key: string, c: Config, clock: int, from: int)
    requires Ordered(run, clock) && Limits(run, key, c)
    ensures InInterval(Grants([], map[], run, key), from, c) <= 2 * c.maxRequests
  {
    ReachedInv(run, key, c, clock);
    InBothBuckets(Grants([], map[], run, key), c, Clock(run, clock), from);
  }
}
