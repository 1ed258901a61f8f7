/** The reputation aggregate, over real numbers: how the events of one signal
    become its value, and the values a score. How an event ages is given: any
    factor above zero and at most one. */
module Reputation {
  import opened Text

  datatype Signal = Delivery | Approval | Collaboration | Security

  datatype Event = Event(id: string, signal: Signal, value: real, hint: Option<real>, decay: real)

  const MIN_EVENTS_FOR_PROVISIONAL := 3

  function SignalWeight(s: Signal): real {
    match s
    case Delivery => 0.35
    case Approval => 0.2
    case Collaboration => 0.2
    case Security => 0.25
  }

  predicate Aged(e: Event) { 0.0 < e.decay <= 1.0 }

  predicate AllAged(es: seq<Event>) { forall i :: 0 <= i < |es| ==> Aged(es[i]) }

  function Max(a: real, b: real): real { if a < b then b else a }

  function Clamp(v: real, low: real, high: real): real {
    if Max(low, v) < high then Max(low, v) else high
  }

  function NormalizeValue(v: real): (r: real)
    ensures 0.0 <= r <= 1.0
  {
    Clamp((v + 1.0) / 2.0, 0.0, 1.0)
  }

  function Sticky(e: Event): (r: real)
    ensures r >= 1.0
  {
    if e.signal == Security && e.value < 0.0 then Max(1.5, 1.0 - e.value) else 1.0
  }

  function EventWeight(e: Event): (w: real)
    requires Aged(e)
    ensures w > 0.0
  {
    var base := Max(0.05, if e.hint.Some? then e.hint.value else 1.0);
    base * e.decay * Sticky(e)
  }

  // ---- Weighted means ----

  datatype Sample = Sample(value: real, weight: real)

  predicate Weighted(xs: seq<Sample>) { forall i :: 0 <= i < |xs| ==> xs[i].weight > 0.0 }

  predicate Within(xs: seq<Sample>, low: real, high: real) {
    forall i :: 0 <= i < |xs| ==> low <= xs[i].value <= high
  }

  function TotalWeight(xs: seq<Sample>): (w: real)
    requires Weighted(xs)
    ensures w >= 0.0 && (w > 0.0 <==> xs != [])
  {
    if xs == [] then 0.0 else TotalWeight(xs[..|xs| - 1]) + xs[|xs| - 1].weight
  }

  function WeightedTotal(xs: seq<Sample>): real {
    if xs == [] then 0.0 else WeightedTotal(xs[..|xs| - 1]) + xs[|xs| - 1].value * xs[|xs| - 1].weight
  }

  function Mean(xs: seq<Sample>): real
    requires Weighted(xs)
  {
    if TotalWeight(xs) > 0.0 then WeightedTotal(xs) / TotalWeight(xs) else 0.0
  }

  lemma MoreAbove(low: real, weight: real, total: real, v: real, w: real)
    requires low * weight <= total && low <= v && w >= 0.0
    ensures low * (weight + w) <= total + v * w
  {
  }

  lemma {:induction false} TotalAbove(xs: seq<Sample>, low: real)
    requires Weighted(xs) && forall i :: 0 <= i < |xs| ==> low <= xs[i].value
    ensures low * TotalWeight(xs) <= WeightedTotal(xs)
  {
    if xs != [] {
      var x, init := xs[|xs| - 1], xs[..|xs| - 1];
      TotalAbove(init, low);
      MoreAbove(low, TotalWeight(init), WeightedTotal(init), x.value, x.weight);
    }
  }

  lemma MoreBelow(high: real, weight: real, total: real, v: real, w: real)
    requires total <= high * weight && v <= high && w >= 0.0
    ensures total + v * w <= high * (weight + w)
  {
  }

  lemma {:induction false} TotalBelow(xs: seq<Sample>, high: real)
    requires Weighted(xs) && forall i :: 0 <= i < |xs| ==> xs[i].value <= high
    ensures WeightedTotal(xs) <= high * TotalWeight(xs)
  {
    if xs != [] {
      var x, init := xs[|xs| - 1], xs[..|xs| - 1];
      TotalBelow(init, high);
      MoreBelow(high, TotalWeight(init), WeightedTotal(init), x.value, x.weight);
    }
  }

  /** A mean lies between any bounds on what it is taken of. */
  lemma MeanBetween(xs: seq<Sample>, low: real, high: real)
    requires Weighted(xs) && xs != [] && Within(xs, low, high)
    ensures low <= Mean(xs) <= high
  {
    var total, weight := WeightedTotal(xs), TotalWeight(xs);
    assert low * weight <= total by { TotalAbove(xs, low); }
    assert total <= high * weight by { TotalBelow(xs, high); }
    assert Mean(xs) == total / weight;
  }

  // ---- One signal ----

  function Of(es: seq<Event>, s: Signal): (r: seq<Event>)
    ensures forall e :: e in r <==> e in es && e.signal == s
  {
    if es == [] then [] else (if es[0].signal == s then [es[0]] else []) + Of(es[1..], s)
  }

  /** Events as samples: normalised values, weighted. */
  function Samples(es: seq<Event>): (xs: seq<Sample>)
    requires AllAged(es)
    ensures |xs| == |es| && Weighted(xs)
    ensures forall i :: 0 <= i < |es| ==> xs[i] == SampleOf(es[i])
  {
    if es == [] then []
    else
      assert es == es[..|es| - 1] + [es[|es| - 1]];
      Samples(es[..|es| - 1]) + [SampleOf(es[|es| - 1])]
  }

  function SampleOf(e: Event): (x: Sample)
    requires Aged(e)
    ensures x.weight > 0.0
  {
    Sample(NormalizeValue(e.value), EventWeight(e))
  }

  datatype Aggregate = Aggregate(signal: Signal, value: real, samples: nat, contribution: real)

  function Summary(xs: seq<Sample>, s: Signal): Aggregate
    requires Weighted(xs)
  {
    var value := Clamp(Mean(xs), 0.0, 1.0);
    Aggregate(s, value, |xs|, if TotalWeight(xs) > 0.0 then value * SignalWeight(s) else 0.0)
  }

  /** The mean of the events of a signal; a clean security record counts in full. */
  function AggregateOf(es: seq<Event>, s: Signal, active: bool): Aggregate
    requires AllAged(es)
  {
    if s == Security && es == [] && active then Aggregate(s, 1.0, 0, SignalWeight(s)) else Summary(Samples(es), s)
  }

  /** The body of `buildSignalAggregates` for one signal. */
  method BuildSignal(events: seq<Event>, s: Signal, active: bool) returns (a: Aggregate)
    requires AllAged(events)
    ensures a == AggregateOf(Of(events, s), s, active)
  {
    var signalEvents := Of(events, s);
    if s == Security && |signalEvents| == 0 && active {
      return Aggregate(s, 1.0, 0, SignalWeight(s));
    }
    ghost var xs := Samples(signalEvents);
    var weightedTotal, totalWeight := 0.0, 0.0;
    for i := 0 to |signalEvents|
      invariant totalWeight == TotalWeight(xs[..i])
      invariant weightedTotal == WeightedTotal(xs[..i])
    {
      Next(xs, i);
      var x := SampleOf(signalEvents[i]);
      totalWeight := totalWeight + x.weight;
      weightedTotal := Accumulate(weightedTotal, x.value, x.weight);
    }
    assert xs[..|xs|] == xs;
    a := Finish(weightedTotal, totalWeight, |signalEvents|, s);
    FinishIs(xs, weightedTotal, totalWeight, s);
  }

  lemma FinishIs(xs: seq<Sample>, weightedTotal: real, totalWeight: real, s: Signal)
    requires Weighted(xs) && weightedTotal == WeightedTotal(xs) && totalWeight == TotalWeight(xs)
    ensures Finish(weightedTotal, totalWeight, |xs|, s) == Summary(xs, s)
  {
  }

  function Accumulate(total: real, value: real, weight: real): real { total + value * weight }

  lemma Next(xs: seq<Sample>, i: nat)
    requires Weighted(xs) && i < |xs|
    ensures TotalWeight(xs[..i + 1]) == TotalWeight(xs[..i]) + xs[i].weight
    ensures WeightedTotal(xs[..i + 1]) == Accumulate(WeightedTotal(xs[..i]), xs[i].value, xs[i].weight)
  {
    assert xs[..i + 1][..i] == xs[..i];
  }

  function Finish(weightedTotal: real, totalWeight: real, samples: nat, s: Signal): Aggregate {
    var value := Clamp(if totalWeight > 0.0 then weightedTotal / totalWeight else 0.0, 0.0, 1.0);
    Aggregate(s, value, samples, if totalWeight > 0.0 then value * SignalWeight(s) else 0.0)
  }

  /** The value of a signal with evidence lies between the least and the greatest
      of its normalised events, whatever their weights and ages. */
  lemma ValueBetween(es: seq<Event>, s: Signal, active: bool, low: real, high: real)
    requires AllAged(es) && es != [] && 0.0 <= low && high <= 1.0
    requires forall i :: 0 <= i < |es| ==> low <= NormalizeValue(es[i].value) <= high
    ensures low <= AggregateOf(es, s, active).value <= high
  {
    MeanBetween(Samples(es), low, high);
  }

  /** Every signal's value is in the unit interval and contributes its share. */
  lemma AggregateSound(es: seq<Event>, s: Signal, active: bool)
    requires AllAged(es)
    ensures var a := AggregateOf(es, s, active); 0.0 <= a.value <= 1.0 && Sound(a)
  {
  }

  // ---- The score ----

  predicate Observed(a: Aggregate) { a.samples > 0 || (a.signal == Security && a.value > 0.0) }

  predicate Sound(a: Aggregate) { a.contribution == a.value * SignalWeight(a.signal) }

  /** The observed signals as samples. */
  function ObservedSamples(signals: seq<Aggregate>): (xs: seq<Sample>)
    ensures Weighted(xs)
  {
    if signals == [] then []
    else
      var a := signals[|signals| - 1];
      ObservedSamples(signals[..|signals| - 1])
        + (if Observed(a) then [Sample(a.value, SignalWeight(a.signal))] else [])
  }

  function ObservedWeight(signals: seq<Aggregate>): real {
    if signals == [] then 0.0
    else ObservedWeight(signals[..|signals| - 1])
         + (if Observed(signals[|signals| - 1]) then SignalWeight(signals[|signals| - 1].signal) else 0.0)
  }

  function ObservedSum(signals: seq<Aggregate>): real {
    if signals == [] then 0.0
    else ObservedSum(signals[..|signals| - 1])
         + (if Observed(signals[|signals| - 1]) then signals[|signals| - 1].contribution else 0.0)
  }

  function RawScore(signals: seq<Aggregate>): real {
    if ObservedWeight(signals) > 0.0 then ObservedSum(signals) / ObservedWeight(signals) else 0.0
  }

  function Score(signals: seq<Aggregate>, observed: nat, penalty: real): Option<real> {
    if observed >= MIN_EVENTS_FOR_PROVISIONAL then Some(Clamp(RawScore(signals) - penalty, 0.0, 1.0)) else None
  }

  predicate AllSound(signals: seq<Aggregate>) { forall i :: 0 <= i < |signals| ==> Sound(signals[i]) }

  lemma {:induction false} SumsAreTotals(signals: seq<Aggregate>)
    requires AllSound(signals)
    ensures ObservedWeight(signals) == TotalWeight(ObservedSamples(signals))
    ensures ObservedSum(signals) == WeightedTotal(ObservedSamples(signals))
  {
    if signals != [] {
      var a, init := signals[|signals| - 1], signals[..|signals| - 1];
      var xs := ObservedSamples(init);
      SumsAreTotals(init);
      if Observed(a) {
        assert ObservedSamples(signals) == xs + [Sample(a.value, SignalWeight(a.signal))];
      } else {
        assert ObservedSamples(signals) == xs;
      }
    }
  }

  /** Before the penalty the score is the weighted mean of the signals that have
      evidence: the others neither raise nor lower it. */
  lemma RawScoreIsMean(signals: seq<Aggregate>)
    requires AllSound(signals)
    ensures RawScore(signals) == Mean(ObservedSamples(signals))
  {
    SumsAreTotals(signals);
  }

  lemma {:induction false} SamplesBetween(signals: seq<Aggregate>, low: real, high: real)
    requires forall i :: 0 <= i < |signals| && Observed(signals[i]) ==> low <= signals[i].value <= high
    ensures Within(ObservedSamples(signals), low, high)
  {
    if signals != [] {
      SamplesBetween(signals[..|signals| - 1], low, high);
    }
  }

  lemma RawScoreBetween(signals: seq<Aggregate>, low: real, high: real)
    requires AllSound(signals) && ObservedSamples(signals) != []
    requires forall i :: 0 <= i < |signals| && Observed(signals[i]) ==> low <= signals[i].value <= high
    ensures low <= RawScore(signals) <= high
  {
    RawScoreIsMean(signals);
    SamplesBetween(signals, low, high);
    MeanBetween(ObservedSamples(signals), low, high);
  }

  /** A visible score is in the unit interval, at most the mean of its signals,
      and below it by no more than the penalty. */
  lemma ScoreBounded(signals: seq<Aggregate>, observed: nat, penalty: real)
    requires AllSound(signals) && 0.0 <= penalty <= 0.35
    requires forall i :: 0 <= i < |signals| ==> 0.0 <= signals[i].value <= 1.0
    ensures Score(signals, observed, penalty).Some? <==> observed >= MIN_EVENTS_FOR_PROVISIONAL
    ensures Score(signals, observed, penalty).Some? ==>
      var score := Score(signals, observed, penalty).value;
      0.0 <= score <= 1.0 && RawScore(signals) - penalty <= score <= RawScore(signals)
  {
    if ObservedSamples(signals) != [] {
      RawScoreBetween(signals, 0.0, 1.0);
    } else {
      RawScoreIsMean(signals);
    }
  }

  // ---- Duplicates ----

  /** The last event with an id. */
  function LastWith(es: seq<Event>, id: string): Option<Event> {
    if es == [] then None
    else if es[|es| - 1].id == id then Some(es[|es| - 1])
    else LastWith(es[..|es| - 1], id)
  }

  /** The map that `dedupeReputationEvents` fills: one event an id, the last. */
  method Dedupe(events: seq<Event>) returns (kept: map<string, Event>)
    ensures forall id :: id in kept <==> LastWith(events, id).Some?
    ensures forall id :: id in kept ==> LastWith(events, id) == Some(kept[id]) && kept[id].id == id
  {
    kept := map[];
    for i := 0 to |events|
      invariant forall id :: id in kept <==> LastWith(events[..i], id).Some?
      invariant forall id :: id in kept ==> LastWith(events[..i], id) == Some(kept[id]) && kept[id].id == id
    {
      assert events[..i + 1][..i] == events[..i];
      kept := kept[events[i].id := events[i]];
    }
    assert events[..|events|] == events;
  }

  // ---- The numbers ----

  /** The shares of the four signals, which are all there is to share. */
  lemma WeightsExactly()
    ensures SignalWeight(Delivery) == 0.35 && SignalWeight(Security) == 0.25
    ensures SignalWeight(Approval) == 0.2 && SignalWeight(Collaboration) == 0.2
    ensures SignalWeight(Delivery) + SignalWeight(Security) + SignalWeight(Approval) + SignalWeight(Collaboration)
         == 1.0
  {
  }

  /** Minus one to one becomes zero to one, evenly; what lies beyond is cut off. */
  lemma NormalizedExactly(v: real)
    ensures -1.0 <= v <= 1.0 ==> 2.0 * NormalizeValue(v) == v + 1.0
    ensures v <= -1.0 ==> NormalizeValue(v) == 0.0
    ensures v >= 1.0 ==> NormalizeValue(v) == 1.0
  {
  }

  /** An event weighs what its hint says, at least a twentieth, and less as it
      ages; a security incident weighs more the worse it is. */
  lemma WeightExactly(e: Event)
    requires Aged(e)
    ensures var hint := if e.hint.None? then 1.0 else if e.hint.value < 0.05 then 0.05 else e.hint.value;
      var incident := if e.signal != Security || e.value >= 0.0 then 1.0
                      else if e.value > -0.5 then 1.5
                      else 1.0 - e.value;
      EventWeight(e) == hint * e.decay * incident
  {
  }

  lemma Divided(total: real, weight: real)
    requires weight > 0.0
    ensures (total / weight) * weight == total
  {
  }

  lemma MeanTimes(xs: seq<Sample>)
    requires Weighted(xs) && xs != []
    ensures Mean(xs) * TotalWeight(xs) == WeightedTotal(xs)
  {
    var total, weight := WeightedTotal(xs), TotalWeight(xs);
    Divided(total, weight);
    assert Mean(xs) == total / weight;
  }

  lemma SummaryIs(xs: seq<Sample>, s: Signal, mean: real)
    requires Weighted(xs) && xs != [] && mean == Mean(xs) && 0.0 <= mean <= 1.0
    ensures Summary(xs, s) == Aggregate(s, mean, |xs|, mean * SignalWeight(s))
  {
  }

  /** A signal with evidence has the mean of its normalised events for value, and
      contributes its share of it. */
  lemma SummaryExactly(xs: seq<Sample>, s: Signal)
    requires Weighted(xs) && xs != [] && Within(xs, 0.0, 1.0)
    ensures Summary(xs, s) == Aggregate(s, Mean(xs), |xs|, Mean(xs) * SignalWeight(s))
  {
    MeanBetween(xs, 0.0, 1.0);
    SummaryIs(xs, s, Mean(xs));
  }

  lemma EvidenceExactly(es: seq<Event>, s: Signal, active: bool)
    requires AllAged(es) && es != []
    ensures AggregateOf(es, s, active) == Summary(Samples(es), s) && |Samples(es)| == |es|
    ensures Within(Samples(es), 0.0, 1.0)
  {
  }

  /** One without contributes nothing, but for a clean security record of an active
      agent, which counts in full. */
  lemma NoEvidenceExactly(s: Signal, active: bool)
    ensures AggregateOf([], s, active)
         == if s == Security && active then Aggregate(s, 1.0, 0, SignalWeight(s)) else Aggregate(s, 0.0, 0, 0.0)
  {
  }

  /** A score is shown from three events on: the mean less the penalty, or zero. */
  lemma ScoreExactly(signals: seq<Aggregate>, observed: nat, penalty: real)
    requires 0.0 <= penalty && RawScore(signals) <= 1.0
    ensures Score(signals, observed, penalty)
         == if observed < 3 then None
            else Some(if RawScore(signals) < penalty then 0.0 else RawScore(signals) - penalty)
  {
  }

  /** Of several events with an id the last one is kept. */
  lemma {:induction false} LastWithExactly(es: seq<Event>, i: nat)
    requires i < |es| && forall j :: i < j < |es| ==> es[j].id != es[i].id
    ensures LastWith(es, es[i].id) == Some(es[i])
  {
    if i < |es| - 1 {
      LastWithExactly(es[..|es| - 1], i);
    }
  }

  lemma {:induction false} LastWithNone(es: seq<Event>, id: string)
    requires forall i :: 0 <= i < |es| ==> es[i].id != id
    ensures LastWith(es, id) == None
  {
    if es != [] {
      LastWithNone(es[..|es| - 1], id);
    }
  }

  /** The signals a score is taken over: those with events, and a security record
      that is not at zero. Each weighs its share. */
  lemma ObservedExactly(signals: seq<Aggregate>, a: Aggregate)
    ensures var counts := a.samples >= 1 || (a.signal == Security && a.value > 0.0);
      ObservedWeight(signals + [a]) == ObservedWeight(signals) + (if counts then SignalWeight(a.signal) else 0.0)
      && ObservedSum(signals + [a]) == ObservedSum(signals) + (if counts then a.contribution else 0.0)
      && ObservedSamples(signals + [a])
         == ObservedSamples(signals) + (if counts then [Sample(a.value, SignalWeight(a.signal))] else [])
  {
    assert (signals + [a])[..|signals|] == signals;
  }
}
