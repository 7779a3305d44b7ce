/** Stream detectors: rise over a baseline, counter increments, sustained thresholds (src/ha/detectors.ts). */
module Detectors {
  import opened Prelude

  datatype Sample = Sample(at: int, value: real)

  datatype Tag = Detected | Cleared

  datatype Event = Event(tag: Tag, at: int, value: real)

  /** Detections and clearings take turns, a detection first. */
  predicate Alternates(out: seq<Event>) {
    forall i | 0 <= i < |out| :: out[i].tag == if i % 2 == 0 then Detected else Cleared
  }

  // ---- relativeRise ----

  /** `alpha` is the smoothing factor after a pause, abstract but for its range. */
  datatype RiseParams = RiseParams(alpha: int -> real, risePct: real, clearPct: real, warmupMs: int)

  datatype RiseState = RiseState(ema: Option<real>, lastAt: Option<int>, firstAt: Option<int>, risen: bool)

  const NO_SAMPLE: RiseState := RiseState(None, None, None, false)

  ghost predicate Smooths(p: RiseParams) {
    forall pause :: 0.0 <= p.alpha(pause) <= 1.0
  }

  function Absorb(p: RiseParams, ema: real, lastAt: int, sample: Sample): real {
    ema + p.alpha(Max(0, sample.at - lastAt)) * (sample.value - ema)
  }

  predicate Rises(p: RiseParams, ema: real, value: real) {
    value >= ema * (1.0 + p.risePct / 100.0)
  }

  predicate Clears(p: RiseParams, ema: real, value: real) {
    value <= ema * (1.0 + p.clearPct / 100.0)
  }

  function RiseStep(p: RiseParams, s: RiseState, sample: Sample): (RiseState, seq<Event>) {
    if s.ema.None? || s.lastAt.None? || s.firstAt.None? then
      (RiseState(Some(sample.value), Some(sample.at), Some(sample.at), false), [])
    else
      var ema, lastAt := s.ema.value, s.lastAt.value;
      var absorbed := s.(ema := Some(Absorb(p, ema, lastAt, sample)), lastAt := Some(sample.at));
      if s.risen then
        if Clears(p, ema, sample.value) then (absorbed.(risen := false), [Event(Cleared, sample.at, sample.value)])
            else (s, [])
      else if sample.at - s.firstAt.value >= p.warmupMs && Rises(p, ema, sample.value) then
        (s.(risen := true), [Event(Detected, sample.at, sample.value)])
      else (absorbed, [])
  }

  function RiseAfter(p: RiseParams, samples: seq<Sample>): RiseState {
    if samples == [] then NO_SAMPLE else RiseStep(p, RiseAfter(p, samples[..|samples| - 1]), samples[|samples| - 1]).0
  }

  function RiseOut(p: RiseParams, samples: seq<Sample>): seq<Event> {
    if samples == [] then [] else
      var front := samples[..|samples| - 1];
      RiseOut(p, front) + RiseStep(p, RiseAfter(p, front), samples[|samples| - 1]).1
  }

  /** The samples the baseline absorbed: those that left it idle. */
  function Absorbed(p: RiseParams, samples: seq<Sample>): seq<real> {
    if samples == [] then [] else
      var front := samples[..|samples| - 1];
      if RiseAfter(p, samples).risen then Absorbed(p, front) else Absorbed(p, front) + [samples[|samples| - 1].value]
  }

  ghost predicate InHull(v: real, values: seq<real>) {
    (exists i :: 0 <= i < |values| && values[i] <= v) && exists j :: 0 <= j < |values| && v <= values[j]
  }

  lemma HullGrows(v: real, values: seq<real>, x: real)
    ensures InHull(v, values) ==> InHull(v, values + [x])
    ensures InHull(x, values + [x])
  {
    var more := values + [x];
    assert more[|values|] == x;
    if InHull(v, values) {
      var i :| 0 <= i < |values| && values[i] <= v;
      var j :| 0 <= j < |values| && v <= values[j];
      assert more[i] == values[i] && more[j] == values[j];
    }
  }

  lemma Fraction(alpha: real, d: real)
    requires 0.0 <= alpha <= 1.0 && d >= 0.0
    ensures 0.0 <= alpha * d <= d
  {
  }

  predicate Between(v: real, a: real, b: real) {
    a <= v <= b || b <= v <= a
  }

  lemma Negated(alpha: real, d: real)
    ensures alpha * -d == -(alpha * d)
  {
  }

  lemma MixIsBetween(alpha: real, a: real, d: real)
    requires 0.0 <= alpha <= 1.0
    ensures Between(a + alpha * d, a, a + d)
  {
    if d >= 0.0 {
      Fraction(alpha, d);
    } else {
      Fraction(alpha, -d);
      Negated(alpha, d);
    }
  }

  lemma AbsorbedIsBetween(p: RiseParams, ema: real, lastAt: int, sample: Sample)
    requires Smooths(p)
    ensures Between(Absorb(p, ema, lastAt, sample), ema, sample.value)
  {
    MixIsBetween(p.alpha(Max(0, sample.at - lastAt)), ema, sample.value - ema);
    assert ema + (sample.value - ema) == sample.value;
  }

  lemma HullMixes(a: real, b: real, v: real, values: seq<real>)
    requires InHull(a, values) && InHull(b, values) && Between(v, a, b)
    ensures InHull(v, values)
  {
  }

  /** Detections and clearings alternate, and the detector is risen exactly after a detection. */
  lemma {:induction false} RisesAlternate(p: RiseParams, samples: seq<Sample>)
    ensures Alternates(RiseOut(p, samples)) && (RiseAfter(p, samples).risen <==> |RiseOut(p, samples)| % 2 == 1)
  {
    if samples != [] {
      RisesAlternate(p, samples[..|samples| - 1]);
    }
  }

  /** A seeded detector stays seeded; its baseline moves only by absorbing a sample that leaves it idle. */
  lemma BaselineMoves(p: RiseParams, s: RiseState, sample: Sample)
    requires s.ema.Some? && s.lastAt.Some? && s.firstAt.Some?
    ensures var s' := RiseStep(p, s, sample).0;
            && s'.ema.Some? && s'.lastAt.Some? && s'.firstAt == s.firstAt
            && (s'.risen ==> s'.ema == s.ema && s'.lastAt == s.lastAt)
            && (s'.ema == s.ema || s'.ema == Some(Absorb(p, s.ema.value, s.lastAt.value, sample)))
  {
  }

  ghost predicate SeededInHull(p: RiseParams, samples: seq<Sample>, s: RiseState)
    requires samples != []
  {
    s.ema.Some? && s.lastAt.Some? && s.firstAt == Some(samples[0].at) && InHull(s.ema.value, Absorbed(p, samples))
  }

  /** The baseline lies within the absorbed samples. */
  lemma {:induction false} BaselineInHull(p: RiseParams, samples: seq<Sample>)
    requires Smooths(p) && samples != []
    ensures SeededInHull(p, samples, RiseAfter(p, samples))
  {
    var front, sample := samples[..|samples| - 1], samples[|samples| - 1];
    if front == [] {
      assert RiseAfter(p, front) == NO_SAMPLE && Absorbed(p, front) == [];
      assert RiseAfter(p, samples) == RiseState(Some(sample.value), Some(sample.at), Some(sample.at), false);
      assert Absorbed(p, samples) == [] + [sample.value];
      HullGrows(sample.value, [], sample.value);
    } else {
      BaselineInHull(p, front);
      var s := RiseAfter(p, front);
      BaselineMoves(p, s, sample);
      AbsorbedIsBetween(p, s.ema.value, s.lastAt.value, sample);
      HullStep(p, s.ema.value, Absorb(p, s.ema.value, s.lastAt.value, sample), Absorbed(p, front), sample.value);
    }
  }

  lemma HullStep(p: RiseParams, ema: real, mixed: real, absorbed: seq<real>, x: real)
    requires InHull(ema, absorbed) && Between(mixed, ema, x)
    ensures InHull(ema, absorbed + [x]) && InHull(mixed, absorbed + [x])
  {
    HullGrows(ema, absorbed, x);
    HullGrows(x, absorbed, x);
    HullMixes(ema, x, mixed, absorbed + [x]);
  }

  /** From the sample before a detection, and as long as the detector is risen, the baseline is frozen: what clears the
      rise is measured against the baseline that the rise was measured against. */
  lemma {:induction false} RisenFreezesBaseline(p: RiseParams, samples: seq<Sample>, i: nat)
    requires Smooths(p) && 1 <= i <= |samples| && forall k | i < k <= |samples| :: RiseAfter(p, samples[..k]).risen
    ensures RiseAfter(p, samples).ema == RiseAfter(p, samples[..i]).ema
    ensures RiseAfter(p, samples).lastAt == RiseAfter(p, samples[..i]).lastAt
  {
    if i == |samples| {
      assert samples[..i] == samples;
    } else {
      var front := samples[..|samples| - 1];
      forall k | i < k <= |front| ensures RiseAfter(p, front[..k]).risen {
        assert front[..k] == samples[..k];
      }
      assert front[..i] == samples[..i] && samples[..|samples|] == samples;
      RisenFreezesBaseline(p, front, i);
      BaselineInHull(p, front);
      BaselineMoves(p, RiseAfter(p, front), samples[|samples| - 1]);
    }
  }

  /** The rise over the baseline is at least, or at most, the percentage of it. */
  lemma PercentagesDecide(p: RiseParams, ema: real, value: real)
    ensures Rises(p, ema, value) <==> 100.0 * (value - ema) >= p.risePct * ema
    ensures Clears(p, ema, value) <==> 100.0 * (value - ema) <= p.clearPct * ema
  {
    PercentOf(ema, p.risePct);
    PercentOf(ema, p.clearPct);
  }

  lemma PercentOf(x: real, percent: real)
    ensures 100.0 * (x * (1.0 + percent / 100.0)) == 100.0 * x + percent * x
  {
  }

  /** A warm, idle detector reports exactly the samples that rise; a risen one exactly those that clear. */
  lemma {:induction false} RiseIsReportedIff(p: RiseParams, samples: seq<Sample>, sample: Sample)
    requires Smooths(p) && samples != []
    ensures var s, out := RiseAfter(p, samples), RiseOut(p, samples + [sample]);
            && s.ema.Some?
            && (out == RiseOut(p, samples) + [Event(Detected, sample.at, sample.value)]
                <==> !s.risen && sample.at - samples[0].at >= p.warmupMs && Rises(p, s.ema.value, sample.value))
            && (out == RiseOut(p, samples) + [Event(Cleared, sample.at, sample.value)]
                <==> s.risen && Clears(p, s.ema.value, sample.value))
  {
    BaselineInHull(p, samples);
    assert (samples + [sample])[..|samples|] == samples;
    var before, step := RiseOut(p, samples), RiseStep(p, RiseAfter(p, samples), sample).1;
    if step == [] {
      assert |before + step| < |before + [Event(Detected, sample.at, sample.value)]|;
    } else {
      assert (before + step)[|before|] == step[0];
    }
  }

  /** Nothing is detected before the warm-up is over. */
  lemma {:induction false} NoRiseWhileCold(p: RiseParams, samples: seq<Sample>, i: nat)
    requires Smooths(p) && i < |RiseOut(p, samples)| && RiseOut(p, samples)[i].tag == Detected
    ensures samples != [] && RiseOut(p, samples)[i].at - samples[0].at >= p.warmupMs
  {
    var front := samples[..|samples| - 1];
    if i < |RiseOut(p, front)| {
      NoRiseWhileCold(p, front, i);
    } else if front != [] {
      BaselineInHull(p, front);
    }
  }

  /** What a pause keeps of the old baseline; keeping multiplies over pauses, as a decay with a half-life does. */
  function Keeps(p: RiseParams, pause: int): real {
    1.0 - p.alpha(pause)
  }

  ghost predicate Decays(p: RiseParams) {
    && p.alpha(0) == 0.0
    && forall a, b | a >= 0 && b >= 0 :: Keeps(p, a + b) == Keeps(p, a) * Keeps(p, b)
  }

  /** Sample times never go back. */
  ghost predicate Ordered(samples: seq<Sample>) {
    forall i, j | 0 <= i < j < |samples| :: samples[i].at <= samples[j].at
  }

  /** Every sample weighted with what is kept of it at `now`: the share it had when it was absorbed, decayed by its
      age. */
  function Weighted(p: RiseParams, samples: seq<Sample>, now: int): real
    requires samples != []
  {
    var last := samples[|samples| - 1];
    if |samples| == 1 then Product(Keeps(p, now - last.at), last.value) else
      var front := samples[..|samples| - 1];
      var share := p.alpha(last.at - front[|front| - 1].at);
      Weighted(p, front, now) + Product(Keeps(p, now - last.at), Product(share, last.value))
  }

  function Product(a: real, b: real): real {
    a * b
  }

  lemma ProductAssociates(a: real, b: real, c: real)
    ensures Product(Product(a, b), c) == Product(a, Product(b, c))
  {
  }

  lemma ProductDistributes(a: real, b: real, c: real)
    ensures Product(a, b + c) == Product(a, b) + Product(a, c)
  {
  }

  lemma KeepsComposes(p: RiseParams, a: int, b: int)
    requires Decays(p) && a >= 0 && b >= 0
    ensures Keeps(p, a + b) == Product(Keeps(p, a), Keeps(p, b))
  {
  }

  /** Time passes equally for all samples. */
  lemma {:induction false} WeightedLater(p: RiseParams, samples: seq<Sample>, now: int, pause: int)
    requires Decays(p) && samples != [] && pause >= 0 && forall i | 0 <= i < |samples| :: samples[i].at <= now
    ensures Weighted(p, samples, now + pause) == Product(Keeps(p, pause), Weighted(p, samples, now))
  {
    var last := samples[|samples| - 1];
    assert now + pause - last.at == pause + (now - last.at);
    KeepsComposes(p, pause, now - last.at);
    if |samples| == 1 {
      ProductAssociates(Keeps(p, pause), Keeps(p, now - last.at), last.value);
    } else {
      var front := samples[..|samples| - 1];
      var share := Product(p.alpha(last.at - front[|front| - 1].at), last.value);
      WeightedLater(p, front, now, pause);
      ProductAssociates(Keeps(p, pause), Keeps(p, now - last.at), share);
      ProductDistributes(Keeps(p, pause), Weighted(p, front, now), Product(Keeps(p, now - last.at), share));
    }
  }

  lemma AbsorbMixes(p: RiseParams, ema: real, lastAt: int, sample: Sample)
    requires lastAt <= sample.at && p.alpha(0) == 0.0
    ensures var pause := sample.at - lastAt;
            Absorb(p, ema, lastAt, sample)
            == Product(Keeps(p, pause), ema) + Product(Keeps(p, 0), Product(p.alpha(pause), sample.value))
  {
  }

  /** As long as nothing is detected, the baseline is the mean of all samples so far, each weighted by its age. */
  lemma {:induction false} BaselineIsWeighted(p: RiseParams, samples: seq<Sample>)
    requires Decays(p) && samples != [] && Ordered(samples) && RiseOut(p, samples) == []
    ensures var last := samples[|samples| - 1].at;
            RiseAfter(p, samples) == RiseState(Some(Weighted(p, samples, last)), Some(last), Some(samples[0].at), false)
  {
    var front, sample := samples[..|samples| - 1], samples[|samples| - 1];
    if front == [] {
      assert RiseAfter(p, front) == NO_SAMPLE;
      SeedWeighs(p, sample.value);
    } else {
      BaselineIsWeighted(p, front);
      var lastAt := front[|front| - 1].at;
      WeightedLater(p, front, lastAt, sample.at - lastAt);
      AbsorbMixes(p, Weighted(p, front, lastAt), lastAt, sample);
    }
  }

  lemma SeedWeighs(p: RiseParams, value: real)
    requires p.alpha(0) == 0.0
    ensures Product(Keeps(p, 0), value) == value
  {
  }

  // ---- incrementWatcher ----

  datatype WatchParams = WatchParams(minIncrement: real, windowMs: int)

  datatype WatchState = WatchState(anchorAt: Option<int>, anchorValue: Option<real>)

  function WatchStep(p: WatchParams, s: WatchState, sample: Sample): (WatchState, seq<Event>) {
    var anchored := WatchState(Some(sample.at), Some(sample.value));
    if s.anchorAt.None? || s.anchorValue.None? then (anchored, [])
    else if sample.value < s.anchorValue.value then (anchored, [])
    else if sample.at - s.anchorAt.value > p.windowMs then (anchored, [])
    else
      var delta := sample.value - s.anchorValue.value;
      if delta >= p.minIncrement then (anchored, [Event(Detected, sample.at, delta)]) else (s, [])
  }

  function WatchAfter(p: WatchParams, samples: seq<Sample>): WatchState {
    if samples == [] then WatchState(None, None)
        else WatchStep(p, WatchAfter(p, samples[..|samples| - 1]), samples[|samples| - 1]).0
  }

  function WatchOut(p: WatchParams, samples: seq<Sample>): seq<Event> {
    if samples == [] then [] else
      var front := samples[..|samples| - 1];
      WatchOut(p, front) + WatchStep(p, WatchAfter(p, front), samples[|samples| - 1]).1
  }

  function Total(out: seq<Event>): real {
    if out == [] then 0.0 else Total(out[..|out| - 1]) + out[|out| - 1].value
  }

  /** The stream's total upward movement. */
  function Upward(samples: seq<Sample>): real {
    if |samples| < 2 then 0.0 else
      var last, before := samples[|samples| - 1].value, samples[|samples| - 2].value;
      Upward(samples[..|samples| - 1]) + if last > before then last - before else 0.0
  }

  lemma TotalOneMore(out: seq<Event>, ev: Event)
    ensures Total(out + [ev]) == Total(out) + ev.value
  {
    assert (out + [ev])[..|out|] == out;
  }

  /** Emitted increments, plus what has risen since the anchor, never exceed the upward movement. */
  lemma {:induction false} IncrementsAreCovered(p: WatchParams, samples: seq<Sample>)
    ensures samples != [] ==>
              var s, last := WatchAfter(p, samples), samples[|samples| - 1].value;
              && s.anchorAt.Some? && s.anchorValue.Some? && s.anchorValue.value <= last
              && Total(WatchOut(p, samples)) + (last - s.anchorValue.value) <= Upward(samples)
  {
    if samples != [] {
      var front, sample := samples[..|samples| - 1], samples[|samples| - 1];
      IncrementsAreCovered(p, front);
      var (s, out) := WatchStep(p, WatchAfter(p, front), sample);
      if out == [] {
        assert WatchOut(p, front) + [] == WatchOut(p, front);
      } else {
        assert out == [out[0]];
        TotalOneMore(WatchOut(p, front), out[0]);
      }
      if front != [] {
        assert samples[|samples| - 2] == front[|front| - 1];
      }
    }
  }

  /** The sum of the emitted increments is at most the stream's upward movement. */
  lemma IncrementsNeverExceedMovement(p: WatchParams, samples: seq<Sample>)
    ensures Total(WatchOut(p, samples)) <= Upward(samples)
  {
    IncrementsAreCovered(p, samples);
  }

  /** Sample `a` is the anchor: since then the counter was not reset, stayed in the window and rose too little to
      report. */
  ghost predicate Anchors(p: WatchParams, samples: seq<Sample>, a: nat) {
    && a < |samples| && WatchAfter(p, samples) == WatchState(Some(samples[a].at), Some(samples[a].value))
    && forall k | a < k < |samples| :: Rising(p, samples[a], samples[k])
                                       && samples[k].value - samples[a].value < p.minIncrement
  }

  predicate Rising(p: WatchParams, anchor: Sample, sample: Sample) {
    sample.value >= anchor.value && sample.at - anchor.at <= p.windowMs
  }

  lemma {:induction false} HasAnchor(p: WatchParams, samples: seq<Sample>) returns (a: nat)
    requires samples != []
    ensures Anchors(p, samples, a)
  {
    var front, sample := samples[..|samples| - 1], samples[|samples| - 1];
    if front == [] {
      a := 0;
    } else {
      a := HasAnchor(p, front);
      if WatchAfter(p, samples) != WatchAfter(p, front) {
        a := |front|;
      } else if !Rising(p, samples[a], sample) || sample.value - samples[a].value >= p.minIncrement {
        assert WatchAfter(p, samples) == WatchState(Some(sample.at), Some(sample.value));
        a := |front|;
      } else {
        assert forall k | a < k < |front| :: samples[k] == front[k];
      }
    }
  }

  /** A sample is reported exactly when, within the window of the anchor sample and without a reset, the counter has
      risen enough since that sample; what is reported is the rise between the two. */
  lemma IncrementIsReportedIff(p: WatchParams, samples: seq<Sample>, sample: Sample, a: nat)
    requires Anchors(p, samples, a)
    ensures var rise := sample.value - samples[a].value;
            WatchOut(p, samples + [sample]) == WatchOut(p, samples)
              + if Rising(p, samples[a], sample) && rise >= p.minIncrement then [Event(Detected, sample.at, rise)]
                  else []
  {
    assert (samples + [sample])[..|samples|] == samples;
  }

  /** Every reported increment is the rise between two samples of the stream at most a window apart, with no reset and
      no report between them. */
  lemma {:induction false} IncrementIsBacked(p: WatchParams, samples: seq<Sample>, k: nat) returns (from: nat, to: nat)
    requires k < |WatchOut(p, samples)|
    ensures from < to < |samples| && Rising(p, samples[from], samples[to])
    ensures WatchOut(p, samples)[k] == Event(Detected, samples[to].at, samples[to].value - samples[from].value)
    ensures samples[to].value - samples[from].value >= p.minIncrement
    ensures forall i | from < i < to :: Rising(p, samples[from], samples[i])
                                        && samples[i].value - samples[from].value < p.minIncrement
  {
    var front, sample := samples[..|samples| - 1], samples[|samples| - 1];
    assert forall i | 0 <= i < |front| :: samples[i] == front[i];
    if k < |WatchOut(p, front)| {
      from, to := IncrementIsBacked(p, front, k);
    } else {
      from := HasAnchor(p, front);
      to := |front|;
    }
  }

  // ---- sustainedAbove ----

  datatype SustainParams = SustainParams(threshold: real, sustainMs: int, clearBelow: real)

  datatype SustainState = Idle | Pending(since: int) | Active

  function SustainStep(p: SustainParams, s: SustainState, sample: Sample): (SustainState, seq<Event>) {
    match s
    case Idle => if sample.value >= p.threshold then (Pending(sample.at), []) else (s, [])
    case Pending(since) =>
      if sample.value < p.threshold then (Idle, [])
      else if sample.at - since >= p.sustainMs then (Active, [Event(Detected, sample.at, sample.value)])
      else (s, [])
    case Active => if sample.value < p.clearBelow then (Idle, [Event(Cleared, sample.at, sample.value)]) else (s, [])
  }

  function SustainAfter(p: SustainParams, samples: seq<Sample>): SustainState {
    if samples == [] then Idle else SustainStep(p, SustainAfter(p, samples[..|samples| - 1]), samples[|samples| - 1]).0
  }

  function SustainOut(p: SustainParams, samples: seq<Sample>): seq<Event> {
    if samples == [] then [] else
      var front := samples[..|samples| - 1];
      SustainOut(p, front) + SustainStep(p, SustainAfter(p, front), samples[|samples| - 1]).1
  }

  lemma {:induction false} SustainsAlternate(p: SustainParams, samples: seq<Sample>)
    ensures Alternates(SustainOut(p, samples)) && (SustainAfter(p, samples).Active?
                                                   <==> |SustainOut(p, samples)| % 2 == 1)
  {
    if samples != [] {
      SustainsAlternate(p, samples[..|samples| - 1]);
    }
  }

  /** An active detector, one with an odd number of events, reports exactly a sample below the clearing value, as that
      sample's clearing. */
  lemma ClearingIsReportedIff(p: SustainParams, samples: seq<Sample>, sample: Sample)
    requires |SustainOut(p, samples)| % 2 == 1
    ensures SustainOut(p, samples + [sample])
         == SustainOut(p, samples)
            + if sample.value < p.clearBelow then [Event(Cleared, sample.at, sample.value)] else []
  {
    SustainsAlternate(p, samples);
    assert (samples + [sample])[..|samples|] == samples;
  }

  /** Samples `from` to `to` all reach the threshold. */
  ghost predicate Unbroken(p: SustainParams, samples: seq<Sample>, from: nat, to: nat)
    requires to < |samples|
  {
    from <= to && forall i | from <= i <= to :: samples[i].value >= p.threshold
  }

  /** A pending detector has seen an unbroken run since the sample it remembers. */
  lemma {:induction false} PendingIsUnbroken(p: SustainParams, samples: seq<Sample>) returns (from: nat)
    requires SustainAfter(p, samples).Pending?
    ensures samples != [] && Unbroken(p, samples, from, |samples| - 1)
            && samples[from].at == SustainAfter(p, samples).since
  {
    var front := samples[..|samples| - 1];
    if SustainAfter(p, front).Pending? {
      from := PendingIsUnbroken(p, front);
      assert forall i | 0 <= i < |front| :: samples[i] == front[i];
    } else {
      from := |samples| - 1;
    }
  }

  /** Every sustained event is backed by an unbroken run of samples at or above the threshold that spans
      at least the sustain time and ends with the event's sample. */
  lemma {:induction false} SustainedIsBacked(p: SustainParams, samples: seq<Sample>, k: nat)
      returns (from: nat, to: nat)
    requires k < |SustainOut(p, samples)| && SustainOut(p, samples)[k].tag == Detected
    ensures to < |samples| && Unbroken(p, samples, from, to)
    ensures SustainOut(p, samples)[k] == Event(Detected, samples[to].at, samples[to].value)
    ensures samples[to].at - samples[from].at >= p.sustainMs
  {
    var front := samples[..|samples| - 1];
    if k < |SustainOut(p, front)| {
      from, to := SustainedIsBacked(p, front, k);
      assert forall i | 0 <= i < |front| :: samples[i] == front[i];
    } else {
      from := PendingIsUnbroken(p, front);
      to := |samples| - 1;
      assert forall i | 0 <= i < |front| :: samples[i] == front[i];
    }
  }

  predicate WaitsSince(s: SustainState, at: int) {
    s.Active? || (s.Pending? && s.since <= at)
  }

  lemma {:induction false} RunIsRemembered(p: SustainParams, samples: seq<Sample>, from: nat, to: nat)
    requires Ordered(samples) && from <= to < |samples| && Unbroken(p, samples, from, to) && p.clearBelow <= p.threshold
    ensures WaitsSince(SustainAfter(p, samples[..to + 1]), samples[from].at)
    ensures to > from && samples[to].at - samples[from].at >= p.sustainMs ==> SustainAfter(p, samples[..to + 1]).Active?
  {
    var before := samples[..to];
    assert samples[..to + 1][..to] == before;
    if to > from {
      RunIsRemembered(p, samples, from, to - 1);
    } else if SustainAfter(p, before).Pending? {
      var k := PendingIsUnbroken(p, before);
      assert samples[k] == before[k] && samples[k].at <= samples[from].at;
    }
  }

  /** An unbroken run that spans the sustain time leaves the detector active, when clearing is no harder than
      sustaining. */
  lemma SustainedIsReported(p: SustainParams, samples: seq<Sample>, from: nat, to: nat)
    requires Ordered(samples) && from < to < |samples| && Unbroken(p, samples, from, to) && p.clearBelow <= p.threshold
    requires samples[to].at - samples[from].at >= p.sustainMs
    ensures SustainAfter(p, samples[..to + 1]).Active?
  {
    RunIsRemembered(p, samples, from, to);
  }
}
