/** The leaderboard's scores, over exact numbers. */
module Scoring {
  import opened Windows

  function Smaller(a: real, b: real): real {
    if b < a then b else a
  }

  function Larger(a: real, b: real): real {
    if b > a then b else a
  }

  const BASELINE_US: real := 50_000.0
  const TARGET_RPS: real := 1_000.0

  function SpeedScore(p99Us: real): real {
    if p99Us <= 0.0 then 100.0
    else Smaller(100.0, Larger(0.0, BASELINE_US / Larger(p99Us, 1.0) * 50.0))
  }

  function ThroughputScore(rps: real): real {
    Smaller(100.0, Larger(0.0, rps / TARGET_RPS * 100.0))
  }

  function CorrectnessScore(matchRate: real): real {
    Smaller(100.0, Larger(0.0, matchRate * 100.0))
  }

  function StabilityScore(errorRate: real, variance: real): real {
    Larger(0.0, 100.0 - Smaller(100.0, errorRate * 1000.0) - Smaller(50.0, variance / 1000.0))
  }

  datatype Weights = Weights(speed: real, throughput: real, correctness: real, stability: real)

  const DEFAULT_WEIGHTS := Weights(0.35, 0.25, 0.25, 0.15)

  predicate Weighing(w: Weights) {
    w.speed >= 0.0 && w.throughput >= 0.0 && w.correctness >= 0.0 && w.stability >= 0.0
  }

  /** What a submission is scored on. */
  datatype Measures = Measures(p99Us: real, rps: real, matchRate: real, errorRate: real, variance: real)

  datatype Breakdown = Breakdown(speed: real, throughput: real, correctness: real, stability: real, composite: real)

  function Blend(w: Weights, s: real, t: real, c: real, st: real): real {
    w.speed * s + w.throughput * t + w.correctness * c + w.stability * st
  }

  function ScoreBreakdown(m: Measures, w: Weights): Breakdown {
    var s, t := SpeedScore(m.p99Us), ThroughputScore(m.rps);
    var c, st := CorrectnessScore(m.matchRate), StabilityScore(m.errorRate, m.variance);
    Breakdown(s, t, c, st, Blend(w, s, t, c, st))
  }

  function CompositeScore(m: Measures, w: Weights): real {
    ScoreBreakdown(m, w).composite
  }

  // ----- Speed, in closed form -----

  /** Full marks up to 25 ms, and from there on the share of 25 ms that the latency is. */
  lemma SpeedIs(p: real)
    ensures SpeedScore(p) == if p <= 25_000.0 then 100.0 else 2_500_000.0 / p
  {
    if p > 0.0 {
      var d := Larger(p, 1.0);
      var x := BASELINE_US / d;
      assert x * d == BASELINE_US;
      ShareAgainst(2_500_000.0, d, 0.0);
      ShareAgainst(2_500_000.0, d, 100.0);
      assert 2_500_000.0 / d == x * 50.0 by {
        assert x * 50.0 * d == 2_500_000.0;
      }
    }
  }

  lemma SpeedFallsWithLatency(p: real, q: real)
    requires p <= q
    ensures SpeedScore(q) <= SpeedScore(p)
  {
    SpeedIs(p);
    SpeedIs(q);
    if p > 25_000.0 {
      assert (2_500_000.0 / p) * p == 2_500_000.0;
      ScaledUp(2_500_000.0 / p, p, q);
      ShareAgainst(2_500_000.0, q, 2_500_000.0 / p);
    } else if q > 25_000.0 {
      ShareAgainst(2_500_000.0, q, 100.0);
    }
  }

  lemma ScaledUp(x: real, p: real, q: real)
    requires 0.0 <= x && p <= q
    ensures x * p <= x * q
  {
  }

  // ----- The other scores -----

  /** A point for every ten requests a second up to a thousand. */
  lemma ThroughputIs(rps: real)
    ensures ThroughputScore(rps) == if rps <= 0.0 then 0.0 else if rps >= 1_000.0 then 100.0 else rps / 10.0
  {
  }

  /** The match rate in percent, for every rate that is a share. */
  lemma CorrectnessIs(matchRate: real)
    ensures 0.0 <= matchRate <= 1.0 <==> CorrectnessScore(matchRate) == 100.0 * matchRate
  {
  }

  /** The documented 35, 25, 25 and 15 percent. */
  lemma DefaultCompositeIs(m: Measures)
    ensures 100.0 * CompositeScore(m, DEFAULT_WEIGHTS)
         == 35.0 * SpeedScore(m.p99Us) + 25.0 * ThroughputScore(m.rps) + 25.0 * CorrectnessScore(m.matchRate)
            + 15.0 * StabilityScore(m.errorRate, m.variance)
  {
  }

  // ----- Ranges -----

  /** What the ingester can pass: a share of errors and a spread that is not negative. */
  predicate Measurable(m: Measures) {
    0.0 <= m.errorRate && 0.0 <= m.variance
  }

  predicate Percentage(x: real) {
    0.0 <= x <= 100.0
  }

  lemma SubScoresAreInRange(m: Measures, w: Weights)
    requires Measurable(m)
    ensures var b := ScoreBreakdown(m, w);
            Percentage(b.speed) && Percentage(b.throughput) && Percentage(b.correctness) && Percentage(b.stability)
  {
    SpeedIs(m.p99Us);
    if m.p99Us > 25_000.0 {
      ShareAgainst(2_500_000.0, m.p99Us, 0.0);
      ShareAgainst(2_500_000.0, m.p99Us, 100.0);
    }
  }

  lemma SpeedPart(w: Weights, s: real, t: real, c: real, st: real, s': real)
    requires w.speed >= 0.0 && s <= s'
    ensures Blend(w, s, t, c, st) <= Blend(w, s', t, c, st)
  {
    ScaledUp(w.speed, s, s');
  }

  lemma ThroughputPart(w: Weights, s: real, t: real, c: real, st: real, t': real)
    requires w.throughput >= 0.0 && t <= t'
    ensures Blend(w, s, t, c, st) <= Blend(w, s, t', c, st)
  {
    ScaledUp(w.throughput, t, t');
  }

  lemma CorrectnessPart(w: Weights, s: real, t: real, c: real, st: real, c': real)
    requires w.correctness >= 0.0 && c <= c'
    ensures Blend(w, s, t, c, st) <= Blend(w, s, t, c', st)
  {
    ScaledUp(w.correctness, c, c');
  }

  lemma StabilityPart(w: Weights, s: real, t: real, c: real, st: real, st': real)
    requires w.stability >= 0.0 && st <= st'
    ensures Blend(w, s, t, c, st) <= Blend(w, s, t, c, st')
  {
    ScaledUp(w.stability, st, st');
  }

  lemma BlendGrows(w: Weights, s: real, t: real, c: real, st: real, s': real, t': real, c': real, st': real)
    requires Weighing(w) && s <= s' && t <= t' && c <= c' && st <= st'
    ensures Blend(w, s, t, c, st) <= Blend(w, s', t', c', st')
  {
    SpeedPart(w, s, t, c, st, s');
    ThroughputPart(w, s', t, c, st, t');
    CorrectnessPart(w, s', t', c, st, c');
    StabilityPart(w, s', t', c', st, st');
  }

  /** Any weights that add up to one keep the composite between 0 and 100, the default ones included. */
  lemma CompositeIsInRange(m: Measures, w: Weights)
    requires Measurable(m) && Weighing(w) && w.speed + w.throughput + w.correctness + w.stability == 1.0
    ensures Percentage(CompositeScore(m, w))
  {
    SubScoresAreInRange(m, w);
    var b := ScoreBreakdown(m, w);
    BlendGrows(w, 0.0, 0.0, 0.0, 0.0, b.speed, b.throughput, b.correctness, b.stability);
    BlendGrows(w, b.speed, b.throughput, b.correctness, b.stability, 100.0, 100.0, 100.0, 100.0);
    assert Blend(w, 100.0, 100.0, 100.0, 100.0) == 100.0 * (w.speed + w.throughput + w.correctness + w.stability);
  }

  lemma DefaultWeightsAddUp()
    ensures Weighing(DEFAULT_WEIGHTS)
    ensures var w := DEFAULT_WEIGHTS; w.speed + w.throughput + w.correctness + w.stability == 1.0
  {
  }

  /** A stability score above 100 would take a negative error rate or spread. */
  lemma StabilityIsInRangeIff(errorRate: real, variance: real)
    ensures Percentage(StabilityScore(errorRate, variance))
       <==> Smaller(100.0, errorRate * 1000.0) + Smaller(50.0, variance / 1000.0) >= 0.0
  {
  }

  /** Penalties in closed form: errors cost a point for every tenth of a percent and are capped at ten
      percent, the spread costs a point a millisecond and is capped at fifty. */
  function Penalties(errorRate: real, variance: real): real {
    (if errorRate >= 0.1 then 100.0 else 1_000.0 * errorRate)
    + if variance >= 50_000.0 then 50.0 else variance / 1_000.0
  }

  lemma StabilityIs(errorRate: real, variance: real)
    ensures StabilityScore(errorRate, variance)
         == if Penalties(errorRate, variance) >= 100.0 then 0.0 else 100.0 - Penalties(errorRate, variance)
  {
  }

  /** Each field of a breakdown is its own score in closed form, and the composite weighs each with its
      own weight. */
  lemma BreakdownIs(m: Measures, w: Weights)
    ensures var b := ScoreBreakdown(m, w);
            && b.speed == (if m.p99Us <= 25_000.0 then 100.0 else 2_500_000.0 / m.p99Us)
            && b.throughput == (if m.rps <= 0.0 then 0.0 else if m.rps >= 1_000.0 then 100.0 else m.rps / 10.0)
            && b.correctness
               == (if m.matchRate <= 0.0 then 0.0 else if m.matchRate >= 1.0 then 100.0 else 100.0 * m.matchRate)
            && b.stability == (if Penalties(m.errorRate, m.variance) >= 100.0 then 0.0
                               else 100.0 - Penalties(m.errorRate, m.variance))
    ensures var b := ScoreBreakdown(m, w);
            CompositeScore(m, w) == b.composite == w.speed * b.speed + w.throughput * b.throughput
                                                   + w.correctness * b.correctness + w.stability * b.stability
  {
    SpeedIs(m.p99Us);
    ThroughputIs(m.rps);
    StabilityIs(m.errorRate, m.variance);
  }

  /** Under the default weights a share of the fills is worth that share of 25 points, whatever else is
      measured. */
  lemma MatchRateIsWorth(m: Measures, rate: real)
    requires 0.0 <= rate <= 1.0
    ensures CompositeScore(m.(matchRate := rate), DEFAULT_WEIGHTS)
         == CompositeScore(m.(matchRate := 1.0), DEFAULT_WEIGHTS) - 25.0 * (1.0 - rate)
  {
    CorrectnessIs(rate);
    CorrectnessIs(1.0);
    DefaultCompositeIs(m.(matchRate := rate));
    DefaultCompositeIs(m.(matchRate := 1.0));
  }

  // ----- Better measures, better scores -----

  predicate NoWorse(a: Measures, b: Measures) {
    && a.p99Us <= b.p99Us && a.rps >= b.rps && a.matchRate >= b.matchRate
    && a.errorRate <= b.errorRate && a.variance <= b.variance
  }

  lemma SubScoresFollow(a: Measures, b: Measures, w: Weights)
    requires NoWorse(a, b)
    ensures var x, y := ScoreBreakdown(a, w), ScoreBreakdown(b, w);
            && x.speed >= y.speed && x.throughput >= y.throughput
            && x.correctness >= y.correctness && x.stability >= y.stability
  {
    SpeedFallsWithLatency(a.p99Us, b.p99Us);
  }

  /** A submission no worse in any measure never scores lower. */
  lemma CompositeFollows(a: Measures, b: Measures, w: Weights)
    requires NoWorse(a, b) && Weighing(w)
    ensures CompositeScore(a, w) >= CompositeScore(b, w)
  {
    SubScoresFollow(a, b, w);
    var x, y := ScoreBreakdown(a, w), ScoreBreakdown(b, w);
    BlendGrows(w, y.speed, y.throughput, y.correctness, y.stability, x.speed, x.throughput, x.correctness, x.stability);
  }

  // ----- The documented stability formula -----

  function DocumentedStability(errorRate: real, variance: real): real {
    Larger(0.0, 100.0 - errorRate * 1000.0 - variance / 1000.0)
  }

  /** The documented formula has no caps. The cap on the spread shows: the two agree exactly when the
      spread is at most 50 ms or the error rate alone costs 50 points; elsewhere the code is milder. */
  lemma StabilityIsDocumentedIff(errorRate: real, variance: real)
    requires 0.0 <= errorRate && 0.0 <= variance
    ensures StabilityScore(errorRate, variance) == DocumentedStability(errorRate, variance)
       <==> variance <= 50_000.0 || errorRate >= 0.05
    ensures StabilityScore(errorRate, variance) >= DocumentedStability(errorRate, variance)
    ensures variance > 50_000.0 && errorRate < 0.05 ==>
              StabilityScore(errorRate, variance) == 50.0 - 1_000.0 * errorRate
  {
  }

  // ----- What the ingester passes -----

  /** The measures of a published row. */
  function MeasuresOf(r: Row, p99Us: real, p50Us: real, rps: real, matchRate: real): Measures {
    Measures(p99Us, rps, matchRate, ErrorRate(r), Larger(0.0, p99Us - p50Us))
  }

  /** Every row any run of the ingester publishes is scored between 0 and 100, whatever the latencies
      and the match rate read for it. */
  lemma PublishedScoresAreInRange(actions: seq<Action>, k: nat, p99Us: real, p50Us: real, rps: real, matchRate: real)
    requires k < |After(actions).published|
    ensures var m := MeasuresOf(After(actions).published[k], p99Us, p50Us, rps, matchRate);
            Percentage(CompositeScore(m, DEFAULT_WEIGHTS))
  {
    var r := After(actions).published[k];
    ShareAgainst(r.errors as real, (if r.count + r.errors > 1 then r.count + r.errors else 1) as real, 0.0);
    DefaultWeightsAddUp();
    CompositeIsInRange(MeasuresOf(r, p99Us, p50Us, rps, matchRate), DEFAULT_WEIGHTS);
  }

  /** What errors cost a published row: everything from one error for every nine events. */
  lemma ErrorPenalty(r: Row, variance: real)
    requires r.count > 0
    ensures Penalties(ErrorRate(r), variance)
         == (if 9 * r.errors >= r.count then 100.0 else 1_000.0 * (r.errors as real / (r.count + r.errors) as real))
            + if variance >= 50_000.0 then 50.0 else variance / 1_000.0
  {
    ShareAgainst(r.errors as real, (r.count + r.errors) as real, 0.1);
  }

  /** The scores of every row any run publishes, field by field, from its counts and the latencies and
      rates read for it. */
  lemma PublishedBreakdownIs(actions: seq<Action>, k: nat, p99Us: real, p50Us: real, rps: real, matchRate: real)
    requires k < |After(actions).published|
    ensures var r := After(actions).published[k];
            var b := ScoreBreakdown(MeasuresOf(r, p99Us, p50Us, rps, matchRate), DEFAULT_WEIGHTS);
            var spread := if p99Us > p50Us then p99Us - p50Us else 0.0;
            var cost := (if 9 * r.errors >= r.count then 100.0
                         else 1_000.0 * (r.errors as real / (r.count + r.errors) as real))
                        + if spread >= 50_000.0 then 50.0 else spread / 1_000.0;
            && b.speed == (if p99Us <= 25_000.0 then 100.0 else 2_500_000.0 / p99Us)
            && b.throughput == (if rps <= 0.0 then 0.0 else if rps >= 1_000.0 then 100.0 else rps / 10.0)
            && b.correctness
               == (if matchRate <= 0.0 then 0.0 else if matchRate >= 1.0 then 100.0 else 100.0 * matchRate)
            && b.stability == (if cost >= 100.0 then 0.0 else 100.0 - cost)
            && b.composite == 0.35 * b.speed + 0.25 * b.throughput + 0.25 * b.correctness + 0.15 * b.stability
  {
    var r := After(actions).published[k];
    NoRowIsEmpty(actions);
    BreakdownIs(MeasuresOf(r, p99Us, p50Us, rps, matchRate), DEFAULT_WEIGHTS);
    ErrorPenalty(r, Larger(0.0, p99Us - p50Us));
  }
}
