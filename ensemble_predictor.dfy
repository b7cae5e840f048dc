/**
 * EnsemblePredictor: the three ensemble weights (kept near a sum of 1, clamped
 * and renormalised on update), and `predict`, which averages the three
 * statistical analyzers, substitutes fallbacks for scorers that are not
 * ready, blends everything with the weights, ranks the numbers and hands the
 * ranking to the zone-balanced picker.
 *
 * The LSTM, XGBoost and Markov scorers are separate objects; `predict` sees
 * only what their `get_scores` returned on the same history: a score per
 * number of the range, or None where the scorer raised because it was not
 * ready.
 */
module EnsemblePredictor {
  import opened Wrappers
  import opened Seqs
  import opened ScoreMaps
  import FrequencyAnalyzer
  import GapAnalyzer
  import PositionBias

  const WeightMin: real := 0.10
  const WeightMax: real := 0.60

  /** `w_lstm`, `w_xgb`, `w_stat`. */
  datatype Weights = Weights(lstm: real, xgb: real, stat: real)

  function Total(w: Weights): real {
    w.lstm + w.xgb + w.stat
  }

  /** Every weight divided by t. */
  function Scaled(w: Weights, t: real): Weights
    requires t != 0.0
  {
    Weights(w.lstm / t, w.xgb / t, w.stat / t)
  }

  lemma ScaledTotal(w: Weights, t: real)
    requires t != 0.0
    ensures Total(Scaled(w, t)) == Total(w) / t
  {
  }

  /** Dividing by the total gives weights that sum to exactly 1. */
  lemma ScaledByTotal(w: Weights)
    requires Total(w) != 0.0
    ensures Total(Scaled(w, Total(w))) == 1.0
  {
    ScaledTotal(w, Total(w));
  }

  // ---- __init__ -----------------------------------------------------------------

  /**
   * The constructor's weights: the configured ones when they sum to within
   * 0.01 of 1, otherwise each divided by their sum. None where that sum is 0
   * and the source divides by zero.
   */
  function ConfiguredWeights(w: Weights): Option<Weights> {
    var t := Total(w);
    if -0.01 <= t - 1.0 <= 0.01 then Some(w)
    else if t == 0.0 then None
    else Some(Scaled(w, t))
  }

  /**
   * Configured weights are refused only when they sum to 0. Otherwise the
   * result sums to within 0.01 of 1, is the configuration itself when that
   * already did, sums to exactly 1 when it was renormalised, and keeps the
   * configured proportions.
   */
  lemma ConfiguredWeightsProperties(w: Weights)
    ensures ConfiguredWeights(w).None? <==> Total(w) == 0.0
    ensures -0.01 <= Total(w) - 1.0 <= 0.01 ==> ConfiguredWeights(w) == Some(w)
    ensures ConfiguredWeights(w).Some? ==> -0.01 <= Total(ConfiguredWeights(w).value) - 1.0 <= 0.01
    ensures ConfiguredWeights(w).Some? && ConfiguredWeights(w) != Some(w) ==> Total(ConfiguredWeights(w).value) == 1.0
    ensures ConfiguredWeights(w).Some? ==>
      var r := ConfiguredWeights(w).value;
      r.lstm * Total(w) == w.lstm * Total(r) && r.xgb * Total(w) == w.xgb * Total(r) && r.stat * Total(w) == w.stat * Total(r)
  {
    var t := Total(w);
    if -0.01 <= t - 1.0 <= 0.01 {
      assert ConfiguredWeights(w) == Some(w);
    } else if t != 0.0 {
      Renormalised(w);
    }
  }

  /** Renormalising gives weights summing to 1, each the configured weight over the configured total. */
  lemma Renormalised(w: Weights)
    requires Total(w) != 0.0
    ensures var r := Scaled(w, Total(w));
      && Total(r) == 1.0
      && r.lstm * Total(w) == w.lstm * Total(r) && r.xgb * Total(w) == w.xgb * Total(r) && r.stat * Total(w) == w.stat * Total(r)
  {
    ScaledByTotal(w);
    MulDivCancel(w.lstm, Total(w));
    MulDivCancel(w.xgb, Total(w));
    MulDivCancel(w.stat, Total(w));
  }

  lemma MulDivCancel(a: real, t: real)
    requires t != 0.0
    ensures (a / t) * t == a * 1.0
  {
  }

  // ---- update_weights -----------------------------------------------------------

  /** `max(WEIGHT_MIN, min(WEIGHT_MAX, x))`. */
  function Clamp(x: real): real {
    if x > WeightMax then WeightMax else if x < WeightMin then WeightMin else x
  }

  /** Clamping lands in the band, is monotone, and leaves values inside the band alone. */
  lemma ClampProperties(x: real, y: real)
    ensures WeightMin <= Clamp(x) <= WeightMax
    ensures x <= y ==> Clamp(x) <= Clamp(y)
    ensures WeightMin <= x <= WeightMax ==> Clamp(x) == x
  {
  }

  /** `update_weights`: clamp each input, then divide by the clamped total. */
  function UpdatedWeights(lstm: real, xgb: real, stat: real): Weights {
    var c := Weights(Clamp(lstm), Clamp(xgb), Clamp(stat));
    ClampProperties(lstm, lstm);
    ClampProperties(xgb, xgb);
    ClampProperties(stat, stat);
    Scaled(c, Total(c))
  }

  /** `a/t <= k` and `k <= a/t`, read as products against a positive divisor. */
  lemma QuotientBounds(a: real, t: real, k: real)
    requires t > 0.0
    ensures a / t <= k <==> a <= k * t
    ensures k <= a / t <==> k * t <= a
  {
    assert (a / t) * t == a;
    if a / t <= k {
      assert (a / t) * t <= k * t;
    }
    if a <= k * t {
      assert a / t <= (k * t) / t;
    }
    if k <= a / t {
      assert k * t <= (a / t) * t;
    }
    if k * t <= a {
      assert (k * t) / t <= a / t;
    }
  }

  /** One clamped weight over the clamped total lies in [1/13, 3/4]. */
  lemma ShareBounds(a: real, b: real, c: real)
    requires WeightMin <= a <= WeightMax && WeightMin <= b <= WeightMax && WeightMin <= c <= WeightMax
    ensures 1.0 / 13.0 <= a / (a + b + c) <= 3.0 / 4.0
  {
    QuotientBounds(a, a + b + c, 3.0 / 4.0);
    QuotientBounds(a, a + b + c, 1.0 / 13.0);
  }

  /**
   * Whatever the inputs, the updated weights sum to 1 and each lies in
   * [1/13, 3/4]: between 0.10/1.30 and 0.60/0.80.
   */
  lemma UpdatedWeightsNormalised(lstm: real, xgb: real, stat: real)
    ensures Total(UpdatedWeights(lstm, xgb, stat)) == 1.0
    ensures var w := UpdatedWeights(lstm, xgb, stat);
      && 1.0 / 13.0 <= w.lstm <= 3.0 / 4.0
      && 1.0 / 13.0 <= w.xgb <= 3.0 / 4.0
      && 1.0 / 13.0 <= w.stat <= 3.0 / 4.0
  {
    var a, b, c := Clamp(lstm), Clamp(xgb), Clamp(stat);
    ClampProperties(lstm, lstm);
    ClampProperties(xgb, xgb);
    ClampProperties(stat, stat);
    ScaledByTotal(Weights(a, b, c));
    ShareBounds(a, b, c);
    ShareBounds(b, a, c);
    ShareBounds(c, a, b);
    assert b + a + c == a + b + c && c + a + b == a + b + c;
  }

  /** The band is not imposed again after the division: (0.9, 0.1, 0.1) yields an LSTM weight of 0.75. */
  lemma UpdateCanLeaveBand()
    ensures UpdatedWeights(0.9, 0.1, 0.1) == Weights(0.75, 0.125, 0.125)
    ensures UpdatedWeights(0.9, 0.1, 0.1).lstm > WeightMax
  {
    assert Clamp(0.9) == 0.6 && Clamp(0.1) == 0.1;
  }

  /** Updating preserves the order of any two inputs. */
  lemma UpdatedWeightsKeepOrder(lstm: real, xgb: real, stat: real)
    ensures var w := UpdatedWeights(lstm, xgb, stat);
      && (lstm <= xgb ==> w.lstm <= w.xgb)
      && (xgb <= stat ==> w.xgb <= w.stat)
      && (lstm <= stat ==> w.lstm <= w.stat)
  {
    ClampProperties(lstm, xgb);
    ClampProperties(xgb, stat);
    ClampProperties(lstm, stat);
    ClampProperties(stat, stat);
    var t := Clamp(lstm) + Clamp(xgb) + Clamp(stat);
    if lstm <= xgb {
      DivideMonotone(Clamp(lstm), Clamp(xgb), t);
    }
    if xgb <= stat {
      DivideMonotone(Clamp(xgb), Clamp(stat), t);
    }
    if lstm <= stat {
      DivideMonotone(Clamp(lstm), Clamp(stat), t);
    }
  }

  // ---- predict: scores ------------------------------------------------------------

  /** `stat_scores`: per number, the mean of the frequency, gap and position scores. */
  function MeanOfThree(freq: seq<real>, gap: seq<real>, pos: seq<real>): (r: seq<real>)
    requires |freq| == |gap| == |pos|
    ensures |r| == |freq|
  {
    seq(|freq|, i requires 0 <= i < |freq| => (freq[i] + gap[i] + pos[i]) / 3.0)
  }

  /** The Markov fallback: every number scores 1/(hi-lo+1). */
  function Uniform(n: nat): (r: seq<real>)
    requires n > 0
    ensures |r| == n
  {
    seq(n, _ => 1.0 / n as real)
  }

  /** A scorer's output covers the range: n scores, or None when it was not ready. */
  predicate Covers(out: Option<seq<real>>, n: nat) {
    out.Some? ==> |out.value| == n
  }

  /** `final_scores` from the four per-number inputs: lstm, the xgb/markov blend, and stat. */
  function Blend(w: Weights, lstm: seq<real>, xgb: seq<real>, markov: seq<real>, stat: seq<real>): (r: seq<real>)
    requires |lstm| == |xgb| == |markov| == |stat|
    ensures |r| == |stat|
  {
    seq(|stat|, i requires 0 <= i < |stat| => BlendAt(w, lstm[i], xgb[i], markov[i], stat[i]))
  }

  /** One number's final score: w_lstm·lstm + w_xgb·(xgb + markov)/2 + w_stat·stat. */
  function BlendAt(w: Weights, lstm: real, xgb: real, markov: real, stat: real): real {
    Weighted(w.lstm, lstm) + Weighted(w.xgb, (xgb + markov) / 2.0) + Weighted(w.stat, stat)
  }

  /** `final_scores` once the fallbacks are in place: LSTM and XGBoost fall back to stat, Markov to uniform. */
  function FinalScores(w: Weights, stat: seq<real>, lstmOut: Option<seq<real>>, xgbOut: Option<seq<real>>,
                       markovOut: Option<seq<real>>): (r: seq<real>)
    requires |stat| > 0
    requires Covers(lstmOut, |stat|) && Covers(xgbOut, |stat|) && Covers(markovOut, |stat|)
    ensures |r| == |stat|
  {
    Blend(w, lstmOut.GetOr(stat), xgbOut.GetOr(stat), markovOut.GetOr(Uniform(|stat|)), stat)
  }

  /** Scores lying in [0, 1]. */
  predicate UnitScores(s: seq<real>) {
    forall i | 0 <= i < |s| :: 0.0 <= s[i] <= 1.0
  }

  /** Non-negative weights that sum to 1. */
  predicate Convex(w: Weights) {
    w.lstm >= 0.0 && w.xgb >= 0.0 && w.stat >= 0.0 && Total(w) == 1.0
  }

  /** `w * a`: a score weighted by a model's weight. */
  function Weighted(w: real, a: real): real {
    w * a
  }

  lemma MulMonotone(w: real, a: real, b: real)
    requires w >= 0.0 && a <= b
    ensures w * a <= w * b
  {
  }

  lemma MulStrict(w: real, a: real, b: real)
    requires w > 0.0 && a < b
    ensures w * a < w * b
  {
  }

  /** A score in [0, 1] weighted by a non-negative weight lies between 0 and the weight. */
  lemma WeightedUnit(w: real, a: real)
    requires w >= 0.0 && 0.0 <= a <= 1.0
    ensures 0.0 <= Weighted(w, a) <= w
  {
    MulMonotone(w, 0.0, a);
    MulMonotone(w, a, 1.0);
  }

  lemma MeanOfThreeUnit(freq: seq<real>, gap: seq<real>, pos: seq<real>)
    requires |freq| == |gap| == |pos|
    requires UnitScores(freq) && UnitScores(gap) && UnitScores(pos)
    ensures UnitScores(MeanOfThree(freq, gap, pos))
  {
  }

  lemma UniformUnit(n: nat)
    requires n > 0
    ensures UnitScores(Uniform(n))
  {
    assert 0.0 <= 1.0 / n as real <= 1.0;
  }

  /** With convex weights, blending scores that lie in [0, 1] gives scores in [0, 1]. */
  lemma BlendUnit(w: Weights, lstm: seq<real>, xgb: seq<real>, markov: seq<real>, stat: seq<real>)
    requires |lstm| == |xgb| == |markov| == |stat|
    requires Convex(w)
    requires UnitScores(lstm) && UnitScores(xgb) && UnitScores(markov) && UnitScores(stat)
    ensures UnitScores(Blend(w, lstm, xgb, markov, stat))
  {
    var r := Blend(w, lstm, xgb, markov, stat);
    forall i | 0 <= i < |r| ensures 0.0 <= r[i] <= 1.0 {
      ConvexCombination(w, lstm[i], (xgb[i] + markov[i]) / 2.0, stat[i]);
    }
  }

  lemma ConvexCombination(w: Weights, a: real, b: real, c: real)
    requires Convex(w) && 0.0 <= a <= 1.0 && 0.0 <= b <= 1.0 && 0.0 <= c <= 1.0
    ensures 0.0 <= Weighted(w.lstm, a) + Weighted(w.xgb, b) + Weighted(w.stat, c) <= 1.0
  {
    WeightedUnit(w.lstm, a);
    WeightedUnit(w.xgb, b);
    WeightedUnit(w.stat, c);
  }

  /**
   * With convex weights and ML scores in [0, 1], every final score lies in
   * [0, 1], whichever scorers had to fall back.
   */
  lemma FinalScoresUnit(w: Weights, stat: seq<real>, lstmOut: Option<seq<real>>, xgbOut: Option<seq<real>>,
                        markovOut: Option<seq<real>>)
    requires |stat| > 0
    requires Covers(lstmOut, |stat|) && Covers(xgbOut, |stat|) && Covers(markovOut, |stat|)
    requires Convex(w) && UnitScores(stat)
    requires lstmOut.Some? ==> UnitScores(lstmOut.value)
    requires xgbOut.Some? ==> UnitScores(xgbOut.value)
    requires markovOut.Some? ==> UnitScores(markovOut.value)
    ensures UnitScores(FinalScores(w, stat, lstmOut, xgbOut, markovOut))
  {
    UniformUnit(|stat|);
    BlendUnit(w, lstmOut.GetOr(stat), xgbOut.GetOr(stat), markovOut.GetOr(Uniform(|stat|)), stat);
  }

  /**
   * With no ML scorer ready and non-negative weights, not all zero, the final
   * score is an increasing function of the statistical score alone, so the
   * ensemble ranks numbers exactly as the statistics do.
   */
  lemma NoModelsFollowStatistics(w: Weights, stat: seq<real>, i: int, j: int)
    requires 0 <= i < |stat| && 0 <= j < |stat|
    requires w.lstm >= 0.0 && w.xgb >= 0.0 && w.stat >= 0.0 && Total(w) > 0.0
    ensures FinalScores(w, stat, None, None, None)[i] <= FinalScores(w, stat, None, None, None)[j] <==> stat[i] <= stat[j]
  {
    var u := 1.0 / |stat| as real;
    FinalWithoutModelsAt(w, stat, i);
    FinalWithoutModelsAt(w, stat, j);
    if stat[i] <= stat[j] {
      BlendMonotone(w, stat[i], stat[j], u);
    } else {
      BlendMonotone(w, stat[j], stat[i], u);
    }
  }

  lemma FinalWithoutModelsAt(w: Weights, stat: seq<real>, i: int)
    requires 0 <= i < |stat|
    ensures FinalScores(w, stat, None, None, None)[i] == BlendAt(w, stat[i], stat[i], 1.0 / |stat| as real, stat[i])
  {
    assert Uniform(|stat|)[i] == 1.0 / |stat| as real;
  }

  /** Where the statistical score (which LSTM and XGBoost fell back to) rises, the final score rises too. */
  lemma BlendMonotone(w: Weights, a: real, b: real, u: real)
    requires w.lstm >= 0.0 && w.xgb >= 0.0 && w.stat >= 0.0 && Total(w) > 0.0 && a <= b
    ensures BlendAt(w, a, a, u, a) <= BlendAt(w, b, b, u, b)
    ensures a < b ==> BlendAt(w, a, a, u, a) < BlendAt(w, b, b, u, b)
  {
    WeightedMonotone(w.lstm, a, b);
    WeightedMonotone(w.xgb, (a + u) / 2.0, (b + u) / 2.0);
    WeightedMonotone(w.stat, a, b);
  }

  lemma WeightedMonotone(w: real, a: real, b: real)
    requires w >= 0.0 && a <= b
    ensures Weighted(w, a) <= Weighted(w, b)
    ensures w > 0.0 && a < b ==> Weighted(w, a) < Weighted(w, b)
  {
    MulMonotone(w, a, b);
    if w > 0.0 && a < b {
      WeightedStrict(w, a, b);
    }
  }

  lemma WeightedStrict(w: real, a: real, b: real)
    requires w > 0.0 && a < b
    ensures Weighted(w, a) < Weighted(w, b)
  {
    MulStrict(w, a, b);
  }

  // ---- predict --------------------------------------------------------------------

  datatype PredictError =
    | NoHistory     // `ValueError("No history provided to predict.")`
    | ZeroMeanGap   // the gap analyzer divides by a mean gap of 0

  /** The statistical score of every number of lo..hi. */
  function StatScores(lo: int, hi: int, freqWindow: nat, gamma: real, gapWindow: nat,
                      bands: seq<PositionBias.Band>, history: seq<seq<int>>): (r: seq<real>)
    requires lo <= hi && |bands| > 0
    requires SumInt(GapAnalyzer.Gaps(lo, hi, gapWindow, history)) != 0
    ensures |r| == hi - lo + 1
  {
    MeanOfThree(FrequencyAnalyzer.FrequencyScores(lo, hi, freqWindow, gamma, history),
                GapAnalyzer.GapScores(lo, hi, gapWindow, history),
                PositionBias.PositionScores(bands, lo, hi, history))
  }

  /** With a non-negative recency weight, every statistical score lies in [0, 1]. */
  lemma StatScoresUnit(lo: int, hi: int, freqWindow: nat, gamma: real, gapWindow: nat,
                       bands: seq<PositionBias.Band>, history: seq<seq<int>>)
    requires lo <= hi && |bands| > 0 && gamma >= 0.0
    requires SumInt(GapAnalyzer.Gaps(lo, hi, gapWindow, history)) != 0
    ensures UnitScores(StatScores(lo, hi, freqWindow, gamma, gapWindow, bands, history))
  {
    FrequencyAnalyzer.FrequencyScoresBounds(lo, hi, freqWindow, gamma, history);
    GapAnalyzer.ScoresFollowGaps(GapAnalyzer.Gaps(lo, hi, gapWindow, history));
    PositionBias.PositionScoresBounds(bands, lo, hi, history);
    MeanOfThreeUnit(FrequencyAnalyzer.FrequencyScores(lo, hi, freqWindow, gamma, history),
                    GapAnalyzer.GapScores(lo, hi, gapWindow, history),
                    PositionBias.PositionScores(bands, lo, hi, history));
  }

  /**
   * `predict`: fail on an empty history (or where the gap analyzer divides by
   * zero); otherwise rank lo..hi by descending final score and pick
   * `nPicks` of them zone by zone.
   */
  function Predicted(lo: int, hi: int, freqWindow: nat, gamma: real, gapWindow: nat,
                     bands: seq<PositionBias.Band>, w: Weights, history: seq<seq<int>>, nPicks: nat,
                     lstmOut: Option<seq<real>>, xgbOut: Option<seq<real>>, markovOut: Option<seq<real>>)
    : Result<seq<int>, PredictError>
    requires lo <= hi && |bands| > 0
    requires Covers(lstmOut, hi - lo + 1) && Covers(xgbOut, hi - lo + 1) && Covers(markovOut, hi - lo + 1)
  {
    if |history| == 0 then Failure(NoHistory)
    else if SumInt(GapAnalyzer.Gaps(lo, hi, gapWindow, history)) == 0 then Failure(ZeroMeanGap)
    else
      var stat := StatScores(lo, hi, freqWindow, gamma, gapWindow, bands, history);
      var ranked := Ranking(FinalScores(w, stat, lstmOut, xgbOut, markovOut), lo, true);
      Success(PositionBias.Pick(bands, ranked, nPicks))
  }

  /**
   * `predict` fails exactly on an empty history or a zero mean gap (every
   * number drawn in the newest draw), and NoHistory is reported first.
   */
  lemma PredictedFailures(lo: int, hi: int, freqWindow: nat, gamma: real, gapWindow: nat,
                          bands: seq<PositionBias.Band>, w: Weights, history: seq<seq<int>>, nPicks: nat,
                          lstmOut: Option<seq<real>>, xgbOut: Option<seq<real>>, markovOut: Option<seq<real>>)
    requires lo <= hi && |bands| > 0
    requires Covers(lstmOut, hi - lo + 1) && Covers(xgbOut, hi - lo + 1) && Covers(markovOut, hi - lo + 1)
    ensures var r := Predicted(lo, hi, freqWindow, gamma, gapWindow, bands, w, history, nPicks, lstmOut, xgbOut, markovOut);
      && (r == Failure(NoHistory) <==> |history| == 0)
      && (r == Failure(ZeroMeanGap) <==> |history| > 0 && AllGapsZero(GapAnalyzer.Gaps(lo, hi, gapWindow, history)))
  {
    MeanGapZero(lo, hi, gapWindow, history);
  }

  predicate AllGapsZero(g: seq<int>) {
    forall i | 0 <= i < |g| :: g[i] == 0
  }

  /** The mean gap is 0 exactly when every number's gap is 0. */
  lemma MeanGapZero(lo: int, hi: int, gapWindow: nat, history: seq<seq<int>>)
    requires lo <= hi
    ensures SumInt(GapAnalyzer.Gaps(lo, hi, gapWindow, history)) == 0 <==> AllGapsZero(GapAnalyzer.Gaps(lo, hi, gapWindow, history))
  {
    var g := GapAnalyzer.Gaps(lo, hi, gapWindow, history);
    GapAnalyzer.MeanGapNonZero(lo, hi, gapWindow, history);
    if exists i | 0 <= i < |g| :: g[i] > 0 {
      var i :| 0 <= i < |g| && g[i] > 0;
      assert !AllGapsZero(g);
    }
  }

  /**
   * A successful prediction with nPicks ≤ hi-lo+1 is nPicks distinct numbers
   * of lo..hi in ascending order.
   */
  lemma PredictedPicks(lo: int, hi: int, freqWindow: nat, gamma: real, gapWindow: nat,
                       bands: seq<PositionBias.Band>, w: Weights, history: seq<seq<int>>, nPicks: nat,
                       lstmOut: Option<seq<real>>, xgbOut: Option<seq<real>>, markovOut: Option<seq<real>>)
    requires lo <= hi && |bands| > 0 && nPicks <= hi - lo + 1
    requires Covers(lstmOut, hi - lo + 1) && Covers(xgbOut, hi - lo + 1) && Covers(markovOut, hi - lo + 1)
    ensures var r := Predicted(lo, hi, freqWindow, gamma, gapWindow, bands, w, history, nPicks, lstmOut, xgbOut, markovOut);
      r.Success? ==> |r.value| == nPicks && StrictlyAsc(r.value) && forall x | x in r.value :: lo <= x <= hi
  {
    if |history| > 0 && SumInt(GapAnalyzer.Gaps(lo, hi, gapWindow, history)) != 0 {
      var stat := StatScores(lo, hi, freqWindow, gamma, gapWindow, bands, history);
      var final := FinalScores(w, stat, lstmOut, xgbOut, markovOut);
      var ranked := Ranking(final, lo, true);
      RankingIsOrderedPermutation(final, lo, true);
      DistinctCardinality(ranked);
      PositionBias.PickProperties(bands, ranked, nPicks);
    }
  }

  /** The ensemble: the analyzers' settings and the three weights, which `update_weights` reassigns. */
  class Ensemble {
    const lo: int
    const hi: int
    const freqWindow: nat
    const gamma: real
    const gapWindow: nat
    const bands: seq<PositionBias.Band>
    var wLstm: real
    var wXgb: real
    var wStat: real

    function CurrentWeights(): Weights
      reads this
    {
      Weights(wLstm, wXgb, wStat)
    }

    /** `EnsemblePredictor(lottery_type, config)` with weights the configuration can be normalised to. */
    constructor(lo: int, hi: int, freqWindow: nat, gamma: real, gapWindow: nat,
                bands: seq<PositionBias.Band>, configured: Weights)
      requires lo <= hi
      requires ConfiguredWeights(configured).Some?
      ensures this.lo == lo && this.hi == hi && this.bands == bands
      ensures this.freqWindow == freqWindow && this.gamma == gamma && this.gapWindow == gapWindow
      ensures CurrentWeights() == ConfiguredWeights(configured).value
    {
      this.lo, this.hi := lo, hi;
      this.freqWindow, this.gamma, this.gapWindow := freqWindow, gamma, gapWindow;
      this.bands := bands;
      var w := configured;
      var total := w.lstm + w.xgb + w.stat;
      if total - 1.0 > 0.01 || 1.0 - total > 0.01 {
        w := Weights(w.lstm / total, w.xgb / total, w.stat / total);
      }
      wLstm, wXgb, wStat := w.lstm, w.xgb, w.stat;
    }

    /** `update_weights`: the three weights become the clamped inputs divided by their total. */
    method UpdateWeights(lstm: real, xgb: real, stat: real)
      modifies this
      ensures CurrentWeights() == UpdatedWeights(lstm, xgb, stat)
    {
      var l := if WeightMax < lstm then WeightMax else lstm;
      l := if WeightMin > l then WeightMin else l;
      var x := if WeightMax < xgb then WeightMax else xgb;
      x := if WeightMin > x then WeightMin else x;
      var s := if WeightMax < stat then WeightMax else stat;
      s := if WeightMin > s then WeightMin else s;
      var total := l + x + s;
      wLstm, wXgb, wStat := l / total, x / total, s / total;
    }

    /** The loop filling `final_scores`, one number at a time. */
    method FillFinal(stat: seq<real>, lstm: seq<real>, xgb: seq<real>, markov: seq<real>) returns (final: seq<real>)
      requires |lstm| == |xgb| == |markov| == |stat|
      ensures final == Blend(CurrentWeights(), lstm, xgb, markov, stat)
    {
      final := [];
      for i := 0 to |stat|
        invariant |final| == i
        invariant forall k | 0 <= k < i ::
          final[k] == BlendAt(CurrentWeights(), lstm[k], xgb[k], markov[k], stat[k])
      {
        final := final + [wLstm * lstm[i] + wXgb * ((xgb[i] + markov[i]) / 2.0) + wStat * stat[i]];
      }
      ghost var blend := Blend(CurrentWeights(), lstm, xgb, markov, stat);
      assert forall k | 0 <= k < |stat| :: final[k] == blend[k];
    }

    /**
     * `predict` given what the three ML scorers returned on this history:
     * the analyzers run, the final score of every number is filled in turn,
     * and the ranking goes to `pick_balanced`.
     */
    method Predict(history: seq<seq<int>>, nPicks: nat, lstmOut: Option<seq<real>>, xgbOut: Option<seq<real>>,
                   markovOut: Option<seq<real>>) returns (r: Result<seq<int>, PredictError>)
      requires lo <= hi && |bands| > 0 && nPicks <= hi - lo + 1
      requires Covers(lstmOut, hi - lo + 1) && Covers(xgbOut, hi - lo + 1) && Covers(markovOut, hi - lo + 1)
      ensures r == Predicted(lo, hi, freqWindow, gamma, gapWindow, bands, CurrentWeights(), history, nPicks,
                             lstmOut, xgbOut, markovOut)
    {
      if |history| == 0 {
        return Failure(NoHistory);
      }
      var freq := FrequencyAnalyzer.GetScores(lo, hi, freqWindow, gamma, history);
      var gaps := GapAnalyzer.GetGaps(lo, hi, gapWindow, history);
      if SumInt(gaps) == 0 {
        return Failure(ZeroMeanGap);
      }
      var gap := GapAnalyzer.GapScores(lo, hi, gapWindow, history);
      var pos := PositionBias.PositionScores(bands, lo, hi, history);
      var stat := MeanOfThree(freq, gap, pos);
      assert stat == StatScores(lo, hi, freqWindow, gamma, gapWindow, bands, history);
      var final := FillFinal(stat, lstmOut.GetOr(stat), xgbOut.GetOr(stat), markovOut.GetOr(Uniform(hi - lo + 1)));
      assert final == FinalScores(CurrentWeights(), stat, lstmOut, xgbOut, markovOut);
      var ranked := Ranking(final, lo, true);
      RankingIsOrderedPermutation(final, lo, true);
      DistinctCardinality(ranked);
      var picked := PositionBias.PickBalanced(bands, ranked, nPicks);
      r := Success(picked);
    }
  }
}
