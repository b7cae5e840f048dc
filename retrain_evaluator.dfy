/**
 * RetrainEvaluator: at the end of a cycle, count the draws that matched 3+
 * and 4+ numbers, decide whether to retrain, and on retrain move weight from
 * the LSTM to XGBoost, renormalise, store the new weights and log the event.
 */
module RetrainEvaluator {
  import opened Wrappers
  import opened Seqs
  import opened ScoreMaps
  import opened EnsemblePredictor
  import opened SupabaseClient
  import opened CycleManager

  const WeightStep: real := 0.05
  const ShiftMin: real := 0.10
  const ShiftMax: real := 0.60
  /** The weights assumed for a model without an active config. */
  const DefaultLstm: real := 0.40
  const DefaultXgb: real := 0.35
  const DefaultStat: real := 0.25

  // ---- metrics ----

  /** `max(hit_counts) if hit_counts else 0`. */
  function MaxMatch(counts: seq<int>): (m: int)
    ensures |counts| == 0 ==> m == 0
    ensures forall i | 0 <= i < |counts| :: counts[i] <= m
    ensures |counts| > 0 ==> exists i | 0 <= i < |counts| :: counts[i] == m
  {
    if |counts| == 0 then 0 else MaxInt(counts)
  }

  /**
   * `hit_4plus <= hit_3plus <= len(rows)`, and some draw matched at least k
   * numbers exactly when there are rows and the best match reaches k.
   */
  lemma MetricsBounds(counts: seq<int>, k: int)
    ensures CountAtLeast(counts, 4) <= CountAtLeast(counts, 3) <= |counts|
    ensures CountAtLeast(counts, k) > 0 <==> |counts| > 0 && MaxMatch(counts) >= k
  {
    CountAtLeastAntitone(counts, 3, 4);
    CountAtLeastZero(counts, k);
  }

  // ---- weights ----

  /** The weight of the last active config with that name (the dict built from the list keeps the last), or the default. */
  function ConfigWeight(configs: seq<ModelConfig>, active: seq<nat>, name: string, default: real): (w: real)
    requires forall k | 0 <= k < |active| :: active[k] < |configs|
    ensures (forall k | 0 <= k < |active| :: configs[active[k]].modelName != name) ==> w == default
    ensures (exists k | 0 <= k < |active| :: configs[active[k]].modelName == name) ==>
      exists k | 0 <= k < |active| :: configs[active[k]].modelName == name && configs[active[k]].ensembleWeight == w
  {
    if |active| == 0 then default
    else
      var last := configs[active[|active| - 1]];
      var init := active[..|active| - 1];
      assert forall k | 0 <= k < |init| :: init[k] == active[k];
      if last.modelName == name then last.ensembleWeight else ConfigWeight(configs, init, name, default)
  }

  /** The weights the retrain branch starts from. */
  function CurrentWeights(configs: seq<ModelConfig>, active: seq<nat>): Weights
    requires forall k | 0 <= k < |active| :: active[k] < |configs|
  {
    Weights(ConfigWeight(configs, active, "lstm", DefaultLstm),
            ConfigWeight(configs, active, "xgboost", DefaultXgb),
            ConfigWeight(configs, active, "statistical", DefaultStat))
  }

  /** The weights after moving one step from the LSTM (floored at 0.10) to XGBoost (capped at 0.60), before normalising. */
  function Stepped(w: Weights): Weights {
    Weights(if w.lstm - WeightStep > ShiftMin then w.lstm - WeightStep else ShiftMin,
            if w.xgb + WeightStep < ShiftMax then w.xgb + WeightStep else ShiftMax,
            w.stat)
  }

  /** The shifted weights, each divided by their total. */
  function Shifted(w: Weights): Weights
    requires Total(Stepped(w)) != 0.0
  {
    Scaled(Stepped(w), Total(Stepped(w)))
  }

  /** The shifted weights sum to 1 and keep the proportions of the stepped weights. */
  lemma ShiftedNormalised(w: Weights)
    requires Total(Stepped(w)) != 0.0
    ensures Total(Shifted(w)) == 1.0
    ensures Stepped(w).xgb != 0.0 ==> Shifted(w).lstm / Shifted(w).xgb == Stepped(w).lstm / Stepped(w).xgb
  {
    ScaledByTotal(Stepped(w));
    if Stepped(w).xgb != 0.0 {
      QuotientCancel(Stepped(w).lstm, Stepped(w).xgb, Total(Stepped(w)));
    }
  }

  lemma QuotientCancel(a: real, b: real, t: real)
    requires t != 0.0 && b != 0.0
    ensures (a / t) / (b / t) == a / b
  {
  }

  lemma DivisorAntitone(a: real, b: real, c: real)
    requires a >= 0.0 && 0.0 < b <= c
    ensures a / c <= a / b
  {
    MulMonotone(a / c, b, c);
    assert (a / c) * c == a;
  }

  /**
   * For weights inside [0.10, 0.60] the shift never raises the LSTM to
   * XGBoost ratio: the LSTM weight does not grow, the XGBoost weight does not
   * shrink, and normalising divides both by the same total.
   */
  lemma ShiftLowersLstmRatio(w: Weights)
    requires ShiftMin <= w.lstm <= ShiftMax && ShiftMin <= w.xgb <= ShiftMax && ShiftMin <= w.stat <= ShiftMax
    ensures Total(Stepped(w)) > 0.0
    ensures Shifted(w).lstm / Shifted(w).xgb <= w.lstm / w.xgb
  {
    var s := Stepped(w);
    ShiftedNormalised(w);
    DivideMonotone(s.lstm, w.lstm, s.xgb);
    DivisorAntitone(w.lstm, w.xgb, s.xgb);
  }

  /** The weight the update loop writes for a config of that name, if any. */
  function NewWeightFor(name: string, w: Weights): Option<real> {
    if name == "lstm" then Some(w.lstm)
    else if name == "xgboost" then Some(w.xgb)
    else if name == "statistical" then Some(w.stat)
    else None
  }

  /** The configs after the update loop over the listed ids. */
  function Reweighted(configs: seq<ModelConfig>, ids: seq<nat>, w: Weights): (r: seq<ModelConfig>)
    ensures |r| == |configs|
  {
    seq(|configs|, i requires 0 <= i < |configs| =>
      if i in ids && NewWeightFor(configs[i].modelName, w).Some? then
        configs[i].(ensembleWeight := NewWeightFor(configs[i].modelName, w).value)
      else configs[i])
  }

  /**
   * The update loop touches only listed configs named lstm, xgboost or
   * statistical, changes nothing but their weight, and gives each the new
   * weight of its model.
   */
  lemma ReweightedOnlyNamed(configs: seq<ModelConfig>, ids: seq<nat>, w: Weights)
    ensures forall i | 0 <= i < |configs| ::
      var r := Reweighted(configs, ids, w)[i];
      && r.modelName == configs[i].modelName && r.lotteryType == configs[i].lotteryType && r.isActive == configs[i].isActive
      && (r != configs[i] ==> i in ids && configs[i].modelName in {"lstm", "xgboost", "statistical"})
    ensures forall i | 0 <= i < |configs| && i in ids ::
      && (configs[i].modelName == "lstm" ==> Reweighted(configs, ids, w)[i].ensembleWeight == w.lstm)
      && (configs[i].modelName == "xgboost" ==> Reweighted(configs, ids, w)[i].ensembleWeight == w.xgb)
      && (configs[i].modelName == "statistical" ==> Reweighted(configs, ids, w)[i].ensembleWeight == w.stat)
  {
  }

  /** The loop that writes each listed config's new weight. */
  method ApplyWeights(db: Database, active: seq<nat>, w: Weights)
    requires forall k | 0 <= k < |active| :: active[k] < |db.configs|
    modifies db
    ensures db.configs == Reweighted(old(db.configs), active, w)
    ensures db.results == old(db.results) && db.cycles == old(db.cycles) && db.predictions == old(db.predictions)
    ensures db.matches == old(db.matches) && db.logs == old(db.logs)
  {
    ghost var start := db.configs;
    for k := 0 to |active|
      invariant |db.configs| == |start|
      invariant forall i | 0 <= i < |start| :: db.configs[i] == Reweighted(start, active[..k], w)[i]
      invariant db.results == old(db.results) && db.cycles == old(db.cycles) && db.predictions == old(db.predictions)
      invariant db.matches == old(db.matches) && db.logs == old(db.logs)
    {
      assert forall i :: i in active[..k + 1] <==> i in active[..k] || i == active[k] by {
        assert active[..k + 1] == active[..k] + [active[k]];
      }
      var newWeight := NewWeightFor(db.configs[active[k]].modelName, w);
      if newWeight.Some? {
        db.UpdateModelWeight(active[k], newWeight.value);
      }
    }
    assert active[..|active|] == active;
  }

  /** The weight shift as the source computes it, step by step; None where the total is zero. */
  method ShiftWeights(before: Weights) returns (after: Option<Weights>)
    ensures after.None? <==> Total(Stepped(before)) == 0.0
    ensures after.Some? ==> after.value == Shifted(before) && Total(after.value) == 1.0
  {
    var wLstm := if before.lstm - WeightStep > ShiftMin then before.lstm - WeightStep else ShiftMin;
    var wXgb := if before.xgb + WeightStep < ShiftMax then before.xgb + WeightStep else ShiftMax;
    var wStat := before.stat;
    var total := wLstm + wXgb + wStat;
    if total == 0.0 {
      return None;
    }
    after := Some(Weights(wLstm / total, wXgb / total, wStat / total));
    ShiftedNormalised(before);
  }

  /**
   * The retrain branch: read the active configs' weights, shift them, write
   * them back and log the event. False, with nothing written, where the
   * shifted total is zero.
   */
  method Retrain(db: Database, lotteryType: string, reason: TriggerReason, hit3: nat, maxMatch: int)
    returns (ok: bool)
    modifies db
    ensures var active := old(ActiveConfigs(db.configs, lotteryType));
      var before := old(CurrentWeights(db.configs, ActiveConfigs(db.configs, lotteryType)));
      && (ok <==> Total(Stepped(before)) != 0.0)
      && (!ok ==> unchanged(db))
      && (ok ==>
            && db.configs == Reweighted(old(db.configs), active, Shifted(before))
            && db.logs == old(db.logs) + [TrainingLog(lotteryType, reason, Some(before), Some(Shifted(before)),
                                                     hit3, maxMatch, Triggered)])
    ensures db.results == old(db.results) && db.cycles == old(db.cycles) && db.predictions == old(db.predictions)
    ensures db.matches == old(db.matches)
  {
    var active := ActiveConfigs(db.configs, lotteryType);
    var before := CurrentWeights(db.configs, active);
    var after := ShiftWeights(before);
    if after.None? {
      return false;
    }
    ApplyWeights(db, active, after.value);
    db.InsertTrainingLog(TrainingLog(lotteryType, reason, Some(before), Some(after.value), hit3, maxMatch, Triggered));
    ok := true;
  }

  // ---- evaluate_and_retrain ----

  datatype EvalError = ZeroWeightTotal

  /** The summary `evaluate_and_retrain` returns (its `success` is always true; the display label left aside). */
  datatype Summary = Summary(lotteryType: string, matchRows: seq<MatchRow>, hit3Plus: nat, hit4Plus: nat,
                             maxMatch: int, shouldRetrain: bool, reason: TriggerReason)

  /**
   * `evaluate_and_retrain` for the cycle, with the configured minimum number
   * of 3+ draws. Fewer than 5 rows is not an error. When the 3+ count is
   * below the minimum, the weights are shifted, written to the active
   * configs and logged as triggered; otherwise a skip is logged and no
   * weight changes. Either way exactly one log row is added. A zero total
   * after the shift is the source's division by zero, which fails before
   * any write.
   */
  method EvaluateAndRetrain(db: Database, lotteryType: string, cycleId: nat, minHits3Plus: int)
    returns (r: Result<Summary, EvalError>)
    modifies db
    ensures var rows := old(MatchRowsFor(db.matches, cycleId));
      var counts := MatchedCounts(rows);
      var hit3 := CountAtLeast(counts, 3);
      var retrain := hit3 < minHits3Plus;
      var active := old(ActiveConfigs(db.configs, lotteryType));
      var before := old(CurrentWeights(db.configs, ActiveConfigs(db.configs, lotteryType)));
      && (r.Failure? <==> retrain && Total(Stepped(before)) == 0.0)
      && (r.Failure? ==> unchanged(db))
      && (r.Success? ==>
            && r.value == Summary(lotteryType, rows, hit3, CountAtLeast(counts, 4), MaxMatch(counts), retrain,
                                  if retrain then BelowThreshold(hit3, minHits3Plus) else ModelKept(hit3))
            && |db.logs| == old(|db.logs|) + 1
            && (retrain ==>
                  && db.configs == Reweighted(old(db.configs), active, Shifted(before))
                  && db.logs == old(db.logs) + [TrainingLog(lotteryType, BelowThreshold(hit3, minHits3Plus), Some(before),
                                                           Some(Shifted(before)), hit3, MaxMatch(counts), Triggered)])
            && (!retrain ==>
                  && db.configs == old(db.configs)
                  && db.logs == old(db.logs) + [TrainingLog(lotteryType, ModelKept(hit3), None, None, hit3,
                                                           MaxMatch(counts), Skipped)]))
    ensures db.results == old(db.results) && db.cycles == old(db.cycles) && db.predictions == old(db.predictions)
    ensures db.matches == old(db.matches)
  {
    var rows := MatchRowsFor(db.matches, cycleId);
    var counts := MatchedCounts(rows);
    var hit3 := CountAtLeast(counts, 3);
    var hit4 := CountAtLeast(counts, 4);
    var maxMatch := MaxMatch(counts);
    var shouldRetrain := hit3 < minHits3Plus;
    if shouldRetrain {
      var reason := BelowThreshold(hit3, minHits3Plus);
      var ok := Retrain(db, lotteryType, reason, hit3, maxMatch);
      if !ok {
        return Failure(ZeroWeightTotal);
      }
      r := Success(Summary(lotteryType, rows, hit3, hit4, maxMatch, true, reason));
    } else {
      var reason := ModelKept(hit3);
      db.InsertTrainingLog(TrainingLog(lotteryType, reason, None, None, hit3, maxMatch, Skipped));
      r := Success(Summary(lotteryType, rows, hit3, hit4, maxMatch, false, reason));
    }
  }
}
