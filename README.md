# Vietlott prediction pipeline — a verified model of its core

This project models, in Dafny, the deterministic core of a Vietnamese
lottery (Vietlott) prediction system. The system covers three games:
Mega 6/45, Power 6/55 and Lotto 5/35. The model covers:

- **Statistical analyzers.**
  - Recency-weighted frequency scores, with hot and cold numbers.
  - Draws-since-last-seen gaps and overdue numbers.
  - Position-zone bias scores.
  - Zone-quota selection (`pick_balanced`), with its back-fill loop.
- **ML feature and state logic.**
  - The Markov transition-count table and its Laplace-smoothed scores.
  - The string form of a Markov state key, as written by `save` and read by `load`.
  - The XGBoost feature vector and training samples.
  - The LSTM one-hot encoding, training windows and padded scoring window.
  - The trained networks are opaque: a scorer that is not ready is `None`.
- **Ensemble combiner.**
  - Weight normalisation and `update_weights`.
  - Blending the scores, with the fallbacks for scorers that are not ready.
  - Ranking, then the balanced pick.
- **Cycle pipeline over an in-memory store.**
  - Creating, advancing and completing prediction cycles.
  - The adaptive `max_draws`.
  - Checking a draw against the cycle's prediction, with the three error exits.
  - The end-of-cycle evaluation: metrics, the retrain decision, the weight shift and the training log.
- **Crawlers.**
  - The draw validator.
  - The record builders of the three games, with id normalisation and Lotto 5/35 session parity.
  - `fetch_latest`, `fetch_draw`, `fetch_date_range` and `fetch_session`, over an already-decoded feed.

The Dafny layout:

- **One module per source file.** Helper modules: `Wrappers` (Option and
  Result), `Seqs` (sums, distinctness, sorting), `Text` (Python's `str(int)`,
  `int(str)`, `strip` and `split` on numerals) and `ScoreMaps`
  (max-normalisation, stable ranking by score).
- **Scores are exact reals.** A per-number score dict over `lo..hi` is a
  `seq<real>` of length `hi-lo+1`, indexed by `number - lo`.
- **Code that mutates state keeps its form.**
  - `MarkovChain.Chain`, `XGBoostPredictor.Predictor`, `LSTMPredictor.Predictor`,
    `EnsemblePredictor.Ensemble` and `SupabaseClient.Database` are classes.
  - Their methods are proved against specification functions.
  - Loops are `while` or `for` loops with invariants.
- **The store is a class of tables.** Each table is a `seq` and a row's id is
  its position. Its operations follow the store calls the pipeline makes.

Where the code's own documentation and its behaviour differ, the model follows the behaviour:

- **`update_weights`.** Its docstring says it adjusts the weights "with
  min/max constraints" of [0.10, 0.60]. The code clamps the inputs to that
  band and then divides by their total, so results range over [1/13, 3/4].
  `EnsemblePredictor.UpdateCanLeaveBand` shows (0.9, 0.1, 0.1) giving an LSTM
  weight of 0.75.
- **The retrain step.** The evaluator lowers the LSTM weight by 0.05
  (floored at 0.10), raises the XGBoost weight by 0.05 (capped at 0.60),
  leaves the statistical weight as it is, then renormalises, so the stored
  weights move by a different amount than the step. The model proves what does hold: the
  LSTM/XGBoost ratio never rises.
- **Normalisation failures.** Normalising the weights divides by their
  total, which fails on a zero total. Those cases are failures (`None` or
  `Failure`) in the model.
- **XGBoost training context.** `_build_training_data` comments its context
  `history[i:]` as "history before this draw", but the slice starts with the
  labelled draw itself. The model keeps the slice as written, and
  `XGBoostPredictor.TrainingLabelLeaks` proves the consequence: in every
  training sample the recency feature is 0 exactly when the label is 1.

## Model

| member | source | states |
|---|---|---|
| FrequencyAnalyzer.GetScores | src/models/statistical/frequency_analyzer.py:18-39 | the nested accumulation loop computes the frequency score table of `lo..hi`; when the window is empty, every number scores 1.0 |
| FrequencyAnalyzer.RawFrequencyIsWeightedCount | src/models/statistical/frequency_analyzer.py:23-35 | a number's raw score equals an independent reference sum: `gamma^idx` for each occurrence in the first `window` draws; out-of-range numbers are ignored |
| FrequencyAnalyzer.FrequencyScoreAt | src/models/statistical/frequency_analyzer.py:28-39 | with a non-empty window, each score is the number's weighted count divided by the table's maximum, or by 1 when that maximum is 0 |
| FrequencyAnalyzer.FrequencyScoresBounds | src/models/statistical/frequency_analyzer.py:38-39 | with a non-negative recency weight, every normalised score lies in [0, 1] |
| FrequencyAnalyzer.FrequencyScoresReachOne | src/models/statistical/frequency_analyzer.py:38-39 | with a positive recency weight and some in-range number in the window, some number scores exactly 1 |
| FrequencyAnalyzer.WeightedCountPositive | src/models/statistical/frequency_analyzer.py:30-35 | a number that occurs in the window has a positive raw score when the recency weight is positive |
| FrequencyAnalyzer.HotNumbersProperties | src/models/statistical/frequency_analyzer.py:41-43 | the hot numbers are min(top_n, hi-lo+1) distinct in-range numbers, listed by descending score, and none scores below a number left out |
| FrequencyAnalyzer.ColdNumbersProperties | src/models/statistical/frequency_analyzer.py:45-47 | the cold numbers are min(bottom_n, hi-lo+1) distinct in-range numbers, listed by ascending score, and none scores above a number left out |
| GapAnalyzer.FirstIndex | src/models/statistical/gap_analyzer.py:25-29 | the search finds the first draw containing the number, or reports that no draw contains it |
| GapAnalyzer.GetGaps | src/models/statistical/gap_analyzer.py:16-32 | the loop with `break` computes the gap table of `lo..hi`; each gap is the index of the first window draw containing the number, or `window+1` |
| GapAnalyzer.GapNeverWindow | src/models/statistical/gap_analyzer.py:21-30 | no gap equals `window`: a gap is below the window or exactly `window+1` |
| GapAnalyzer.MeanGapNonZero | src/models/statistical/gap_analyzer.py:38-40 | the gap sum is non-negative, and `avg_gap` is non-zero iff some gap is positive |
| GapAnalyzer.ScoreFormula | src/models/statistical/gap_analyzer.py:40-44 | dividing by the mean and then by the maximum ratio gives each score as gap / (largest gap) |
| GapAnalyzer.ScoresFollowGaps | src/models/statistical/gap_analyzer.py:40-44 | scores lie in [0, 1]; a score is 1 iff its gap is the largest; a larger gap never gets a lower score, and conversely |
| GapAnalyzer.OverdueNumbersProperties | src/models/statistical/gap_analyzer.py:46-48 | the overdue numbers are min(top_n, hi-lo+1) distinct in-range numbers, listed by descending gap, none with a smaller gap than a number left out |
| GapAnalyzer.EmptyHistory | src/models/statistical/gap_analyzer.py:30-44 | with no history, every gap is `window+1` and every score is 1.0 |
| PositionBias.GetZone | src/models/statistical/position_bias.py:24-28 | the result is the first band, in band order, whose inclusive bounds hold the number; `None` iff no band holds it |
| PositionBias.PowerBandsCover | src/models/statistical/position_bias.py:24-28 | with the bands low [1,18], mid [19,36] and high [37,55], every number 1..55 has a zone |
| PositionBias.GetZoneDistribution | src/models/statistical/position_bias.py:30-43 | the Counter loop computes the zone distribution (count/total, or an even split when no history number is in a band), and the shares sum to 1 |
| PositionBias.DistributionSumsToOne | src/models/statistical/position_bias.py:30-43 | the zone shares always sum to 1 |
| PositionBias.PositionScoresBounds | src/models/statistical/position_bias.py:45-61 | the table covers `lo..hi`, every score lies in (0, 1], and some number scores exactly 1 |
| PositionBias.SameZoneSameScore | src/models/statistical/position_bias.py:53-61 | two numbers in the same zone, or both in no zone, score the same |
| PositionBias.NeedOrdersScores | src/models/statistical/position_bias.py:53-58 | a zone at or above the even share (or no zone) gets only the 0.01 floor, the lowest score; a zone below the even share scores strictly higher |
| PositionBias.QuotaSumValue | src/models/statistical/position_bias.py:68-70 | the quotas of the first k zones add up to k·(n // Z) + min(k, n % Z) |
| PositionBias.QuotasAddUp | src/models/statistical/position_bias.py:68-70 | the zone quotas (n // Z, plus one for each of the first n % Z zones) add up to exactly n |
| PositionBias.ZonePhaseQuotas | src/models/statistical/position_bias.py:71-81 | after the zone phase, each zone holds exactly its first `Quota` candidates, in input order |
| PositionBias.BackFillFills | src/models/statistical/position_bias.py:84-88 | with at least n distinct candidates, back-fill reaches exactly n numbers; it keeps the earlier picks as a prefix and adds only unselected candidates |
| PositionBias.PickProperties | src/models/statistical/position_bias.py:63-90 | with at least n distinct candidates, the pick is n candidates in ascending order, with no repeat when the candidates have none |
| PositionBias.PickBalanced | src/models/statistical/position_bias.py:63-90 | the in-place grouping, quota and back-fill loops compute `Pick`: n ascending candidates, strictly ascending for distinct candidates |
| MarkovChain.PrevIndex | src/models/ml/markov_chain.py:39-43 | step i keys on draw i-1; with `order` 0 the first step reads index -1, which is the newest draw |
| MarkovChain.TrainConsistent | src/models/ml/markov_chain.py:28-47 | training keeps every state's `total_transitions` equal to the sum of its per-number counts |
| MarkovChain.TrainCounts | src/models/ml/markov_chain.py:39-47 | training adds to the existing counts: each (state, number) count grows by exactly the number of observed transitions, checked against an independent reference count |
| MarkovChain.Chain.constructor | src/models/ml/markov_chain.py:23-30 | a new chain is untrained, with empty tables |
| MarkovChain.Chain.Train | src/models/ml/markov_chain.py:32-51 | with `len(history) <= order`, returns `None` and leaves the model unchanged; otherwise the tables become the oldest-first training of the history from step `order` on, and the model is trained |
| MarkovChain.Chain.RecordTransition | src/models/ml/markov_chain.py:44-47 | one training step adds the draw's numbers to the state's counts and `len(draw)` to its total |
| MarkovChain.Chain.GetScores | src/models/ml/markov_chain.py:53-76 | untrained or an empty history (the source raises): `None`; a zero smoothed denominator or a zero probability sum (the source divides by zero): `None`; otherwise the smoothed scores after the newest draw's number set, as `MarkovScores` |
| MarkovChain.ScoresAreDistribution | src/models/ml/markov_chain.py:66-76 | with positive smoothing, every number of `lo..hi` gets a positive score and the scores sum to 1 |
| MarkovChain.UnseenStateIsUniform | src/models/ml/markov_chain.py:56-72 | a state never seen in training gives every number 1/(hi-lo+1) |
| MarkovChain.KeyRoundTrip | src/models/ml/markov_chain.py:80-106 | a non-empty state key that is saved with `str` and loaded by strip/split/int gives back the same set, whatever order Python printed it in |
| MarkovChain.EmptyKeyFails | src/models/ml/markov_chain.py:102-106 | the empty state's key "frozenset()" fails to load |
| XGBoostPredictor.Predictor.constructor | src/models/ml/xgboost_predictor.py:26-29 | a new predictor has no model loaded |
| XGBoostPredictor.Predictor.BuildFeatures | src/models/ml/xgboost_predictor.py:31-62 | the counting, search and gap loops compute the four-value feature vector `[freq, recency_norm, gap_delta, pos_norm]` |
| XGBoostPredictor.FeatureBounds | src/models/ml/xgboost_predictor.py:33-62 | freq lies in [0, 1] and is 0 for an empty history; pos_norm lies in [0, 1]; recency_norm is non-negative and exactly 1 for a number never seen; gap_delta is at least -1 |
| XGBoostPredictor.FirstFromMeaning | src/models/ml/xgboost_predictor.py:40-45 | the recency search finds the first draw of the whole history that holds the number, or reports none |
| XGBoostPredictor.RecencyBeyondWindow | src/models/ml/xgboost_predictor.py:40-45 | recency is searched over the whole history, so recency_norm can exceed 1 |
| XGBoostPredictor.AppearancesMeaning | src/models/ml/xgboost_predictor.py:48-53 | the appearance indices ascend strictly and are exactly the draws of `history[:100]` that hold the number |
| XGBoostPredictor.GapsTelescope | src/models/ml/xgboost_predictor.py:51-55 | the consecutive appearance gaps sum to the distance from the first appearance to the last |
| XGBoostPredictor.AvgGapMeaning | src/models/ml/xgboost_predictor.py:54-55 | with two appearances or more, the mean gap is (last-first)/(count-1) and is positive; otherwise it falls back to the window |
| XGBoostPredictor.GapDeltaValue | src/models/ml/xgboost_predictor.py:56-57 | the gap delta's value is (recency - avg_gap)/(avg_gap or 1) |
| XGBoostPredictor.TrainingSample | src/models/ml/xgboost_predictor.py:64-75 | there are (len-1)·(hi-lo+1) samples and labels; sample (i-1)·N+k has the features of lo+k with context `history[i:]` and label 1 iff lo+k is in draw i |
| XGBoostPredictor.TrainingLabelLeaks | src/models/ml/xgboost_predictor.py:68-73 | the context `history[i:]` includes the labelled draw, so in every training sample the recency feature is 0 iff the label is 1 |
| XGBoostPredictor.Predictor.BuildTrainingData | src/models/ml/xgboost_predictor.py:64-75 | the nested loops build exactly those samples and labels |
| XGBoostPredictor.Predictor.BuildRow | src/models/ml/xgboost_predictor.py:68-74 | the inner loop builds one labelled draw's samples and labels |
| XGBoostPredictor.Predictor.GetScores | src/models/ml/xgboost_predictor.py:102-113 | `None` iff no model is loaded (the source raises); otherwise the model's probability for every number |
| LSTMPredictor.DecodeEncode | src/models/ml/lstm_predictor.py:64-70 | the encoding has length hi-lo+1 and only 0/1 entries, and its 1-positions are exactly the draw's in-range numbers |
| LSTMPredictor.EncodeSameIffSameNumbers | src/models/ml/lstm_predictor.py:64-70 | two draws encode alike iff they hold the same in-range numbers |
| LSTMPredictor.ScoringWindowShape | src/models/ml/lstm_predictor.py:125-128 | the scoring window has exactly `seq_len` draws: empty padding first, then the newest `seq_len` draws, oldest first |
| LSTMPredictor.Predictor.constructor | src/models/ml/lstm_predictor.py:26-31 | a new predictor has no network; its window length is the configured one or 50 |
| LSTMPredictor.Predictor.EncodeDraw | src/models/ml/lstm_predictor.py:64-70 | filling a zeroed array computes the one-hot encoding |
| LSTMPredictor.Predictor.PrepareSequences | src/models/ml/lstm_predictor.py:72-84 | there are max(0, len-seq_len) samples; X[i] is encoded draws i..i+seq_len-1 oldest first, and y[i] is draw i+seq_len |
| LSTMPredictor.Predictor.PaddedWindow | src/models/ml/lstm_predictor.py:125-128 | the `insert(0, ...)` padding loop computes the scoring window |
| LSTMPredictor.Predictor.GetScores | src/models/ml/lstm_predictor.py:117-134 | `None` when no network is loaded (the source raises); otherwise the network output on the encoded window, with position i as the score of lo+i |
| EnsemblePredictor.ConfiguredWeightsProperties | src/models/ensemble_predictor.py:41-46 | weights within 0.01 of summing to 1 are kept as they are; other weights are divided by their sum and then sum to exactly 1, with the same proportions; a zero sum fails |
| EnsemblePredictor.Ensemble.constructor | src/models/ensemble_predictor.py:29-68 | the ensemble holds the normalised configured weights and the analyzer settings |
| EnsemblePredictor.ClampProperties | src/models/ensemble_predictor.py:74-76 | clamping lands in [0.10, 0.60], is monotone, and leaves values already in the band unchanged |
| EnsemblePredictor.UpdatedWeightsNormalised | src/models/ensemble_predictor.py:72-81 | for any inputs, the updated weights sum to 1 and each lies in [1/13, 3/4] |
| EnsemblePredictor.UpdateCanLeaveBand | src/models/ensemble_predictor.py:72-81 | the band is not imposed again after the division: (0.9, 0.1, 0.1) yields an LSTM weight of 0.75 |
| EnsemblePredictor.UpdatedWeightsKeepOrder | src/models/ensemble_predictor.py:72-81 | the update preserves the order of any two inputs |
| EnsemblePredictor.Ensemble.UpdateWeights | src/models/ensemble_predictor.py:72-81 | the three weight fields become the clamped inputs divided by their total |
| EnsemblePredictor.MeanOfThree | src/models/ensemble_predictor.py:97-100 | each statistical score is the mean of the frequency, gap and position scores |
| EnsemblePredictor.StatScoresUnit | src/models/ensemble_predictor.py:94-100 | with a non-negative recency weight, every statistical score lies in [0, 1] |
| EnsemblePredictor.FinalScoresUnit | src/models/ensemble_predictor.py:102-134 | with convex weights and ML scores in [0, 1], every final score lies in [0, 1], whichever scorers fell back |
| EnsemblePredictor.NoModelsFollowStatistics | src/models/ensemble_predictor.py:102-134 | with no ML scorer ready and non-negative weights that are not all zero, the final score rises strictly with the statistical score |
| EnsemblePredictor.Ensemble.FillFinal | src/models/ensemble_predictor.py:127-134 | the filling loop gives each number w_lstm·lstm + w_xgb·(xgb+markov)/2 + w_stat·stat |
| EnsemblePredictor.PredictedFailures | src/models/ensemble_predictor.py:90-95 | `predict` fails iff the history is empty (`NoHistory`, reported first) or every gap is 0 (the gap analyzer divides by zero) |
| EnsemblePredictor.MeanGapZero | src/models/statistical/gap_analyzer.py:38-40 | the gap sum is 0 iff every number's gap is 0 |
| EnsemblePredictor.PredictedPicks | src/models/ensemble_predictor.py:136-140 | a successful prediction with n_picks ≤ hi-lo+1 is n_picks distinct in-range numbers in ascending order |
| EnsemblePredictor.Ensemble.Predict | src/models/ensemble_predictor.py:86-142 | running the analyzers, the fallbacks, the final-score loop, the ranking and `pick_balanced` gives `Predicted`, which the lemmas above describe |
| ScoreMaps.RankingIsOrderedPermutation | src/models/ensemble_predictor.py:137 | `sorted(..., key=score, reverse)` lists every number of the range once, ordered by score with ties in ascending order (a stable sort) |
| ScoreMaps.NormalizeByMax | src/models/statistical/frequency_analyzer.py:38-39 | when some raw score is positive, each score is divided by the maximum and the largest becomes exactly 1 |
| Text.IntRoundTrip | src/crawlers/mega645_crawler.py:66 | `int(str(n)) == n` for every integer |
| Text.CanonicalIdempotent | src/crawlers/mega645_crawler.py:66 | normalising an id twice changes nothing more |
| Text.SplitJoin | src/models/ml/markov_chain.py:102 | splitting on ", " undoes a join of comma-free pieces |
| SupabaseClient.ActiveCycle | src/utils/supabase_client.py:72-82 | the result is an active cycle of the type; `None` iff the type has no active cycle |
| SupabaseClient.ActiveCycleUnique | src/utils/supabase_client.py:72-82 | with at most one active cycle per type, the cycle found is the only active one of its type |
| SupabaseClient.CycleByNumber | src/utils/supabase_client.py:84-94 | the result is a cycle of that type and number; `None` iff there is none |
| SupabaseClient.HighestCycleNumber | src/utils/supabase_client.py:139-151 | the result is the largest cycle number of the type; `None` iff the type has no cycle |
| SupabaseClient.NextCycleNumber | src/utils/supabase_client.py:139-151 | the result is one above every cycle number of the type, and 1 when the type has no cycle |
| SupabaseClient.PredictionFor | src/utils/supabase_client.py:176-185 | the result is a prediction of the cycle; `None` iff the cycle has none |
| SupabaseClient.ResultByDrawId | src/utils/supabase_client.py:56-67 | the result is a draw of that type and id; `None` iff there is none |
| SupabaseClient.MatchRowsFor | src/utils/supabase_client.py:200-209 | the result holds every match row of the cycle and no other row |
| SupabaseClient.ActiveConfigs | src/utils/supabase_client.py:214-223 | the result lists the id of every active config of the type and of no other config |
| SupabaseClient.UpsertMatchProperties | src/utils/supabase_client.py:190-197 | after an upsert the row is stored; the table grows by one iff the (cycle, draw) key was new; rows with other keys are kept; upserting again changes nothing |
| SupabaseClient.Database.constructor | src/utils/supabase_client.py:19-23 | the store holds exactly the given tables |
| SupabaseClient.Database.CreatePredictionCycle | src/utils/supabase_client.py:97-111 | one new active cycle is appended, with nothing tracked; its id is returned; the other tables are unchanged |
| SupabaseClient.Database.IncrementDrawsTracked | src/utils/supabase_client.py:114-124 | only that cycle's `draws_tracked` goes up by one |
| SupabaseClient.Database.CompleteCycle | src/utils/supabase_client.py:127-136 | only that cycle changes: its status becomes completed and it is stamped with the clock reading |
| SupabaseClient.Database.InsertMatchResult | src/utils/supabase_client.py:190-197 | the match table becomes its upsert on (cycle, draw); nothing else changes |
| SupabaseClient.Database.UpdateModelWeight | src/utils/supabase_client.py:226-234 | only that config's weight changes |
| SupabaseClient.Database.InsertTrainingLog | src/utils/supabase_client.py:244-247 | exactly one log row is appended |
| CycleManager.CountAtLeastZero | src/pipeline/cycle_manager.py:29 | the count of rows with matched_count ≥ k is zero iff no row reaches k |
| CycleManager.NewCycleMaxDrawsCases | src/pipeline/cycle_manager.py:23-31 | a new cycle gets 3 draws iff its number is above 1, the previous cycle exists and none of its rows matched 3 or more; otherwise it gets 5 |
| CycleManager.GetOrCreateCycle | src/pipeline/cycle_manager.py:13-35 | an existing active cycle is returned and nothing changes; otherwise one active cycle is created with the next number, 0 tracked and the adaptive limit; one-active-per-type is kept |
| CycleManager.AdvanceCycle | src/pipeline/cycle_manager.py:38-54 | the cycle's count goes up by one; it is completed, with the clock reading, iff the new count reaches the active cycle's `max_draws` (5 when there is none) |
| CycleManager.AdvancedKeepsOneActive | src/pipeline/cycle_manager.py:38-54 | advancing keeps at most one active cycle per type |
| CycleManager.AdvanceStep | src/pipeline/cycle_manager.py:38-59 | advancing the unique active cycle raises its count by one and completes it iff the count reaches its own limit; no other cycle changes; `is_cycle_complete` then agrees with the status |
| CycleManager.AdvancedTimesEffect | src/pipeline/cycle_manager.py:38-54 | from count d below the limit m, k ≤ m-d advances give count d+k, and the cycle completes exactly at the advance that reaches m |
| CycleManager.FifthAdvanceCompletes | src/pipeline/cycle_manager.py:43-52 | a fresh five-draw cycle stays active through four advances and the fifth completes it |
| ResultChecker.Common | src/pipeline/result_checker.py:54 | a number is kept iff it is both predicted and drawn |
| ResultChecker.MatchedProperties | src/pipeline/result_checker.py:54-55 | the matched numbers ascend without repeats and are exactly the common numbers; their count is at most the size of each number set |
| ResultChecker.CheckResult | src/pipeline/result_checker.py:15-93 | no active cycle, no prediction or a missing draw returns that error and writes nothing; otherwise one row is upserted with draw number `draws_tracked+1` and the cycle advances once; under one-active-per-type, `cycle_complete` holds iff that number reaches `max_draws` |
| RetrainEvaluator.MaxMatch | src/pipeline/retrain_evaluator.py:39 | the result is the largest matched count, or 0 when there are no rows |
| RetrainEvaluator.MetricsBounds | src/pipeline/retrain_evaluator.py:36-39 | hit_4plus ≤ hit_3plus ≤ number of rows; some row reaches k iff there are rows and max_match ≥ k |
| RetrainEvaluator.ConfigWeight | src/pipeline/retrain_evaluator.py:55-60 | the weight of an active config with that name (the last one wins in the dict), or the default when there is none |
| RetrainEvaluator.ShiftedNormalised | src/pipeline/retrain_evaluator.py:63-70 | the shifted weights sum to 1 and keep the proportions of the stepped weights |
| RetrainEvaluator.ShiftLowersLstmRatio | src/pipeline/retrain_evaluator.py:63-70 | for weights in [0.10, 0.60], the shift never raises the LSTM/XGBoost ratio |
| RetrainEvaluator.Reweighted | src/pipeline/retrain_evaluator.py:73-77 | the update loop leaves the length alone and changes only the weights of listed configs |
| RetrainEvaluator.ReweightedOnlyNamed | src/pipeline/retrain_evaluator.py:73-77 | only listed configs named lstm, xgboost or statistical change, and only in their weight, which becomes their model's new weight |
| RetrainEvaluator.ApplyWeights | src/pipeline/retrain_evaluator.py:73-77 | the loop's writes leave the configs as `Reweighted`; the other tables are unchanged |
| RetrainEvaluator.ShiftWeights | src/pipeline/retrain_evaluator.py:58-70 | the step-by-step shift gives the shifted weights, which sum to 1; `None` iff the stepped total is 0 |
| RetrainEvaluator.Retrain | src/pipeline/retrain_evaluator.py:53-89 | the active configs get the shifted weights and one "triggered" log with the old and new weights is added; when the total is zero, nothing is written |
| RetrainEvaluator.EvaluateAndRetrain | src/pipeline/retrain_evaluator.py:20-112 | the summary carries hit_3plus, hit_4plus, max_match, should_retrain (hit_3plus < the minimum) and the reason; exactly one log is added; the retrain branch writes shifted weights, the skip branch changes no weight |
| BaseCrawler.ValidateDrawMeaning | src/crawlers/base_crawler.py:68-88 | a draw is accepted iff the required keys are present and it has exactly 6 distinct numbers, all in the inclusive range; `jackpot2` is never looked at |
| BaseCrawler.SortedDraw | src/crawlers/mega645_crawler.py:45 | sorting keeps the length and the members, and gives strictly ascending numbers iff there are no repeats |
| BaseCrawler.KeptSatisfy | src/crawlers/mega645_crawler.py:43-59 | a property of every built record holds of every record `_fetch_all` returns |
| BaseCrawler.CollectRecords | src/crawlers/mega645_crawler.py:43-59 | the append loop and the reversal give the kept records, newest first |
| BaseCrawler.FirstWanted | src/crawlers/lotto535_crawler.py:88-100 | the result is the position of the first record with the requested id and session, and `None` iff there is none |
| BaseCrawler.FindFirst | src/crawlers/lotto535_crawler.py:88-100 | the loop with early return yields the first wanted record, or `None` |
| BaseCrawler.FetchDraw | src/crawlers/lotto535_crawler.py:94-100 | a non-numeric id fails (ValueError); otherwise the result is the first record whose id is `str(int(draw_id))` and whose session matches |
| BaseCrawler.IdMatchesByValue | src/crawlers/mega645_crawler.py:65-70 | ids compare by value: a record with id `str(k)` matches iff the requested id parses to k ("01234" finds 1234) |
| BaseCrawler.DateRange | src/crawlers/mega645_crawler.py:72-85 | every returned record is one of the input records, falls in the inclusive window and matches the session |
| BaseCrawler.DateRangeComplete | src/crawlers/mega645_crawler.py:72-85 | on a newest-first list, stopping at the first record older than `from` loses no record of the window |
| BaseCrawler.FetchDateRange | src/crawlers/lotto535_crawler.py:102-115 | the loop with `break` computes `DateRange` |
| Mega645Crawler.BuildMeaning | src/crawlers/mega645_crawler.py:26-53 | a line yields a record iff it has ≥ 6 results, a numeric id, and its first six results distinct in [1,45]; the record has those six in ascending order, the id `str(int(id))` and no `jackpot2` |
| Mega645Crawler.FetchAllValid | src/crawlers/mega645_crawler.py:30-59 | every returned record has six ascending numbers in [1,45] and no `jackpot2` |
| Mega645Crawler.FetchAll | src/crawlers/mega645_crawler.py:30-59 | the result is the kept records, newest first |
| Mega645Crawler.FetchLatest | src/crawlers/mega645_crawler.py:61-63 | the result is the first kept record (from the last valid line of the feed), or `None` |
| Mega645Crawler.FetchDraw | src/crawlers/mega645_crawler.py:65-70 | the result is the first record whose id is `str(int(draw_id))`, or `None`; a non-numeric id fails |
| Mega645Crawler.FetchDateRange | src/crawlers/mega645_crawler.py:72-85 | the result is the records within [from, to], in order, stopping at the first older than `from` |
| Power655Crawler.BuildMeaning | src/crawlers/power655_crawler.py:26-52 | a line yields a record iff it has ≥ 7 results, a numeric id, and its first six results distinct in [1,55]; the numbers are those six, ascending; `jackpot2` is the seventh, unchecked |
| Power655Crawler.FetchAllValid | src/crawlers/power655_crawler.py:30-58 | every returned record has six ascending numbers in [1,55] and a `jackpot2` |
| Power655Crawler.FetchAll | src/crawlers/power655_crawler.py:30-58 | the result is the kept records, newest first |
| Power655Crawler.FetchLatest | src/crawlers/power655_crawler.py:60-62 | the result is the first kept record, or `None` |
| Power655Crawler.FetchDraw | src/crawlers/power655_crawler.py:64-69 | the result is the first record whose id is `str(int(draw_id))`, or `None`; a non-numeric id fails |
| Power655Crawler.FetchDateRange | src/crawlers/power655_crawler.py:71-83 | the result is the records within [from, to], in order, stopping at the first older than `from` |
| Lotto535Crawler.Validate535Meaning | src/crawlers/lotto535_crawler.py:72-86 | the check accepts iff there are exactly 5 distinct numbers in [1,35] and any special number lies in [1,12] and is none of them |
| Lotto535Crawler.BuildMeaning | src/crawlers/lotto535_crawler.py:29-64 | a line yields a record iff it has ≥ 6 results, a numeric id, and passes `_validate_535`; the session is AM iff the id is odd and the time is 13:00 iff AM (else PM at 21:00); the numbers are the first five, ascending; the special number is the sixth |
| Lotto535Crawler.FetchAllValid | src/crawlers/lotto535_crawler.py:37-70 | every returned record has five ascending numbers in [1,35], a distinct special number in [1,12], and a session |
| Lotto535Crawler.FetchAll | src/crawlers/lotto535_crawler.py:37-70 | the result is the kept records, newest first |
| Lotto535Crawler.FetchLatest | src/crawlers/lotto535_crawler.py:88-92 | the result is the first kept record of the given session (any session when none is given), or `None` |
| Lotto535Crawler.FetchDraw | src/crawlers/lotto535_crawler.py:94-100 | the result is the first record with id `str(int(draw_id))` and the given session, or `None`; a non-numeric id fails |
| Lotto535Crawler.FetchDateRange | src/crawlers/lotto535_crawler.py:102-115 | the result is the records within [from, to] of the given session, in order, stopping at the first older than `from` |
| Lotto535Crawler.FetchSession | src/crawlers/lotto535_crawler.py:117-119 | the result is the first record of that day and session, or `None`; a result has that date and session |

## Left out

- HTTP and JSON decoding are not modelled. This covers `_get` with its retries and backoff, `_sleep`, `_parse_html` and `json.loads`. Each crawler starts from the decoded list of `{id, date, result}` items. A missing `id` reads as 0.
- Dates are assumed to parse. A malformed date string raising in `strptime`, and a null entry inside `result`, are not modelled.
- `Text.ParseInt` accepts only an optional minus sign followed by digits. Python's `int()` also accepts surrounding spaces, a leading `+` and digit underscores.
- The trained networks are opaque. Keras build, fit and predict, XGBoost fit and `predict_proba`, AUC and the pickle and HDF5 file I/O are not modelled; the scorers' outputs are parameters. Of `save`/`load`, only the state-key string form is modelled.
- Floating point is not modelled: scores and weights are exact reals. `round(new_w, 3)` and `round(..., 3)` in the training log (retrain_evaluator.py:77,86) are not applied, and the 0.01 tolerance compares exact sums.
- `RetrainEvaluator.Retrain`: stores the unrounded shifted weights, whereas the source stores them rounded to 3 decimals.
- XGBoostPredictor.FeaturesOf requires hi > lo. The source divides by zero on a one-number range.
- GapAnalyzer.GapScores requires a non-zero gap sum. When every gap is 0 the source divides by zero; `EnsemblePredictor.Predicted` reports this case as a failure instead.
- PositionBias.PickBalanced requires a non-empty band list and at least n distinct candidates. With an empty band list the source's `n // len(self.bands)` divides by zero. With fewer than n distinct candidates the back-fill `while` loop can run forever; it always does unless the zone phase already holds n picks (candidates `[1, 1, 1]` with n = 3 and one band [1, 10] return `[1, 1, 1]`). The ensemble, the only caller, passes distinct candidates.
- PositionBias.ZoneDistribution, PositionBias.GetZoneDistribution and PositionBias.PositionScores require a non-empty band list. With no bands the source's `1.0 / len(self.bands)` (position_bias.py:41,50) divides by zero.
- A zone named "" is falsy in `if zone:`, so the source ignores numbers in it. The model identifies zones by position and does not model that case.
- The clock is the `now` parameter of `CompleteCycle`, `AdvanceCycle` and `CheckResult`. Cycle ids are row positions, not UUIDs.
- The store's `maybe_single` raises when several rows match. The model takes the first match and proves that `GetOrCreateCycle` and advancing keep at most one active cycle per type.
- Supabase ordering is not modelled. `get_match_results_for_cycle` orders rows by `draw_number`; the model keeps table order. The order does not change any metric computed from the rows.
- In `get_result_by_draw_id` (supabase_client.py:56-67), the session filter and a NULL `draw_session` in the upsert key are not modelled. The Lotto 5/35 session does not take part in `check_result` lookups.
- Concurrency is not modelled, including the racy read-modify-write of `increment_draws_tracked`.
- Several store calls are not modelled, because no modelled core operation uses them: `upsert_lottery_result`, `get_recent_results`, `insert_prediction` and `deactivate_old_configs`.
- The training log's `trigger_reason` text is modelled by its values (`BelowThreshold(hit_3plus, minimum)`, `ModelKept(hit_3plus)`), not its Vietnamese wording. The summary's `lottery_label` display name is dropped too.
- `_dispatch_kaggle`, `_match_icon`, logging, Telegram notifications, configuration loading, `model_loader`, `prediction_generator` and the scripts are not modelled. They are side channels, display or orchestration.
- LSTMPredictor.Predictor.GetScores returns `None` for a network output shorter than the range, where the source raises IndexError (lstm_predictor.py:134). The ensemble treats that `None` as "not ready" and falls back to the statistical scores. In the source, `predict` catches only RuntimeError, so the IndexError makes `predict` fail.
- The ensemble's `.get(num, 0)` for a scorer output shorter than the range is not modelled, because a short output is `None` in the model.
- No prize tier is computed: `check_result` stores only the matched numbers and `jackpot2`, so no tier is modelled.
- MarkovChain.Chain.GetScores returns `None` on an empty history, where the source raises IndexError while reading the newest draw.
- MarkovChain.Chain.GetScores (and `MarkovScores`) returns `None` when the smoothed denominator or the probability sum is 0, for example with smoothing 0 and a state never seen in training. The source raises ZeroDivisionError there (markov_chain.py:71,76). The ensemble treats that `None` as "not ready" and uses the uniform fallback; in the source the ZeroDivisionError is not caught by `predict`'s `except RuntimeError`, so `predict` fails instead.
- EnsemblePredictor.Ensemble.constructor requires configured weights with a non-zero sum. The source divides by zero on a zero sum; `ConfiguredWeights` returns `None` for that case.
- EnsemblePredictor.Ensemble.Predict requires n_picks ≤ hi-lo+1 and a non-empty band list. With more picks than numbers, `pick_balanced`'s back-fill never ends.
