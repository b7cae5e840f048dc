/**
 * SupabaseClient: the pipeline's tables as an in-memory store. Each table is
 * a sequence of rows and a row's id is its position in its table. Queries are
 * functions of the tables; writes are methods of `Database` that reassign one
 * table and leave the others alone.
 */
module SupabaseClient {
  import opened Wrappers
  import opened EnsemblePredictor

  datatype CycleStatus = Active | Completed

  /** A `prediction_cycles` row. */
  datatype Cycle = Cycle(lotteryType: string, cycleNumber: int, status: CycleStatus, drawsTracked: int,
                         maxDraws: int, modelVersion: string, completedAt: Option<string>)

  /** A `predictions` row: the numbers issued for a cycle. */
  datatype Prediction = Prediction(cycleId: nat, lotteryType: string, numbers: seq<int>)

  /** A `lottery_results` row, as far as the checker reads it. */
  datatype DrawResult = DrawResult(lotteryType: string, drawId: string, drawDate: string,
                                   numbers: seq<int>, jackpot2: Option<int>)

  /** A `match_results` row: one draw compared with a cycle's prediction. */
  datatype MatchRow = MatchRow(cycleId: nat, lotteryType: string, drawId: string, drawDate: string,
                               drawNumber: int, predictedNums: seq<int>, actualNumbers: seq<int>,
                               jackpot2: Option<int>, matchedNumbers: seq<int>, matchedCount: int)

  /** A `model_configs` row. */
  datatype ModelConfig = ModelConfig(lotteryType: string, modelName: string, isActive: bool, ensembleWeight: real)

  /** The text of `trigger_reason`, kept as the values it is rendered from. */
  datatype TriggerReason = BelowThreshold(hits: nat, threshold: int) | ModelKept(hits: nat)

  datatype TrainingStatus = Triggered | Skipped

  /** A `model_training_logs` row; the skip branch records no weights. */
  datatype TrainingLog = TrainingLog(lotteryType: string, reason: TriggerReason, oldWeights: Option<Weights>,
                                     newWeights: Option<Weights>, hit3Plus: nat, maxMatch: int,
                                     status: TrainingStatus)

  // ---- prediction_cycles queries ----

  /** The first cycle of the lottery type with status active, if any. */
  function ActiveCycle(cycles: seq<Cycle>, lotteryType: string): (r: Option<nat>)
    ensures r.Some? ==> r.value < |cycles| && cycles[r.value].lotteryType == lotteryType && cycles[r.value].status == Active
    ensures r.None? <==> forall i | 0 <= i < |cycles| :: !(cycles[i].lotteryType == lotteryType && cycles[i].status == Active)
  {
    if |cycles| == 0 then None
    else if cycles[0].lotteryType == lotteryType && cycles[0].status == Active then Some(0)
    else match ActiveCycle(cycles[1..], lotteryType)
      case None => None
      case Some(i) => Some(i + 1)
  }

  /** At most one active cycle per lottery type: what `maybe_single` in `get_active_cycle` relies on. */
  predicate AtMostOneActive(cycles: seq<Cycle>) {
    forall i, j | 0 <= i < j < |cycles| ::
      cycles[i].status == Active && cycles[j].status == Active ==> cycles[i].lotteryType != cycles[j].lotteryType
  }

  /** Under the invariant, the active cycle found is the only one of its type. */
  lemma ActiveCycleUnique(cycles: seq<Cycle>, id: nat)
    requires AtMostOneActive(cycles)
    requires id < |cycles| && cycles[id].status == Active
    ensures ActiveCycle(cycles, cycles[id].lotteryType) == Some(id)
  {
    var r := ActiveCycle(cycles, cycles[id].lotteryType);
    assert r.Some?;
  }

  /** The first cycle of the lottery type with the given number, if any. */
  function CycleByNumber(cycles: seq<Cycle>, lotteryType: string, cycleNumber: int): (r: Option<nat>)
    ensures r.Some? ==> r.value < |cycles| && cycles[r.value].lotteryType == lotteryType && cycles[r.value].cycleNumber == cycleNumber
    ensures r.None? <==> forall i | 0 <= i < |cycles| :: !(cycles[i].lotteryType == lotteryType && cycles[i].cycleNumber == cycleNumber)
  {
    if |cycles| == 0 then None
    else if cycles[0].lotteryType == lotteryType && cycles[0].cycleNumber == cycleNumber then Some(0)
    else match CycleByNumber(cycles[1..], lotteryType, cycleNumber)
      case None => None
      case Some(i) => Some(i + 1)
  }

  /** The highest cycle number of the lottery type, if it has any cycle. */
  function HighestCycleNumber(cycles: seq<Cycle>, lotteryType: string): (r: Option<int>)
    ensures r.None? <==> forall i | 0 <= i < |cycles| :: cycles[i].lotteryType != lotteryType
    ensures r.Some? ==> (exists i | 0 <= i < |cycles| :: cycles[i].lotteryType == lotteryType && cycles[i].cycleNumber == r.value)
    ensures r.Some? ==> forall i | 0 <= i < |cycles| && cycles[i].lotteryType == lotteryType :: cycles[i].cycleNumber <= r.value
  {
    if |cycles| == 0 then None
    else
      var rest := HighestCycleNumber(cycles[1..], lotteryType);
      assert forall i | 1 <= i < |cycles| :: cycles[i] == cycles[1..][i - 1];
      if cycles[0].lotteryType != lotteryType then rest
      else if rest.Some? && rest.value > cycles[0].cycleNumber then rest
      else Some(cycles[0].cycleNumber)
  }

  /** `get_next_cycle_number`: one above the highest number of the type, or 1 for its first cycle. */
  function NextCycleNumber(cycles: seq<Cycle>, lotteryType: string): (n: int)
    ensures (forall i | 0 <= i < |cycles| :: cycles[i].lotteryType != lotteryType) ==> n == 1
    ensures forall i | 0 <= i < |cycles| && cycles[i].lotteryType == lotteryType :: cycles[i].cycleNumber < n
    ensures (exists i | 0 <= i < |cycles| :: cycles[i].lotteryType == lotteryType) ==>
      exists i | 0 <= i < |cycles| :: cycles[i].lotteryType == lotteryType && cycles[i].cycleNumber == n - 1
  {
    match HighestCycleNumber(cycles, lotteryType)
    case None => 1
    case Some(h) => h + 1
  }

  // ---- predictions, lottery_results, match_results, model_configs queries ----

  /** The first prediction issued for the cycle, if any. */
  function PredictionFor(predictions: seq<Prediction>, cycleId: nat): (r: Option<nat>)
    ensures r.Some? ==> r.value < |predictions| && predictions[r.value].cycleId == cycleId
    ensures r.None? <==> forall i | 0 <= i < |predictions| :: predictions[i].cycleId != cycleId
  {
    if |predictions| == 0 then None
    else if predictions[0].cycleId == cycleId then Some(0)
    else match PredictionFor(predictions[1..], cycleId)
      case None => None
      case Some(i) => Some(i + 1)
  }

  /** `get_result_by_draw_id` without a session filter: the first result of the type with that id, if any. */
  function ResultByDrawId(results: seq<DrawResult>, lotteryType: string, drawId: string): (r: Option<nat>)
    ensures r.Some? ==> r.value < |results| && results[r.value].lotteryType == lotteryType && results[r.value].drawId == drawId
    ensures r.None? <==> forall i | 0 <= i < |results| :: !(results[i].lotteryType == lotteryType && results[i].drawId == drawId)
  {
    if |results| == 0 then None
    else if results[0].lotteryType == lotteryType && results[0].drawId == drawId then Some(0)
    else match ResultByDrawId(results[1..], lotteryType, drawId)
      case None => None
      case Some(i) => Some(i + 1)
  }

  /** `get_match_results_for_cycle`: the cycle's match rows, in table order. */
  function MatchRowsFor(matches: seq<MatchRow>, cycleId: nat): (r: seq<MatchRow>)
    ensures forall row | row in r :: row in matches && row.cycleId == cycleId
    ensures forall row | row in matches && row.cycleId == cycleId :: row in r
  {
    if |matches| == 0 then []
    else
      var rest := MatchRowsFor(matches[1..], cycleId);
      if matches[0].cycleId == cycleId then [matches[0]] + rest else rest
  }

  /** `get_active_model_configs`: the ids of the type's active configs, in table order. */
  function ActiveConfigs(configs: seq<ModelConfig>, lotteryType: string): (r: seq<nat>)
    ensures forall k | 0 <= k < |r| :: r[k] < |configs| && configs[r[k]].lotteryType == lotteryType && configs[r[k]].isActive
    ensures forall i | 0 <= i < |configs| && configs[i].lotteryType == lotteryType && configs[i].isActive :: i in r
  {
    ActiveConfigsFrom(configs, lotteryType, 0)
  }

  function ActiveConfigsFrom(configs: seq<ModelConfig>, lotteryType: string, from: nat): (r: seq<nat>)
    requires from <= |configs|
    ensures forall k | 0 <= k < |r| :: from <= r[k] < |configs| && configs[r[k]].lotteryType == lotteryType && configs[r[k]].isActive
    ensures forall i | from <= i < |configs| && configs[i].lotteryType == lotteryType && configs[i].isActive :: i in r
    decreases |configs| - from
  {
    if from == |configs| then []
    else
      var rest := ActiveConfigsFrom(configs, lotteryType, from + 1);
      if configs[from].lotteryType == lotteryType && configs[from].isActive then [from] + rest else rest
  }

  // ---- match_results upsert ----

  /** Position of the row with the same (cycle, draw) key, if any. */
  function MatchKeyIndex(matches: seq<MatchRow>, cycleId: nat, drawId: string): (r: Option<nat>)
    ensures r.Some? ==> r.value < |matches| && matches[r.value].cycleId == cycleId && matches[r.value].drawId == drawId
    ensures r.None? <==> forall i | 0 <= i < |matches| :: !(matches[i].cycleId == cycleId && matches[i].drawId == drawId)
  {
    if |matches| == 0 then None
    else if matches[0].cycleId == cycleId && matches[0].drawId == drawId then Some(0)
    else match MatchKeyIndex(matches[1..], cycleId, drawId)
      case None => None
      case Some(i) => Some(i + 1)
  }

  /** `insert_match_result`: replace the row with the same (cycle, draw) key, or append a new one. */
  function UpsertMatch(matches: seq<MatchRow>, row: MatchRow): seq<MatchRow> {
    match MatchKeyIndex(matches, row.cycleId, row.drawId)
    case Some(i) => matches[i := row]
    case None => matches + [row]
  }

  /**
   * After an upsert the row is stored, the table grows by one exactly when
   * the key was new, every row with another key is kept, and upserting the
   * same row again changes nothing.
   */
  lemma UpsertMatchProperties(matches: seq<MatchRow>, row: MatchRow)
    ensures row in UpsertMatch(matches, row)
    ensures |UpsertMatch(matches, row)| == |matches| + (if MatchKeyIndex(matches, row.cycleId, row.drawId).None? then 1 else 0)
    ensures forall r | r in matches && (r.cycleId != row.cycleId || r.drawId != row.drawId) :: r in UpsertMatch(matches, row)
    ensures UpsertMatch(UpsertMatch(matches, row), row) == UpsertMatch(matches, row)
  {
    var once := UpsertMatch(matches, row);
    match MatchKeyIndex(matches, row.cycleId, row.drawId)
    case Some(i) =>
      forall r | r in matches && (r.cycleId != row.cycleId || r.drawId != row.drawId) ensures r in once {
        var k :| 0 <= k < |matches| && matches[k] == r;
        assert once[k] == r;
      }
      assert MatchKeyIndex(once, row.cycleId, row.drawId) == Some(i) by {
        FirstKeyStays(matches, i, row);
      }
    case None =>
      assert once[|matches|] == row;
      forall r | r in matches ensures r in once {
        var k :| 0 <= k < |matches| && matches[k] == r;
        assert once[k] == r;
      }
      assert MatchKeyIndex(once, row.cycleId, row.drawId) == Some(|matches|) by {
        AppendedKeyFound(matches, row);
      }
  }

  lemma {:induction false} FirstKeyStays(matches: seq<MatchRow>, i: nat, row: MatchRow)
    requires MatchKeyIndex(matches, row.cycleId, row.drawId) == Some(i)
    ensures MatchKeyIndex(matches[i := row], row.cycleId, row.drawId) == Some(i)
  {
    if i > 0 {
      assert matches[i := row][1..] == matches[1..][i - 1 := row];
      FirstKeyStays(matches[1..], i - 1, row);
    }
  }

  lemma {:induction false} AppendedKeyFound(matches: seq<MatchRow>, row: MatchRow)
    requires MatchKeyIndex(matches, row.cycleId, row.drawId).None?
    ensures MatchKeyIndex(matches + [row], row.cycleId, row.drawId) == Some(|matches|)
  {
    if |matches| > 0 {
      assert (matches + [row])[1..] == matches[1..] + [row];
      AppendedKeyFound(matches[1..], row);
    }
  }

  /** The store: one table per field. */
  class Database {
    var results: seq<DrawResult>
    var cycles: seq<Cycle>
    var predictions: seq<Prediction>
    var matches: seq<MatchRow>
    var configs: seq<ModelConfig>
    var logs: seq<TrainingLog>

    constructor(results: seq<DrawResult>, cycles: seq<Cycle>, predictions: seq<Prediction>,
                matches: seq<MatchRow>, configs: seq<ModelConfig>, logs: seq<TrainingLog>)
      ensures this.results == results && this.cycles == cycles && this.predictions == predictions
      ensures this.matches == matches && this.configs == configs && this.logs == logs
    {
      this.results := results;
      this.cycles := cycles;
      this.predictions := predictions;
      this.matches := matches;
      this.configs := configs;
      this.logs := logs;
    }

    /** `create_prediction_cycle`: a new active cycle with nothing tracked yet; its id is returned. */
    method CreatePredictionCycle(lotteryType: string, cycleNumber: int, modelVersion: string, maxDraws: int)
      returns (id: nat)
      modifies this
      ensures id == old(|cycles|)
      ensures cycles == old(cycles) + [Cycle(lotteryType, cycleNumber, Active, 0, maxDraws, modelVersion, None)]
      ensures results == old(results) && predictions == old(predictions) && matches == old(matches)
      ensures configs == old(configs) && logs == old(logs)
    {
      id := |cycles|;
      cycles := cycles + [Cycle(lotteryType, cycleNumber, Active, 0, maxDraws, modelVersion, None)];
    }

    /** `increment_draws_tracked`: the cycle's count goes up by one; the updated row is returned. */
    method IncrementDrawsTracked(id: nat) returns (updated: Cycle)
      requires id < |cycles|
      modifies this
      ensures updated == old(cycles[id]).(drawsTracked := old(cycles[id].drawsTracked) + 1)
      ensures cycles == old(cycles)[id := updated]
      ensures results == old(results) && predictions == old(predictions) && matches == old(matches)
      ensures configs == old(configs) && logs == old(logs)
    {
      updated := cycles[id].(drawsTracked := cycles[id].drawsTracked + 1);
      cycles := cycles[id := updated];
    }

    /** `complete_cycle`: status completed, stamped with the clock reading `now`. */
    method CompleteCycle(id: nat, now: string) returns (completed: Cycle)
      requires id < |cycles|
      modifies this
      ensures completed == old(cycles[id]).(status := Completed, completedAt := Some(now))
      ensures cycles == old(cycles)[id := completed]
      ensures results == old(results) && predictions == old(predictions) && matches == old(matches)
      ensures configs == old(configs) && logs == old(logs)
    {
      completed := cycles[id].(status := Completed, completedAt := Some(now));
      cycles := cycles[id := completed];
    }

    /** `insert_match_result`: upsert on the (cycle, draw) key. */
    method InsertMatchResult(row: MatchRow)
      modifies this
      ensures matches == UpsertMatch(old(matches), row)
      ensures results == old(results) && cycles == old(cycles) && predictions == old(predictions)
      ensures configs == old(configs) && logs == old(logs)
    {
      var k := MatchKeyIndex(matches, row.cycleId, row.drawId);
      if k.Some? {
        matches := matches[k.value := row];
      } else {
        matches := matches + [row];
      }
    }

    /** `update_model_weight`: only that config's weight changes. */
    method UpdateModelWeight(id: nat, newWeight: real)
      requires id < |configs|
      modifies this
      ensures configs == old(configs)[id := old(configs[id]).(ensembleWeight := newWeight)]
      ensures results == old(results) && cycles == old(cycles) && predictions == old(predictions)
      ensures matches == old(matches) && logs == old(logs)
    {
      configs := configs[id := configs[id].(ensembleWeight := newWeight)];
    }

    /** `insert_training_log`: append one log row. */
    method InsertTrainingLog(entry: TrainingLog)
      modifies this
      ensures logs == old(logs) + [entry]
      ensures results == old(results) && cycles == old(cycles) && predictions == old(predictions)
      ensures matches == old(matches) && configs == old(configs)
    {
      logs := logs + [entry];
    }
  }
}
