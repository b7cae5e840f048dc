/**
 * ResultChecker: compare the active cycle's prediction with one draw,
 * record the comparison as a match row and advance the cycle.
 */
module ResultChecker {
  import opened Wrappers
  import opened Seqs
  import opened SupabaseClient
  import opened CycleManager

  /** The three early exits of `check_result`, each of which writes nothing. */
  datatype CheckError = NoActiveCycle(lotteryType: string) | NoPrediction(cycleId: nat) | DrawNotFound(drawId: string)

  /** The success dictionary `check_result` returns (the display label left aside). */
  datatype CheckReport = CheckReport(lotteryType: string, cycleNumber: int, drawId: string, drawDate: string,
                                     drawNumber: int, predictedNums: seq<int>, actualNumbers: seq<int>,
                                     jackpot2: Option<int>, matchedNumbers: seq<int>, matchedCount: nat,
                                     drawsTracked: int, cycleComplete: bool)

  /** The predicted numbers that also occur among the actual ones, in prediction order with repeats. */
  function Common(predicted: seq<int>, actual: seq<int>): (r: seq<int>)
    ensures forall x :: x in r <==> x in predicted && x in actual
  {
    if |predicted| == 0 then []
    else
      var rest := Common(predicted[1..], actual);
      assert forall x :: x in predicted <==> x == predicted[0] || x in predicted[1..];
      if predicted[0] in actual then [predicted[0]] + rest else rest
  }

  /** `sorted(set(predicted) & set(actual))`. */
  function Matched(predicted: seq<int>, actual: seq<int>): seq<int> {
    SortedSet(Common(predicted, actual))
  }

  /**
   * The matched numbers are ascending without repeats and are exactly the
   * numbers both lists contain, so their count is at most the number of
   * distinct predicted numbers and of distinct actual numbers.
   */
  lemma MatchedProperties(predicted: seq<int>, actual: seq<int>)
    ensures StrictlyAsc(Matched(predicted, actual))
    ensures forall x :: x in Matched(predicted, actual) <==> x in predicted && x in actual
    ensures |Matched(predicted, actual)| == |Elems(predicted) * Elems(actual)|
    ensures |Matched(predicted, actual)| <= |Elems(predicted)| && |Matched(predicted, actual)| <= |Elems(actual)|
  {
    var c := Common(predicted, actual);
    var m := SortedSet(c);
    forall x ensures x in m <==> x in predicted && x in actual {
      assert x in m <==> x in Elems(m);
      assert x in c <==> x in Elems(c);
    }
    assert Elems(m) == Elems(predicted) * Elems(actual);
    StrictlyAscDistinct(m);
    DistinctCardinality(m);
    SubsetCardinality(Elems(predicted) * Elems(actual), Elems(predicted));
    SubsetCardinality(Elems(predicted) * Elems(actual), Elems(actual));
  }

  lemma SubsetCardinality(a: set<int>, b: set<int>)
    requires a <= b
    ensures |a| <= |b|
  {
    assert b == a + (b - a);
  }

  /** The match row recorded for the draw: the draw's position in the cycle is the count so far plus one. */
  function MatchRowFor(cycle: Cycle, cycleId: nat, lotteryType: string, prediction: Prediction, result: DrawResult,
                       drawId: string): (row: MatchRow)
  {
    var matched := Matched(prediction.numbers, result.numbers);
    MatchRow(cycleId, lotteryType, drawId, result.drawDate, cycle.drawsTracked + 1, prediction.numbers,
             result.numbers, result.jackpot2, matched, |matched|)
  }

  /**
   * `check_result` with the clock reading `now`. Each missing piece (active
   * cycle, its prediction, the draw) ends the call with that error and
   * leaves the store as it was. Otherwise exactly one match row is upserted
   * on (cycle, draw), the cycle advances once, and the report carries the
   * comparison and the advanced cycle's count and completion.
   */
  method CheckResult(db: Database, lotteryType: string, drawId: string, now: string)
    returns (r: Result<CheckReport, CheckError>)
    modifies db
    ensures old(ActiveCycle(db.cycles, lotteryType)).None? ==>
      r == Failure(NoActiveCycle(lotteryType)) && unchanged(db)
    ensures old(ActiveCycle(db.cycles, lotteryType)).Some? ==>
      var cid := old(ActiveCycle(db.cycles, lotteryType)).value;
      && (old(PredictionFor(db.predictions, cid)).None? ==> r == Failure(NoPrediction(cid)) && unchanged(db))
      && (old(PredictionFor(db.predictions, cid)).Some? && old(ResultByDrawId(db.results, lotteryType, drawId)).None? ==>
            r == Failure(DrawNotFound(drawId)) && unchanged(db))
    ensures r.Success? ==>
      && old(ActiveCycle(db.cycles, lotteryType)).Some?
      && var cid := old(ActiveCycle(db.cycles, lotteryType)).value;
      && old(PredictionFor(db.predictions, cid)).Some?
      && old(ResultByDrawId(db.results, lotteryType, drawId)).Some?
      && var prediction := old(db.predictions[PredictionFor(db.predictions, cid).value]);
      var result := old(db.results[ResultByDrawId(db.results, lotteryType, drawId).value]);
      var row := MatchRowFor(old(db.cycles[cid]), cid, lotteryType, prediction, result, drawId);
      && db.matches == UpsertMatch(old(db.matches), row)
      && db.cycles == Advanced(old(db.cycles), cid, lotteryType, now)
      && r.value == CheckReport(lotteryType, old(db.cycles[cid].cycleNumber), drawId, result.drawDate,
                                row.drawNumber, prediction.numbers, result.numbers, result.jackpot2,
                                row.matchedNumbers, row.matchedCount, db.cycles[cid].drawsTracked,
                                db.cycles[cid].status == Completed)
    ensures r.Success? && AtMostOneActive(old(db.cycles)) ==>
      var cid := old(ActiveCycle(db.cycles, lotteryType)).value;
      && r.value.drawsTracked == r.value.drawNumber
      && (r.value.cycleComplete <==> r.value.drawNumber >= old(db.cycles[cid].maxDraws))
    ensures db.results == old(db.results) && db.predictions == old(db.predictions)
    ensures db.configs == old(db.configs) && db.logs == old(db.logs)
  {
    var active := ActiveCycle(db.cycles, lotteryType);
    if active.None? {
      return Failure(NoActiveCycle(lotteryType));
    }
    var cid := active.value;
    var cycle := db.cycles[cid];
    var p := PredictionFor(db.predictions, cid);
    if p.None? {
      return Failure(NoPrediction(cid));
    }
    var prediction := db.predictions[p.value];
    var found := ResultByDrawId(db.results, lotteryType, drawId);
    if found.None? {
      return Failure(DrawNotFound(drawId));
    }
    var result := db.results[found.value];
    var matched := Matched(prediction.numbers, result.numbers);
    var matchedCount := |matched|;
    var drawNumber := cycle.drawsTracked + 1;
    db.InsertMatchResult(MatchRow(cid, lotteryType, drawId, result.drawDate, drawNumber, prediction.numbers,
                                  result.numbers, result.jackpot2, matched, matchedCount));
    ghost var before := db.cycles;
    if AtMostOneActive(before) {
      AdvanceStep(before, cid, now);
    }
    var updated := AdvanceCycle(db, cid, lotteryType, now);
    r := Success(CheckReport(lotteryType, cycle.cycleNumber, drawId, result.drawDate, drawNumber,
                             prediction.numbers, result.numbers, result.jackpot2, matched, matchedCount,
                             updated.drawsTracked, updated.status == Completed));
  }
}
