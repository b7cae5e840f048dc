/**
 * CycleManager: a prediction cycle is created active with nothing tracked,
 * advanced once per checked draw, and completed when its count reaches the
 * draw limit. A new cycle tracks 5 draws, or only 3 when the previous cycle
 * had no draw with three or more matches.
 */
module CycleManager {
  import opened Wrappers
  import opened SupabaseClient

  const DefaultMaxDraws: int := 5
  const ShortMaxDraws: int := 3
  /** A draw counts as a hit when it matched at least this many numbers. */
  const HitThreshold: int := 3

  /** The `matched_count` of each row, in order. */
  function MatchedCounts(rows: seq<MatchRow>): (counts: seq<int>)
    ensures |counts| == |rows|
    ensures forall i | 0 <= i < |rows| :: counts[i] == rows[i].matchedCount
  {
    seq(|rows|, i requires 0 <= i < |rows| => rows[i].matchedCount)
  }

  /** How many counts are at least k: `sum(1 for c in counts if c >= k)`. */
  function CountAtLeast(counts: seq<int>, k: int): (n: nat)
    ensures n <= |counts|
  {
    if |counts| == 0 then 0
    else CountAtLeast(counts[..|counts| - 1], k) + (if counts[|counts| - 1] >= k then 1 else 0)
  }

  /** The count is zero exactly when no entry reaches k. */
  lemma {:induction false} CountAtLeastZero(counts: seq<int>, k: int)
    ensures CountAtLeast(counts, k) == 0 <==> forall i | 0 <= i < |counts| :: counts[i] < k
  {
    if |counts| > 0 {
      var init := counts[..|counts| - 1];
      CountAtLeastZero(init, k);
      assert forall i | 0 <= i < |init| :: init[i] == counts[i];
    }
  }

  /** A higher bar never counts more entries. */
  lemma {:induction false} CountAtLeastAntitone(counts: seq<int>, j: int, k: int)
    requires j <= k
    ensures CountAtLeast(counts, k) <= CountAtLeast(counts, j)
  {
    if |counts| > 0 {
      CountAtLeastAntitone(counts[..|counts| - 1], j, k);
    }
  }

  /** The draw limit of the cycle `get_or_create_cycle` would create now. */
  function NewCycleMaxDraws(cycles: seq<Cycle>, matches: seq<MatchRow>, lotteryType: string): int {
    var n := NextCycleNumber(cycles, lotteryType);
    if n > 1 then
      match CycleByNumber(cycles, lotteryType, n - 1)
      case None => DefaultMaxDraws
      case Some(prev) =>
        if CountAtLeast(MatchedCounts(MatchRowsFor(matches, prev)), HitThreshold) >= 1 then DefaultMaxDraws else ShortMaxDraws
    else DefaultMaxDraws
  }

  /**
   * A new cycle is limited to 3 draws exactly when the cycle numbered just
   * below it exists and none of its match rows matched 3 or more numbers;
   * otherwise to 5.
   */
  lemma NewCycleMaxDrawsCases(cycles: seq<Cycle>, matches: seq<MatchRow>, lotteryType: string)
    ensures var m := NewCycleMaxDraws(cycles, matches, lotteryType);
      var n := NextCycleNumber(cycles, lotteryType);
      var prev := CycleByNumber(cycles, lotteryType, n - 1);
      && (m == ShortMaxDraws || m == DefaultMaxDraws)
      && (m == ShortMaxDraws <==> n > 1 && prev.Some? && NoHits(matches, prev.value))
  {
    var m := NewCycleMaxDraws(cycles, matches, lotteryType);
    var n := NextCycleNumber(cycles, lotteryType);
    var prev := CycleByNumber(cycles, lotteryType, n - 1);
    if n > 1 && prev.Some? {
      var hits := CountAtLeast(MatchedCounts(MatchRowsFor(matches, prev.value)), HitThreshold);
      assert m == if hits >= 1 then DefaultMaxDraws else ShortMaxDraws;
      NoHitsCount(matches, prev.value);
    } else {
      assert m == DefaultMaxDraws;
    }
  }

  /** No match row of the cycle matched 3 or more numbers. */
  predicate NoHits(matches: seq<MatchRow>, cycleId: nat) {
    forall row | row in matches && row.cycleId == cycleId :: row.matchedCount < HitThreshold
  }

  lemma NoHitsCount(matches: seq<MatchRow>, cycleId: nat)
    ensures CountAtLeast(MatchedCounts(MatchRowsFor(matches, cycleId)), HitThreshold) == 0 <==> NoHits(matches, cycleId)
  {
    var rows := MatchRowsFor(matches, cycleId);
    var counts := MatchedCounts(rows);
    CountAtLeastZero(counts, HitThreshold);
    if NoHits(matches, cycleId) {
      forall i | 0 <= i < |counts| ensures counts[i] < HitThreshold {
        assert rows[i] in rows;
      }
    } else {
      var row :| row in matches && row.cycleId == cycleId && row.matchedCount >= HitThreshold;
      assert row in rows;
      var i :| 0 <= i < |rows| && rows[i] == row;
      assert counts[i] >= HitThreshold;
    }
  }

  /** The draw limit `advance_cycle` reads: that of the type's active cycle, or 5 if it has none. */
  function AdvanceLimit(cycles: seq<Cycle>, lotteryType: string): int {
    match ActiveCycle(cycles, lotteryType)
    case Some(a) => cycles[a].maxDraws
    case None => DefaultMaxDraws
  }

  /** The cycles table after `advance_cycle(id, lotteryType)` with the clock reading `now`. */
  function Advanced(cycles: seq<Cycle>, id: nat, lotteryType: string, now: string): (r: seq<Cycle>)
    requires id < |cycles|
    ensures |r| == |cycles|
  {
    var inc := cycles[id].(drawsTracked := cycles[id].drawsTracked + 1);
    var after := cycles[id := inc];
    if inc.drawsTracked >= AdvanceLimit(after, lotteryType) then after[id := inc.(status := Completed, completedAt := Some(now))]
    else after
  }

  /** `is_cycle_complete`: the count has reached the limit or the status says completed. */
  predicate IsCycleComplete(c: Cycle) {
    c.drawsTracked >= c.maxDraws || c.status == Completed
  }

  /** Advancing only raises one count and may retire one cycle, so the one-active-cycle invariant survives. */
  lemma AdvancedKeepsOneActive(cycles: seq<Cycle>, id: nat, lotteryType: string, now: string)
    requires id < |cycles| && AtMostOneActive(cycles)
    ensures AtMostOneActive(Advanced(cycles, id, lotteryType, now))
  {
    var r := Advanced(cycles, id, lotteryType, now);
    assert forall i | 0 <= i < |cycles| :: r[i].lotteryType == cycles[i].lotteryType && (r[i].status == Active ==> cycles[i].status == Active);
  }

  /**
   * Advancing the unique active cycle of its type raises its count by one
   * and completes it exactly when the new count reaches its own limit; no
   * other cycle changes, and afterwards the cycle reports complete exactly
   * when its status is completed.
   */
  lemma AdvanceStep(cycles: seq<Cycle>, id: nat, now: string)
    requires AtMostOneActive(cycles)
    requires id < |cycles| && cycles[id].status == Active
    ensures var c := Advanced(cycles, id, cycles[id].lotteryType, now)[id];
      && c.drawsTracked == cycles[id].drawsTracked + 1
      && c.maxDraws == cycles[id].maxDraws && c.lotteryType == cycles[id].lotteryType
      && (c.status == Completed <==> cycles[id].drawsTracked + 1 >= cycles[id].maxDraws)
      && (IsCycleComplete(c) <==> c.status == Completed)
    ensures forall i | 0 <= i < |cycles| && i != id :: Advanced(cycles, id, cycles[id].lotteryType, now)[i] == cycles[i]
  {
    var inc := cycles[id].(drawsTracked := cycles[id].drawsTracked + 1);
    var after := cycles[id := inc];
    assert AtMostOneActive(after) by {
      assert forall i | 0 <= i < |cycles| :: after[i].lotteryType == cycles[i].lotteryType && after[i].status == cycles[i].status;
    }
    ActiveCycleUnique(after, id);
  }

  /** The cycles table after k advances of the same cycle. */
  function AdvancedTimes(cycles: seq<Cycle>, id: nat, lotteryType: string, now: string, k: nat): (r: seq<Cycle>)
    requires id < |cycles|
    ensures |r| == |cycles|
  {
    if k == 0 then cycles else Advanced(AdvancedTimes(cycles, id, lotteryType, now, k - 1), id, lotteryType, now)
  }

  /**
   * From an active cycle with count d below its limit m, k <= m - d advances
   * give count d + k, and the cycle is completed exactly after the advance
   * that reaches m.
   */
  lemma {:induction false} AdvancedTimesEffect(cycles: seq<Cycle>, id: nat, now: string, k: nat)
    requires AtMostOneActive(cycles)
    requires id < |cycles| && cycles[id].status == Active
    requires cycles[id].drawsTracked < cycles[id].maxDraws
    requires k <= cycles[id].maxDraws - cycles[id].drawsTracked
    ensures var c := AdvancedTimes(cycles, id, cycles[id].lotteryType, now, k)[id];
      && c.drawsTracked == cycles[id].drawsTracked + k
      && c.maxDraws == cycles[id].maxDraws && c.lotteryType == cycles[id].lotteryType
      && (c.status == Completed <==> cycles[id].drawsTracked + k == cycles[id].maxDraws)
      && (c.status == Active <==> cycles[id].drawsTracked + k < cycles[id].maxDraws)
    ensures AtMostOneActive(AdvancedTimes(cycles, id, cycles[id].lotteryType, now, k))
  {
    if k > 0 {
      var t := cycles[id].lotteryType;
      AdvancedTimesEffect(cycles, id, now, k - 1);
      var prev := AdvancedTimes(cycles, id, t, now, k - 1);
      AdvanceStep(prev, id, now);
      AdvancedKeepsOneActive(prev, id, t, now);
    }
  }

  /** A fresh five-draw cycle stays active through four advances and is completed by the fifth. */
  lemma FifthAdvanceCompletes(cycles: seq<Cycle>, id: nat, now: string)
    requires AtMostOneActive(cycles)
    requires id < |cycles| && cycles[id].status == Active
    requires cycles[id].drawsTracked == 0 && cycles[id].maxDraws == DefaultMaxDraws
    ensures forall k | 1 <= k < 5 :: AdvancedTimes(cycles, id, cycles[id].lotteryType, now, k)[id].status == Active
    ensures AdvancedTimes(cycles, id, cycles[id].lotteryType, now, 5)[id].status == Completed
    ensures AdvancedTimes(cycles, id, cycles[id].lotteryType, now, 5)[id].drawsTracked == 5
  {
    forall k | 1 <= k < 5 ensures AdvancedTimes(cycles, id, cycles[id].lotteryType, now, k)[id].status == Active {
      AdvancedTimesEffect(cycles, id, now, k);
    }
    AdvancedTimesEffect(cycles, id, now, 5);
  }

  /**
   * `get_or_create_cycle`: the type's active cycle is returned untouched;
   * otherwise a new active cycle is created with the next number, nothing
   * tracked, and the limit `NewCycleMaxDraws` gives. The one-active-cycle
   * invariant is kept.
   */
  method GetOrCreateCycle(db: Database, lotteryType: string, modelVersion: string) returns (id: nat)
    modifies db
    ensures id < |db.cycles| && db.cycles[id].lotteryType == lotteryType && db.cycles[id].status == Active
    ensures old(ActiveCycle(db.cycles, lotteryType)).Some? ==>
      id == old(ActiveCycle(db.cycles, lotteryType)).value && db.cycles == old(db.cycles)
    ensures old(ActiveCycle(db.cycles, lotteryType)).None? ==>
      id == old(|db.cycles|) &&
      db.cycles == old(db.cycles) + [Cycle(lotteryType, NextCycleNumber(old(db.cycles), lotteryType), Active, 0,
                                           NewCycleMaxDraws(old(db.cycles), old(db.matches), lotteryType), modelVersion, None)]
    ensures db.results == old(db.results) && db.predictions == old(db.predictions) && db.matches == old(db.matches)
    ensures db.configs == old(db.configs) && db.logs == old(db.logs)
    ensures AtMostOneActive(old(db.cycles)) ==> AtMostOneActive(db.cycles)
  {
    var active := ActiveCycle(db.cycles, lotteryType);
    if active.Some? {
      return active.value;
    }
    var cycleNumber := NextCycleNumber(db.cycles, lotteryType);
    var maxDraws := DefaultMaxDraws;
    if cycleNumber > 1 {
      var prev := CycleByNumber(db.cycles, lotteryType, cycleNumber - 1);
      if prev.Some? {
        var rows := MatchRowsFor(db.matches, prev.value);
        var hits := CountAtLeast(MatchedCounts(rows), HitThreshold);
        maxDraws := if hits >= 1 then DefaultMaxDraws else ShortMaxDraws;
      }
    }
    assert maxDraws == NewCycleMaxDraws(db.cycles, db.matches, lotteryType);
    ghost var before := db.cycles;
    id := db.CreatePredictionCycle(lotteryType, cycleNumber, modelVersion, maxDraws);
    if AtMostOneActive(before) {
      AppendKeepsOneActive(before, db.cycles[id]);
    }
  }

  /** Adding an active cycle for a type with no active cycle keeps the one-active-cycle invariant. */
  lemma AppendKeepsOneActive(cycles: seq<Cycle>, c: Cycle)
    requires AtMostOneActive(cycles)
    requires ActiveCycle(cycles, c.lotteryType).None?
    ensures AtMostOneActive(cycles + [c])
  {
    var r := cycles + [c];
    assert forall i | 0 <= i < |cycles| :: r[i] == cycles[i];
  }

  /**
   * `advance_cycle`: raise the cycle's count by one, then complete it with
   * the clock reading `now` when the new count reaches the limit of the
   * type's active cycle (5 when there is none). Returns the cycle's row.
   */
  method AdvanceCycle(db: Database, id: nat, lotteryType: string, now: string) returns (c: Cycle)
    requires id < |db.cycles|
    modifies db
    ensures db.cycles == Advanced(old(db.cycles), id, lotteryType, now)
    ensures c == db.cycles[id]
    ensures db.results == old(db.results) && db.predictions == old(db.predictions) && db.matches == old(db.matches)
    ensures db.configs == old(db.configs) && db.logs == old(db.logs)
  {
    var updated := db.IncrementDrawsTracked(id);
    var maxDraws := AdvanceLimit(db.cycles, lotteryType);
    if updated.drawsTracked >= maxDraws {
      c := db.CompleteCycle(id, now);
      return;
    }
    c := updated;
  }
}
