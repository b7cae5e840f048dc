/**
 * FrequencyAnalyzer: scores each number by how often it appears in the most
 * recent `window` draws (newest first), each draw weighted by
 * `weight_recency ** draw_idx`, then divides by the largest score.
 */
module FrequencyAnalyzer {
  import opened Seqs
  import opened ScoreMaps

  /** `scores[num] += w` for each of the first `upTo` numbers of `draw` inside the range, counting repeats. */
  function AddDraw(scores: seq<real>, lo: int, draw: seq<int>, w: real, upTo: nat): (r: seq<real>)
    requires upTo <= |draw|
    ensures |r| == |scores|
  {
    if upTo == 0 then scores
    else
      var t := AddDraw(scores, lo, draw, w, upTo - 1);
      var num := draw[upTo - 1];
      if lo <= num < lo + |t| then t[num - lo := t[num - lo] + w] else t
  }

  /** The raw score table after the first `upTo` draws: every in-range occurrence adds its draw's weight. */
  function RawFrequency(lo: int, count: nat, recent: seq<seq<int>>, gamma: real, upTo: nat): (r: seq<real>)
    requires upTo <= |recent|
    ensures |r| == count
  {
    if upTo == 0 then seq(count, _ => 0.0)
    else
      var k := upTo - 1;
      AddDraw(RawFrequency(lo, count, recent, gamma, k), lo, recent[k], Pow(gamma, k), |recent[k]|)
  }

  /** `w * c`, written as the c-fold sum of w. */
  function Scale(w: real, c: nat): real {
    if c == 0 then 0.0 else Scale(w, c - 1) + w
  }

  /** The c-fold sum is the product. */
  lemma {:induction false} ScaleIsProduct(w: real, c: nat)
    ensures Scale(w, c) == w * c as real
  {
    if c > 0 {
      ScaleIsProduct(w, c - 1);
      MulSucc(w, c - 1);
    }
  }

  lemma MulSucc(w: real, c: nat)
    ensures w * (c + 1) as real == w * c as real + w
  {
  }

  /** A non-negative weight scales to a non-negative sum, and a positive one taken at least once to a positive sum. */
  lemma {:induction false} ScaleSign(w: real, c: nat)
    requires w >= 0.0
    ensures Scale(w, c) >= 0.0
    ensures w > 0.0 && c > 0 ==> Scale(w, c) > 0.0
  {
    if c > 0 {
      ScaleSign(w, c - 1);
    }
  }

  /** Reference definition: the sum over the first `upTo` draws of `gamma ** idx` times the occurrences of n in draw idx. */
  function WeightedCount(recent: seq<seq<int>>, n: int, gamma: real, upTo: nat): real
    requires upTo <= |recent|
  {
    if upTo == 0 then 0.0
    else
      var k := upTo - 1;
      WeightedCount(recent, n, gamma, k) + Scale(Pow(gamma, k), multiset(recent[k])[n])
  }

  /** The weight `w` summed once for each of the first `upTo` numbers of `draw` equal to n. */
  function WeightedHits(draw: seq<int>, n: int, w: real, upTo: nat): real
    requires upTo <= |draw|
  {
    if upTo == 0 then 0.0
    else WeightedHits(draw, n, w, upTo - 1) + (if draw[upTo - 1] == n then w else 0.0)
  }

  /** How often n occurs among the first `upTo` numbers of `draw`. */
  function CountUpTo(draw: seq<int>, n: int, upTo: nat): nat
    requires upTo <= |draw|
  {
    if upTo == 0 then 0
    else CountUpTo(draw, n, upTo - 1) + (if draw[upTo - 1] == n then 1 else 0)
  }

  /** Counting through a prefix gives the number's multiplicity in it. */
  lemma {:induction false} CountIsMultiplicity(draw: seq<int>, n: int, upTo: nat)
    requires upTo <= |draw|
    ensures CountUpTo(draw, n, upTo) == multiset(draw[..upTo])[n]
  {
    if upTo > 0 {
      CountIsMultiplicity(draw, n, upTo - 1);
      assert draw[..upTo] == draw[..upTo - 1] + [draw[upTo - 1]];
    }
  }

  /** Summing the weight once per occurrence is the weight scaled by the count. */
  lemma {:induction false} HitsIsScale(draw: seq<int>, n: int, w: real, upTo: nat)
    requires upTo <= |draw|
    ensures WeightedHits(draw, n, w, upTo) == Scale(w, CountUpTo(draw, n, upTo))
  {
    if upTo > 0 {
      HitsIsScale(draw, n, w, upTo - 1);
    }
  }

  /** Adding a draw raises each entry by the draw's weight once per occurrence of its number. */
  lemma {:induction false} AddDrawAt(scores: seq<real>, lo: int, draw: seq<int>, w: real, upTo: nat, i: int)
    requires upTo <= |draw| && 0 <= i < |scores|
    ensures AddDraw(scores, lo, draw, w, upTo)[i] == scores[i] + WeightedHits(draw, lo + i, w, upTo)
  {
    if upTo > 0 {
      AddDrawAt(scores, lo, draw, w, upTo - 1, i);
    }
  }

  /** The accumulated table holds, for each number, exactly its weighted occurrence count. */
  lemma {:induction false} RawFrequencyIsWeightedCount(lo: int, count: nat, recent: seq<seq<int>>, gamma: real, upTo: nat, i: int)
    requires upTo <= |recent| && 0 <= i < count
    ensures RawFrequency(lo, count, recent, gamma, upTo)[i] == WeightedCount(recent, lo + i, gamma, upTo)
  {
    if upTo > 0 {
      var k := upTo - 1;
      var draw := recent[k];
      var prev := RawFrequency(lo, count, recent, gamma, k);
      RawFrequencyIsWeightedCount(lo, count, recent, gamma, k, i);
      AddDrawAt(prev, lo, draw, Pow(gamma, k), |draw|, i);
      HitsIsScale(draw, lo + i, Pow(gamma, k), |draw|);
      CountIsMultiplicity(draw, lo + i, |draw|);
      assert draw[..|draw|] == draw;
    }
  }

  /** With a non-negative decay every weighted count is non-negative. */
  lemma {:induction false} WeightedCountNonNegative(recent: seq<seq<int>>, n: int, gamma: real, upTo: nat)
    requires gamma >= 0.0 && upTo <= |recent|
    ensures WeightedCount(recent, n, gamma, upTo) >= 0.0
  {
    if upTo > 0 {
      WeightedCountNonNegative(recent, n, gamma, upTo - 1);
      PowNonNegative(gamma, upTo - 1);
      ScaleSign(Pow(gamma, upTo - 1), multiset(recent[upTo - 1])[n]);
    }
  }

  /** With a positive decay a number that occurs in one of the first `upTo` draws has a positive weighted count. */
  lemma {:induction false} WeightedCountPositive(recent: seq<seq<int>>, n: int, gamma: real, upTo: nat, j: nat)
    requires gamma > 0.0 && j < upTo <= |recent| && n in recent[j]
    ensures WeightedCount(recent, n, gamma, upTo) > 0.0
  {
    var k := upTo - 1;
    PowPositive(gamma, k);
    ScaleSign(Pow(gamma, k), multiset(recent[k])[n]);
    if j == k {
      WeightedCountNonNegative(recent, n, gamma, k);
      assert multiset(recent[k])[n] > 0;
    } else {
      WeightedCountPositive(recent, n, gamma, k, j);
    }
  }

  /** `get_scores`: the normalised weighted counts of lo..hi over `history[:window]`, or all 1.0 for an empty window. */
  function FrequencyScores(lo: int, hi: int, window: nat, gamma: real, history: seq<seq<int>>): (r: seq<real>)
    requires lo <= hi
    ensures |r| == hi - lo + 1
  {
    var recent := Take(history, window);
    if |recent| == 0 then seq(hi - lo + 1, _ => 1.0)
    else Normalize(RawFrequency(lo, hi - lo + 1, recent, gamma, |recent|))
  }

  /** Over a non-empty window each score is the number's weighted count divided by the table's divisor. */
  lemma FrequencyScoreAt(lo: int, hi: int, window: nat, gamma: real, history: seq<seq<int>>, n: int)
    requires lo <= n <= hi && |Take(history, window)| > 0
    ensures var recent := Take(history, window);
      FrequencyScores(lo, hi, window, gamma, history)[n - lo]
        == WeightedCount(recent, n, gamma, |recent|) / Divisor(RawFrequency(lo, hi - lo + 1, recent, gamma, |recent|))
  {
    var recent := Take(history, window);
    var raw := RawFrequency(lo, hi - lo + 1, recent, gamma, |recent|);
    RawFrequencyIsWeightedCount(lo, hi - lo + 1, recent, gamma, |recent|, n - lo);
    NormalizeAt(raw, n - lo);
  }

  /** With a non-negative decay every score lies in [0, 1]. */
  lemma FrequencyScoresBounds(lo: int, hi: int, window: nat, gamma: real, history: seq<seq<int>>)
    requires lo <= hi && gamma >= 0.0
    ensures forall i | 0 <= i < hi - lo + 1 :: 0.0 <= FrequencyScores(lo, hi, window, gamma, history)[i] <= 1.0
  {
    var recent := Take(history, window);
    if |recent| > 0 {
      var raw := RawFrequency(lo, hi - lo + 1, recent, gamma, |recent|);
      forall i | 0 <= i < |raw| ensures raw[i] >= 0.0 {
        RawFrequencyIsWeightedCount(lo, hi - lo + 1, recent, gamma, |recent|, i);
        WeightedCountNonNegative(recent, lo + i, gamma, |recent|);
      }
      NormalizeBounds(raw);
    }
  }

  /**
   * With a positive decay, once some in-range number occurs in the window the
   * scores are divided by the largest raw score and some number scores exactly 1.
   */
  lemma FrequencyScoresReachOne(lo: int, hi: int, window: nat, gamma: real, history: seq<seq<int>>, j: nat, n: int)
    requires lo <= n <= hi && gamma > 0.0
    requires j < |Take(history, window)| && n in Take(history, window)[j]
    ensures exists i | 0 <= i < hi - lo + 1 :: FrequencyScores(lo, hi, window, gamma, history)[i] == 1.0
  {
    var recent := Take(history, window);
    var raw := RawFrequency(lo, hi - lo + 1, recent, gamma, |recent|);
    RawFrequencyIsWeightedCount(lo, hi - lo + 1, recent, gamma, |recent|, n - lo);
    WeightedCountPositive(recent, n, gamma, |recent|, j);
    NormalizeByMax(raw);
    var r := FrequencyScores(lo, hi, window, gamma, history);
    assert r == Normalize(raw);
    var k :| 0 <= k < |raw| && Normalize(raw)[k] == 1.0;
    assert r[k] == 1.0;
  }

  /** `get_scores` as the source computes it: a score table filled by a loop over draws and their numbers. */
  method GetScores(lo: int, hi: int, window: nat, gamma: real, history: seq<seq<int>>) returns (scores: seq<real>)
    requires lo <= hi
    ensures scores == FrequencyScores(lo, hi, window, gamma, history)
    ensures |Take(history, window)| == 0 ==> forall i | 0 <= i < |scores| :: scores[i] == 1.0
  {
    var recent := Take(history, window);
    if |recent| == 0 {
      return seq(hi - lo + 1, _ => 1.0);
    }
    var raw: seq<real> := seq(hi - lo + 1, _ => 0.0);
    for idx := 0 to |recent|
      invariant raw == RawFrequency(lo, hi - lo + 1, recent, gamma, idx)
    {
      var weight := Pow(gamma, idx);
      var draw := recent[idx];
      ghost var before := raw;
      for j := 0 to |draw|
        invariant raw == AddDraw(before, lo, draw, weight, j)
      {
        var num := draw[j];
        if lo <= num <= hi {
          raw := raw[num - lo := raw[num - lo] + weight];
        }
      }
    }
    scores := Normalize(raw);
  }

  /** `get_hot_numbers`: the first `top_n` numbers by descending score. */
  function HotNumbers(lo: int, hi: int, window: nat, gamma: real, history: seq<seq<int>>, topN: nat): seq<int>
    requires lo <= hi
  {
    Take(Ranking(FrequencyScores(lo, hi, window, gamma, history), lo, true), topN)
  }

  /** `get_cold_numbers`: the first `bottom_n` numbers by ascending score. */
  function ColdNumbers(lo: int, hi: int, window: nat, gamma: real, history: seq<seq<int>>, bottomN: nat): seq<int>
    requires lo <= hi
  {
    Take(Ranking(FrequencyScores(lo, hi, window, gamma, history), lo, false), bottomN)
  }

  /**
   * The hot numbers are min(top_n, hi-lo+1) distinct numbers of the range, listed
   * by descending score, none scoring below a number left out.
   */
  lemma HotNumbersProperties(lo: int, hi: int, window: nat, gamma: real, history: seq<seq<int>>, topN: nat)
    requires lo <= hi
    ensures var hot := HotNumbers(lo, hi, window, gamma, history, topN);
      && |hot| == (if topN <= hi - lo + 1 then topN else hi - lo + 1)
      && Distinct(hot)
      && (forall x | x in hot :: lo <= x <= hi)
      && (forall x, y | x in hot && lo <= y <= hi && y !in hot ::
           FrequencyScores(lo, hi, window, gamma, history)[x - lo]
             >= FrequencyScores(lo, hi, window, gamma, history)[y - lo])
      && (forall a | 0 <= a < |hot| :: lo <= hot[a] <= hi)
      && forall a, b | 0 <= a < b < |hot| ::
           FrequencyScores(lo, hi, window, gamma, history)[hot[a] - lo]
             >= FrequencyScores(lo, hi, window, gamma, history)[hot[b] - lo]
  {
    var scores := FrequencyScores(lo, hi, window, gamma, history);
    TopOfRange(scores, lo, hi, true, topN);
    TopOfRangeOrdered(scores, lo, hi, true, topN);
  }

  /**
   * The cold numbers are min(bottom_n, hi-lo+1) distinct numbers of the range,
   * listed by ascending score, none scoring above a number left out.
   */
  lemma ColdNumbersProperties(lo: int, hi: int, window: nat, gamma: real, history: seq<seq<int>>, bottomN: nat)
    requires lo <= hi
    ensures var cold := ColdNumbers(lo, hi, window, gamma, history, bottomN);
      && |cold| == (if bottomN <= hi - lo + 1 then bottomN else hi - lo + 1)
      && Distinct(cold)
      && (forall x | x in cold :: lo <= x <= hi)
      && (forall x, y | x in cold && lo <= y <= hi && y !in cold ::
           FrequencyScores(lo, hi, window, gamma, history)[x - lo]
             <= FrequencyScores(lo, hi, window, gamma, history)[y - lo])
      && (forall a | 0 <= a < |cold| :: lo <= cold[a] <= hi)
      && forall a, b | 0 <= a < b < |cold| ::
           FrequencyScores(lo, hi, window, gamma, history)[cold[a] - lo]
             <= FrequencyScores(lo, hi, window, gamma, history)[cold[b] - lo]
  {
    var scores := FrequencyScores(lo, hi, window, gamma, history);
    TopOfRange(scores, lo, hi, false, bottomN);
    TopOfRangeOrdered(scores, lo, hi, false, bottomN);
  }
}
