/**
 * XGBoostPredictor: the per-number feature vector the classifier sees —
 * frequency in the feature window, recency, gap against the mean gap between
 * appearances, and position in the range — the training samples built from a
 * history, and the not-loaded guard of scoring. The classifier itself is an
 * opaque function from a feature vector to a probability.
 */
module XGBoostPredictor {
  import opened Wrappers
  import opened Seqs
  import GapAnalyzer

  /**
   * An exact fraction `num / den`: each feature is the quotient of two
   * integers, and the classifier sees its value.
   */
  datatype Fraction = Fraction(num: int, den: int)

  /** The real number a fraction stands for. */
  function Value(q: Fraction): real
    requires q.den != 0
  {
    q.num as real / q.den as real
  }

  /** `[freq, recency_norm, gap_delta, pos_norm]`. */
  datatype Features = Features(freq: Fraction, recencyNorm: Fraction, gapDelta: Fraction, posNorm: Fraction)

  function Min(a: nat, b: nat): nat {
    if a <= b then a else b
  }

  /** How many of the draws before `upTo` contain `num`. */
  function DrawsWith(draws: seq<seq<int>>, num: int, upTo: nat): (c: nat)
    requires upTo <= |draws|
    ensures c <= upTo
  {
    if upTo == 0 then 0
    else DrawsWith(draws, num, upTo - 1) + (if num in draws[upTo - 1] then 1 else 0)
  }

  /** `sum(1 for draw in recent if number in draw) / (len(recent) or 1)` for `recent = history[:window]`. */
  function Freq(history: seq<seq<int>>, window: nat, num: int): Fraction {
    var m := Min(window, |history|);
    Fraction(DrawsWith(history, num, m), if m == 0 then 1 else m)
  }

  /** The index of the first draw at or after `from` that contains `num`. */
  function FirstFrom(history: seq<seq<int>>, num: int, from: nat): Option<nat>
    decreases |history| - from
  {
    if from >= |history| then None
    else if num in history[from] then Some(from)
    else FirstFrom(history, num, from + 1)
  }

  /** The search finds the first draw holding `num`, or reports that none from `from` on does. */
  lemma {:induction false} FirstFromMeaning(history: seq<seq<int>>, num: int, from: nat)
    ensures match FirstFrom(history, num, from)
      case Some(i) => from <= i < |history| && num in history[i]
                      && forall j | from <= j < i :: num !in history[j]
      case None => forall j | from <= j < |history| :: num !in history[j]
    decreases |history| - from
  {
    if from < |history| && num !in history[from] {
      FirstFromMeaning(history, num, from + 1);
    }
  }

  /** Draws since `num` was last seen in the whole history, or `window + 1`. */
  function Recency(history: seq<seq<int>>, window: nat, num: int): nat {
    match FirstFrom(history, num, 0)
    case Some(i) => i
    case None => window + 1
  }

  /** `recency / (window + 1)`. */
  function RecencyNorm(recency: nat, window: nat): Fraction {
    Fraction(recency, window + 1)
  }

  /** The indices of the draws before `upTo` that contain `num`, in order. */
  function Appearances(draws: seq<seq<int>>, num: int, upTo: nat): seq<int>
    requires upTo <= |draws|
  {
    if upTo == 0 then []
    else
      var a := Appearances(draws, num, upTo - 1);
      if num in draws[upTo - 1] then a + [upTo - 1] else a
  }

  /** The appearances ascend strictly, and are exactly the draws before `upTo` holding `num`. */
  lemma {:induction false} AppearancesMeaning(draws: seq<seq<int>>, num: int, upTo: nat)
    requires upTo <= |draws|
    ensures var a := Appearances(draws, num, upTo);
      && StrictlyAsc(a)
      && (forall k | 0 <= k < |a| :: 0 <= a[k] < upTo && num in draws[a[k]])
      && (forall idx | 0 <= idx < upTo && num in draws[idx] :: idx in a)
  {
    if upTo > 0 {
      AppearancesMeaning(draws, num, upTo - 1);
    }
  }

  /** The differences between consecutive appearance indices. */
  function ConsecutiveGaps(a: seq<int>): (g: seq<int>)
    ensures |g| == if |a| == 0 then 0 else |a| - 1
  {
    if |a| <= 1 then [] else seq(|a| - 1, i requires 0 <= i < |a| - 1 => a[i + 1] - a[i])
  }

  /** `np.mean(gaps) if gaps else window`. */
  function AvgGap(gaps: seq<int>, window: nat): (avg: Fraction)
    ensures avg.den > 0
  {
    if |gaps| == 0 then Fraction(window, 1) else Fraction(SumInt(gaps), |gaps|)
  }

  /**
   * `(recency - avg_gap) / (avg_gap or 1)` for `avg_gap = n / d`: with n = 0
   * the divisor is 1, otherwise the quotient is `(recency·d - n) / n`.
   */
  function GapDelta(recency: nat, avg: Fraction): (q: Fraction)
    requires avg.den > 0
    ensures q.den != 0
  {
    if avg.num == 0 then Fraction(recency, 1) else Fraction(recency * avg.den - avg.num, avg.num)
  }

  /** `(number - lo) / (hi - lo)`. */
  function PosNorm(lo: int, hi: int, num: int): Fraction {
    Fraction(num - lo, hi - lo)
  }

  /** The feature vector of `_build_features` (its divisor `hi - lo` needs a range of two numbers or more). */
  function FeaturesOf(lo: int, hi: int, window: nat, history: seq<seq<int>>, num: int): Features
    requires lo < hi
  {
    var recency := Recency(history, window, num);
    var avg := AvgGap(ConsecutiveGaps(Appearances(history, num, Min(100, |history|))), window);
    Features(Freq(history, window, num), RecencyNorm(recency, window), GapDelta(recency, avg), PosNorm(lo, hi, num))
  }

  // ---- what the features mean ---------------------------------------------------

  /** The gap delta's value is the source's formula on the mean gap's value. */
  lemma GapDeltaValue(recency: nat, avg: Fraction)
    requires avg.den > 0
    ensures var a := Value(avg);
      Value(GapDelta(recency, avg)) == (recency as real - a) / (if a == 0.0 then 1.0 else a)
  {
    var n, d, r := avg.num as real, avg.den as real, recency as real;
    var a := Value(avg);
    if avg.num == 0 {
      assert a == 0.0;
    } else {
      assert a * d == n;
      assert a != 0.0;
      var lhs := (r * d - n) / n;
      var rhs := (r - a) / a;
      assert lhs * n == r * d - n;
      assert rhs * a == r - a;
      assert rhs * n == rhs * a * d == (r - a) * d == r * d - n;
      assert lhs * n == rhs * n;
    }
  }

  /** A fraction with positive denominator between 0 and 1, at least -1, or equal to 1 in value. */
  lemma FractionBounds(q: Fraction)
    requires q.den > 0
    ensures 0 <= q.num <= q.den ==> 0.0 <= Value(q) <= 1.0
    ensures q.num >= -q.den ==> Value(q) >= -1.0
    ensures q.num == q.den ==> Value(q) == 1.0
    ensures q.num == 0 ==> Value(q) == 0.0
  {
    var v := Value(q);
    assert v * q.den as real == q.num as real;
  }

  /** The consecutive gaps telescope: their sum is the distance from the first appearance to the last. */
  lemma {:induction false} GapsTelescope(a: seq<int>)
    requires |a| > 0
    ensures SumInt(ConsecutiveGaps(a)) == a[|a| - 1] - a[0]
  {
    if |a| > 1 {
      var init := a[..|a| - 1];
      GapsTelescope(init);
      var g := ConsecutiveGaps(a);
      assert g[..|g| - 1] == ConsecutiveGaps(init);
    }
  }

  /**
   * With two appearances or more the mean gap is (last - first) / (count - 1),
   * which is positive; with fewer it is the window.
   */
  lemma AvgGapMeaning(history: seq<seq<int>>, num: int, window: nat)
    ensures var a := Appearances(history, num, Min(100, |history|));
      var avg := AvgGap(ConsecutiveGaps(a), window);
      && (|a| >= 2 ==> avg == Fraction(a[|a| - 1] - a[0], |a| - 1) && avg.num > 0)
      && (|a| < 2 ==> avg == Fraction(window, 1))
  {
    var a := Appearances(history, num, Min(100, |history|));
    if |a| >= 2 {
      AppearancesMeaning(history, num, Min(100, |history|));
      GapsTelescope(a);
      assert a[0] < a[|a| - 1];
    }
  }

  /**
   * The features of an in-range number, each a fraction over a positive
   * denominator: `freq` is in [0, 1] and 0 for an empty history; `pos_norm`
   * is in [0, 1]; `recency_norm` is non-negative and exactly 1 for a number
   * that never appeared; `gap_delta` is at least -1 (FractionBounds turns
   * these into bounds on the values).
   */
  lemma FeatureBounds(lo: int, hi: int, window: nat, history: seq<seq<int>>, num: int)
    requires lo < hi && lo <= num <= hi
    ensures var f := FeaturesOf(lo, hi, window, history, num);
      && f.freq.den > 0 && 0 <= f.freq.num <= f.freq.den
      && (|history| == 0 ==> f.freq.num == 0)
      && f.posNorm.den > 0 && 0 <= f.posNorm.num <= f.posNorm.den
      && f.recencyNorm.den > 0 && f.recencyNorm.num >= 0
      && ((forall j | 0 <= j < |history| :: num !in history[j]) ==> f.recencyNorm.num == f.recencyNorm.den)
      && f.gapDelta.den > 0 && f.gapDelta.num >= -f.gapDelta.den
  {
    var recency := Recency(history, window, num);
    var avg := AvgGap(ConsecutiveGaps(Appearances(history, num, Min(100, |history|))), window);
    AvgGapMeaning(history, num, window);
    FirstFromMeaning(history, num, 0);
    if avg.num != 0 {
      NonNegativeProduct(recency, avg.den);
    }
  }

  lemma NonNegativeProduct(a: nat, b: nat)
    ensures a * b >= 0
  {
  }

  /** Recency is searched over the whole history, so `recency_norm` is not capped at 1 by the window. */
  lemma RecencyBeyondWindow()
    ensures var h := seq(25, i => if i == 24 then [7] else [1]);
      FeaturesOf(1, 45, 20, h, 7).recencyNorm == Fraction(24, 21)
  {
    var h := seq(25, i => if i == 24 then [7] else [1]);
    assert 7 in h[24];
    FirstFromMeaning(h, 7, 0);
  }

  // ---- the predictor -----------------------------------------------------------

  /** The predictor: its range, feature window, and the classifier once trained or loaded. */
  class Predictor {
    const lo: int
    const hi: int
    const window: nat
    var model: Option<Features -> real>

    /** `XGBoostPredictor(number_range, params)`: no model yet. */
    constructor(lo: int, hi: int, window: nat)
      ensures this.lo == lo && this.hi == hi && this.window == window && model.None?
    {
      this.lo := lo;
      this.hi := hi;
      this.window := window;
      model := None;
    }

    /** `_build_features` as the source computes it, with its counting, search and gap loops. */
    method BuildFeatures(history: seq<seq<int>>, num: int) returns (f: Features)
      requires lo < hi
      ensures f == FeaturesOf(lo, hi, window, history, num)
    {
      var m := Min(window, |history|);
      var seen := 0;
      for k := 0 to m
        invariant seen == DrawsWith(history, num, k)
      {
        if num in history[k] {
          seen := seen + 1;
        }
      }
      var freq := Fraction(seen, if m == 0 then 1 else m);
      assert freq == Freq(history, window, num);

      var recency := window + 1;
      for idx := 0 to |history|
        invariant recency == window + 1
        invariant FirstFrom(history, num, idx) == FirstFrom(history, num, 0)
      {
        if num in history[idx] {
          recency := idx;
          break;
        }
      }
      assert recency == Recency(history, window, num);
      var recencyNorm := RecencyNorm(recency, window);

      var early := Min(100, |history|);
      var gaps: seq<int> := [];
      var lastSeen: Option<int> := None;
      for idx := 0 to early
        invariant gaps == ConsecutiveGaps(Appearances(history, num, idx))
        invariant lastSeen.None? <==> |Appearances(history, num, idx)| == 0
        invariant lastSeen.Some? ==> lastSeen.value == Last(Appearances(history, num, idx))
      {
        ghost var a := Appearances(history, num, idx);
        assert Appearances(history, num, idx + 1) == if num in history[idx] then a + [idx] else a;
        if num in history[idx] {
          GapsSnoc(a, idx);
          if lastSeen.Some? {
            gaps := gaps + [idx - lastSeen.value];
          }
          lastSeen := Some(idx);
        }
      }
      assert gaps == ConsecutiveGaps(Appearances(history, num, early));
      var avg := AvgGap(gaps, window);
      var gapDelta := GapDelta(recency, avg);
      var posNorm := PosNorm(lo, hi, num);
      f := Features(freq, recencyNorm, gapDelta, posNorm);
    }

    /**
     * `_build_training_data`: for every draw after the newest, one sample per
     * number of the range, labelled 1 iff the number is in that draw, with
     * `history[i:]` (which still holds the labelled draw) as context.
     */
    method BuildTrainingData(history: seq<seq<int>>) returns (xs: seq<Features>, ys: seq<int>)
      requires lo < hi
      ensures xs == TrainingX(lo, hi, window, history, |history|)
      ensures ys == TrainingY(lo, hi, history, |history|)
    {
      xs, ys := [], [];
      if |history| == 0 {
        return;
      }
      for i := 1 to |history|
        invariant xs == TrainingX(lo, hi, window, history, i)
        invariant ys == TrainingY(lo, hi, history, i)
      {
        var rowX, rowY := BuildRow(history[i..], history[i]);
        xs := xs + rowX;
        ys := ys + rowY;
        TrainingStep(lo, hi, window, history, i);
      }
    }

    /** The inner loop of `_build_training_data`: the samples and labels of one labelled draw, number by number. */
    method BuildRow(context: seq<seq<int>>, draw: seq<int>) returns (rowX: seq<Features>, rowY: seq<int>)
      requires lo < hi
      ensures rowX == RowX(lo, hi, window, context)
      ensures rowY == RowY(lo, hi, draw)
    {
      rowX, rowY := [], [];
      ghost var fullX, fullY := RowX(lo, hi, window, context), RowY(lo, hi, draw);
      for num := lo to hi + 1
        invariant rowX == fullX[..num - lo]
        invariant rowY == fullY[..num - lo]
      {
        var feats := BuildFeatures(context, num);
        RowEntries(lo, hi, window, context, draw, num);
        PrefixStep(fullX, num - lo);
        PrefixStep(fullY, num - lo);
        rowX := rowX + [feats];
        rowY := rowY + [if num in draw then 1 else 0];
      }
      WholePrefix(fullX);
      WholePrefix(fullY);
    }

    /** `get_scores`: None when no model is loaded (the source raises), else the model's probability for every number. */
    method GetScores(history: seq<seq<int>>) returns (r: Option<seq<real>>)
      requires lo < hi
      ensures model.None? <==> r.None?
      ensures r.Some? ==> |r.value| == hi - lo + 1
      ensures r.Some? ==> forall n | lo <= n <= hi :: r.value[n - lo] == model.value(FeaturesOf(lo, hi, window, history, n))
    {
      if model.None? {
        return None;
      }
      var probs: seq<real> := [];
      for num := lo to hi + 1
        invariant |probs| == num - lo
        invariant forall n | lo <= n < num :: probs[n - lo] == model.value(FeaturesOf(lo, hi, window, history, n))
      {
        var feats := BuildFeatures(history, num);
        probs := probs + [model.value(feats)];
      }
      r := Some(probs);
    }
  }

  /** The samples of one labelled draw: one feature vector per number of the range. */
  function RowX(lo: int, hi: int, window: nat, context: seq<seq<int>>): (r: seq<Features>)
    requires lo < hi
    ensures |r| == hi - lo + 1
  {
    seq(hi - lo + 1, k => FeaturesOf(lo, hi, window, context, lo + k))
  }

  /** The labels of one draw: 1 for the numbers it holds, 0 for the others. */
  function RowY(lo: int, hi: int, draw: seq<int>): (r: seq<int>)
    requires lo <= hi
    ensures |r| == hi - lo + 1
  {
    seq(hi - lo + 1, k => if lo + k in draw then 1 else 0)
  }

  /** The feature rows for the labelled draws 1 .. upTo-1, in order. */
  function TrainingX(lo: int, hi: int, window: nat, history: seq<seq<int>>, upTo: nat): seq<Features>
    requires lo < hi && upTo <= |history|
  {
    if upTo <= 1 then [] else TrainingX(lo, hi, window, history, upTo - 1) + RowX(lo, hi, window, history[upTo - 1..])
  }

  /** The label rows for the labelled draws 1 .. upTo-1, in order. */
  function TrainingY(lo: int, hi: int, history: seq<seq<int>>, upTo: nat): seq<int>
    requires lo <= hi && upTo <= |history|
  {
    if upTo <= 1 then [] else TrainingY(lo, hi, history, upTo - 1) + RowY(lo, hi, history[upTo - 1])
  }

  /** One more labelled draw appends its row. */
  lemma TrainingStep(lo: int, hi: int, window: nat, history: seq<seq<int>>, i: nat)
    requires lo < hi && 1 <= i < |history|
    ensures TrainingX(lo, hi, window, history, i + 1) == TrainingX(lo, hi, window, history, i) + RowX(lo, hi, window, history[i..])
    ensures TrainingY(lo, hi, history, i + 1) == TrainingY(lo, hi, history, i) + RowY(lo, hi, history[i])
  {
  }

  lemma PrefixStep<T>(s: seq<T>, j: nat)
    requires j < |s|
    ensures s[..j + 1] == s[..j] + [s[j]]
  {
  }

  lemma WholePrefix<T>(s: seq<T>)
    ensures s[..|s|] == s
  {
  }

  /** Where the row of labelled draw i starts: `(i - 1) * n`, written as repeated addition. */
  function RowStart(i: nat, n: nat): nat
    requires i >= 1
  {
    if i == 1 then 0 else RowStart(i - 1, n) + n
  }

  lemma {:induction false} RowStartIsProduct(i: nat, n: nat)
    requires i >= 1
    ensures RowStart(i, n) == (i - 1) * n
  {
    if i > 1 {
      RowStartIsProduct(i - 1, n);
    }
  }

  lemma {:induction false} RowStartGrows(i: nat, j: nat, n: nat)
    requires 1 <= i < j
    ensures RowStart(i, n) + n <= RowStart(j, n)
  {
    if j > i + 1 {
      RowStartGrows(i, j - 1, n);
    }
  }

  /** The samples and labels of the labelled draws before upTo fill (upTo-1) rows of N. */
  lemma {:induction false} TrainingSize(lo: int, hi: int, window: nat, history: seq<seq<int>>, upTo: nat)
    requires lo < hi && 1 <= upTo <= |history|
    ensures |TrainingX(lo, hi, window, history, upTo)| == RowStart(upTo, hi - lo + 1)
    ensures |TrainingY(lo, hi, history, upTo)| == RowStart(upTo, hi - lo + 1)
  {
    if upTo > 1 {
      TrainingSize(lo, hi, window, history, upTo - 1);
    }
  }

  /**
   * Sample (i-1)·N + k is number lo+k with context `history[i:]`, labelled 1
   * iff lo+k is in draw i.
   */
  lemma {:induction false} TrainingSampleAt(lo: int, hi: int, window: nat, history: seq<seq<int>>, upTo: nat, i: nat, k: nat)
    requires lo < hi && upTo <= |history|
    requires 1 <= i < upTo && k < hi - lo + 1
    ensures var j := RowStart(i, hi - lo + 1) + k;
      && j < |TrainingX(lo, hi, window, history, upTo)|
      && j < |TrainingY(lo, hi, history, upTo)|
      && TrainingX(lo, hi, window, history, upTo)[j] == RowX(lo, hi, window, history[i..])[k]
      && TrainingY(lo, hi, history, upTo)[j] == RowY(lo, hi, history[i])[k]
  {
    var n := hi - lo + 1;
    TrainingSize(lo, hi, window, history, upTo - 1);
    var before := TrainingX(lo, hi, window, history, upTo - 1);
    var beforeY := TrainingY(lo, hi, history, upTo - 1);
    var j := RowStart(i, n) + k;
    if i == upTo - 1 {
      assert j == |before| + k;
    } else {
      TrainingSampleAt(lo, hi, window, history, upTo - 1, i, k);
      RowStartGrows(i, upTo - 1, n);
    }
  }

  /**
   * Over the whole history: (|history|-1)·N samples and labels, and sample
   * RowStart(i)+k (that is (i-1)·N + k) is number lo+k with context
   * `history[i:]`, labelled 1 iff lo+k is in draw i.
   */
  lemma TrainingSample(lo: int, hi: int, window: nat, history: seq<seq<int>>, i: nat, k: nat)
    requires lo < hi && 1 <= i < |history| && k < hi - lo + 1
    ensures var xs := TrainingX(lo, hi, window, history, |history|);
      var ys := TrainingY(lo, hi, history, |history|);
      var j := RowStart(i, hi - lo + 1) + k;
      && |xs| == |ys| == RowStart(|history|, hi - lo + 1)
      && j < |xs|
      && xs[j] == FeaturesOf(lo, hi, window, history[i..], lo + k)
      && ys[j] == (if lo + k in history[i] then 1 else 0)
  {
    TrainingSampleAt(lo, hi, window, history, |history|, i, k);
    TrainingSize(lo, hi, window, history, |history|);
    RowEntries(lo, hi, window, history[i..], history[i], lo + k);
  }

  /**
   * The context of sample (i, k) is `history[i:]`, which starts with the
   * labelled draw itself, so the recency feature is 0 exactly when the label
   * is 1: every training sample carries its own label.
   */
  lemma {:induction false} TrainingLabelLeaks(lo: int, hi: int, window: nat, history: seq<seq<int>>, i: nat, k: nat)
    requires lo < hi && 1 <= i < |history| && k < hi - lo + 1
    ensures var xs := TrainingX(lo, hi, window, history, |history|);
      var ys := TrainingY(lo, hi, history, |history|);
      var j := RowStart(i, hi - lo + 1) + k;
      && j < |xs| && j < |ys|
      && (xs[j].recencyNorm.num == 0 <==> ys[j] == 1)
  {
    TrainingSample(lo, hi, window, history, i, k);
    var context := history[i..];
    assert context[0] == history[i];
    FirstFromMeaning(context, lo + k, 0);
  }

  lemma RowEntries(lo: int, hi: int, window: nat, context: seq<seq<int>>, draw: seq<int>, n: int)
    requires lo < hi && lo <= n <= hi
    ensures RowX(lo, hi, window, context)[n - lo] == FeaturesOf(lo, hi, window, context, n)
    ensures RowY(lo, hi, draw)[n - lo] == (if n in draw then 1 else 0)
  {
  }


  function Last(a: seq<int>): int
    requires |a| > 0
  {
    a[|a| - 1]
  }

  /** Appending an appearance appends its distance from the previous one. */
  lemma GapsSnoc(a: seq<int>, x: int)
    ensures |a| > 0 ==> ConsecutiveGaps(a + [x]) == ConsecutiveGaps(a) + [x - Last(a)]
    ensures |a| == 0 ==> ConsecutiveGaps(a + [x]) == []
  {
    if |a| > 0 {
      var b := a + [x];
      var g := ConsecutiveGaps(b);
      var h := ConsecutiveGaps(a) + [x - Last(a)];
      forall i | 0 <= i < |g| ensures g[i] == h[i] {
        assert g[i] == b[i + 1] - b[i];
        if i < |a| - 1 {
          assert b[i + 1] == a[i + 1] && b[i] == a[i];
        }
      }
      assert g == h;
    }
  }
}
