/**
 * GapAnalyzer: a number's gap is how many draws ago (0 = the newest) it last
 * appeared within the most recent `window` draws, or `window + 1` when it did
 * not appear there at all. Scores are the gaps divided by their mean and then
 * by the largest, so the most overdue number scores 1.
 */
module GapAnalyzer {
  import opened Wrappers
  import opened Seqs
  import opened ScoreMaps

  /** The index of the first (newest) draw of `recent` that contains `num`. */
  function FirstIndex(recent: seq<seq<int>>, num: int): (r: Option<nat>)
    ensures r.Some? ==> r.value < |recent| && num in recent[r.value]
                        && forall j | 0 <= j < r.value :: num !in recent[j]
    ensures r.None? ==> forall j | 0 <= j < |recent| :: num !in recent[j]
  {
    if |recent| == 0 then None
    else if num in recent[0] then Some(0)
    else match FirstIndex(recent[1..], num)
      case None => None
      case Some(i) => Some(i + 1)
  }

  /** The gap of one number: its first index in the window, or `window + 1`. */
  function GapOf(recent: seq<seq<int>>, window: nat, num: int): nat {
    match FirstIndex(recent, num)
    case Some(i) => i
    case None => window + 1
  }

  /** `get_gaps` as a table over lo..hi. */
  function Gaps(lo: int, hi: int, window: nat, history: seq<seq<int>>): (g: seq<int>)
    requires lo <= hi
    ensures |g| == hi - lo + 1
    ensures forall i | 0 <= i < |g| :: g[i] >= 0
  {
    var recent := Take(history, window);
    var g := seq(hi - lo + 1, i => GapOf(recent, window, lo + i));
    assert forall i | 0 <= i < |g| :: g[i] == GapOf(recent, window, lo + i) >= 0;
    g
  }

  /**
   * `get_gaps` as the source computes it: for every number, scan the window
   * newest first and stop at the first draw containing it.
   */
  method GetGaps(lo: int, hi: int, window: nat, history: seq<seq<int>>) returns (gaps: seq<int>)
    requires lo <= hi
    ensures gaps == Gaps(lo, hi, window, history)
    ensures forall i | 0 <= i < |gaps| ::
      (0 <= gaps[i] < |Take(history, window)| && lo + i in Take(history, window)[gaps[i]]
       && forall j | 0 <= j < gaps[i] :: lo + i !in Take(history, window)[j])
      || (gaps[i] == window + 1 && forall j | 0 <= j < |Take(history, window)| :: lo + i !in Take(history, window)[j])
  {
    var recent := Take(history, window);
    gaps := [];
    for num := lo to hi + 1
      invariant |gaps| == num - lo
      invariant forall i | 0 <= i < |gaps| :: gaps[i] == GapOf(recent, window, lo + i)
    {
      var gap: Option<nat> := None;
      for idx := 0 to |recent|
        invariant gap.None? ==> forall j | 0 <= j < idx :: num !in recent[j]
        invariant gap.Some? ==> gap == FirstIndex(recent, num)
      {
        if num in recent[idx] {
          gap := Some(idx);
          FirstIndexAt(recent, num, idx);
          break;
        }
      }
      gaps := gaps + [if gap.Some? then gap.value else window + 1];
    }
  }

  lemma FirstIndexAt(recent: seq<seq<int>>, num: int, idx: nat)
    requires idx < |recent| && num in recent[idx]
    requires forall j | 0 <= j < idx :: num !in recent[j]
    ensures FirstIndex(recent, num) == Some(idx)
  {
    var r := FirstIndex(recent, num);
    assert r.Some?;
  }

  /** A gap is never `window`: it is an index inside the window or `window + 1`. */
  lemma GapNeverWindow(lo: int, hi: int, window: nat, history: seq<seq<int>>, n: int)
    requires lo <= n <= hi
    ensures Gaps(lo, hi, window, history)[n - lo] != window
    ensures Gaps(lo, hi, window, history)[n - lo] < window || Gaps(lo, hi, window, history)[n - lo] == window + 1
  {
    var recent := Take(history, window);
    var g := Gaps(lo, hi, window, history);
    assert g[n - lo] == GapOf(recent, window, n);
  }

  /** `avg_gap` is non-zero exactly when some number has a positive gap. */
  lemma MeanGapNonZero(lo: int, hi: int, window: nat, history: seq<seq<int>>)
    requires lo <= hi
    ensures SumInt(Gaps(lo, hi, window, history)) >= 0
    ensures SumInt(Gaps(lo, hi, window, history)) != 0
        <==> exists i | 0 <= i < hi - lo + 1 :: Gaps(lo, hi, window, history)[i] > 0
  {
    var g := Gaps(lo, hi, window, history);
    SumIntNonNegative(g);
    if exists i | 0 <= i < |g| :: g[i] > 0 {
      var i :| 0 <= i < |g| && g[i] > 0;
      SumIntPositive(g, i);
    } else {
      ZeroSum(g);
    }
  }

  /**
   * `get_scores` on a gap table: each gap divided by the mean gap, then by the
   * largest such ratio. The source divides by zero when the mean gap is 0.
   */
  function ScoresOfGaps(g: seq<int>): (r: seq<real>)
    requires |g| > 0 && SumInt(g) != 0
    ensures |r| == |g|
  {
    var avg := SumInt(g) as real / |g| as real;
    Normalize(seq(|g|, i requires 0 <= i < |g| => g[i] as real / avg))
  }

  /** `get_scores` over lo..hi. */
  function GapScores(lo: int, hi: int, window: nat, history: seq<seq<int>>): (r: seq<real>)
    requires lo <= hi
    requires SumInt(Gaps(lo, hi, window, history)) != 0
    ensures |r| == hi - lo + 1
  {
    ScoresOfGaps(Gaps(lo, hi, window, history))
  }

  /** The mean cancels out: each score is the gap divided by the largest gap. */
  lemma ScoreFormula(g: seq<int>)
    requires |g| > 0 && SumInt(g) != 0
    requires forall i | 0 <= i < |g| :: g[i] >= 0
    ensures MaxInt(g) > 0
    ensures forall i | 0 <= i < |g| :: ScoresOfGaps(g)[i] == g[i] as real / MaxInt(g) as real
  {
    SumIntNonNegative(g);
    var avg := SumInt(g) as real / |g| as real;
    PositiveRatio(SumInt(g), |g|);
    var s := ScoresOfGaps(g);
    var raw := seq(|g|, i requires 0 <= i < |g| => g[i] as real / avg);
    assert s == Normalize(raw);
    var m := MaxInt(g);
    MaxIntPositive(g);
    ScaledMax(g, avg);
    forall i | 0 <= i < |g| ensures s[i] == g[i] as real / m as real {
      NormalizeAt(raw, i);
      CancelCommon(g[i] as real, m as real, avg);
    }
  }

  /**
   * On a table of non-negative gaps the scores lie in [0, 1], a number scores
   * exactly 1 iff it has the largest gap, and scores are ordered as gaps are.
   */
  lemma ScoresFollowGaps(g: seq<int>)
    requires |g| > 0 && SumInt(g) != 0
    requires forall i | 0 <= i < |g| :: g[i] >= 0
    ensures var s := ScoresOfGaps(g);
      && (forall i | 0 <= i < |g| :: 0.0 <= s[i] <= 1.0)
      && (forall i | 0 <= i < |g| :: s[i] == 1.0 <==> g[i] == MaxInt(g))
      && (forall i, j | 0 <= i < |g| && 0 <= j < |g| :: g[i] <= g[j] <==> s[i] <= s[j])
  {
    var s := ScoresOfGaps(g);
    ScoreFormula(g);
    var m := MaxInt(g) as real;
    forall i | 0 <= i < |g| ensures 0.0 <= s[i] <= 1.0 && (s[i] == 1.0 <==> g[i] == MaxInt(g)) {
      RatioFacts(g[i], MaxInt(g), MaxInt(g));
    }
    forall i, j | 0 <= i < |g| && 0 <= j < |g| ensures g[i] <= g[j] <==> s[i] <= s[j] {
      RatioFacts(g[i], g[j], MaxInt(g));
    }
  }

  /** Dividing every gap by the same positive mean divides the largest by it. */
  lemma ScaledMax(g: seq<int>, avg: real)
    requires |g| > 0 && avg > 0.0
    ensures MaxOf(seq(|g|, i requires 0 <= i < |g| => g[i] as real / avg)) == MaxInt(g) as real / avg
  {
    var raw := seq(|g|, i requires 0 <= i < |g| => g[i] as real / avg);
    var m := MaxInt(g);
    forall i | 0 <= i < |g| ensures raw[i] <= m as real / avg {
      DivideMonotone(g[i] as real, m as real, avg);
    }
    var k :| 0 <= k < |g| && g[k] == m;
    assert raw[k] == m as real / avg;
    MaxOfUnique(raw, m as real / avg);
  }

  /** Dividing by a positive maximum keeps values in [0, 1] and keeps their order. */
  lemma RatioFacts(a: int, b: int, m: int)
    requires 0 <= a <= m && 0 <= b <= m && m > 0
    ensures 0.0 <= a as real / m as real <= 1.0
    ensures a as real / m as real == 1.0 <==> a == m
    ensures a <= b <==> a as real / m as real <= b as real / m as real
  {
    DivideBelow(a as real, m as real);
    DivideMonotone(a as real, m as real, m as real);
    DivideSelf(m as real);
    if a <= b {
      DivideMonotone(a as real, b as real, m as real);
    } else {
      DivideMonotone(b as real, a as real, m as real);
    }
  }

  lemma PositiveRatio(a: int, b: int)
    requires a > 0 && b > 0
    ensures a as real / b as real > 0.0
  {
  }

  lemma CancelCommon(a: real, m: real, c: real)
    requires m > 0.0 && c > 0.0
    ensures (a / c) / (m / c) == a / m
  {
  }

  /** `get_overdue_numbers`: the first `top_n` numbers by descending gap score. */
  function OverdueNumbers(lo: int, hi: int, window: nat, history: seq<seq<int>>, topN: nat): seq<int>
    requires lo <= hi
    requires SumInt(Gaps(lo, hi, window, history)) != 0
  {
    Take(Ranking(GapScores(lo, hi, window, history), lo, true), topN)
  }

  /**
   * The overdue numbers are min(top_n, hi-lo+1) distinct numbers of the range,
   * listed by descending gap, none with a smaller gap than a number left out.
   */
  lemma OverdueNumbersProperties(lo: int, hi: int, window: nat, history: seq<seq<int>>, topN: nat)
    requires lo <= hi
    requires SumInt(Gaps(lo, hi, window, history)) != 0
    ensures var over := OverdueNumbers(lo, hi, window, history, topN);
      var g := Gaps(lo, hi, window, history);
      && |over| == (if topN <= hi - lo + 1 then topN else hi - lo + 1)
      && Distinct(over)
      && (forall x | x in over :: lo <= x <= hi)
      && (forall x, y | x in over && lo <= y <= hi && y !in over :: g[x - lo] >= g[y - lo])
      && (forall a | 0 <= a < |over| :: lo <= over[a] <= hi)
      && forall a, b | 0 <= a < b < |over| ::
           g[over[a] - lo] >= g[over[b] - lo]
  {
    var s := GapScores(lo, hi, window, history);
    var g := Gaps(lo, hi, window, history);
    var over := OverdueNumbers(lo, hi, window, history, topN);
    TopOfRange(s, lo, hi, true, topN);
    TopOfRangeOrdered(s, lo, hi, true, topN);
    forall x, y | x in over && lo <= y <= hi && y !in over ensures g[x - lo] >= g[y - lo] {
      GapOrderFromScores(g, x - lo, y - lo);
    }
    forall a, b | 0 <= a < b < |over| ensures g[over[a] - lo] >= g[over[b] - lo] {
      GapOrderFromScores(g, over[a] - lo, over[b] - lo);
    }
  }

  lemma GapOrderFromScores(g: seq<int>, i: int, j: int)
    requires |g| > 0 && SumInt(g) != 0
    requires forall k | 0 <= k < |g| :: g[k] >= 0
    requires 0 <= i < |g| && 0 <= j < |g|
    requires ScoresOfGaps(g)[i] >= ScoresOfGaps(g)[j]
    ensures g[i] >= g[j]
  {
    ScoresFollowGaps(g);
  }

  /** With no history every number gets gap `window + 1` and score 1. */
  lemma EmptyHistory(lo: int, hi: int, window: nat)
    requires lo <= hi
    ensures forall i | 0 <= i < hi - lo + 1 :: Gaps(lo, hi, window, [])[i] == window + 1
    ensures SumInt(Gaps(lo, hi, window, [])) != 0
    ensures forall i | 0 <= i < hi - lo + 1 :: GapScores(lo, hi, window, [])[i] == 1.0
  {
    var g := Gaps(lo, hi, window, []);
    forall i | 0 <= i < |g| ensures g[i] == window + 1 {
      assert GapOf(Take([], window), window, lo + i) == window + 1;
    }
    MeanGapNonZero(lo, hi, window, []);
    ScoresFollowGaps(g);
    MaxOfConstant(g, window + 1);
    assert g[0] == window + 1;
  }
}
