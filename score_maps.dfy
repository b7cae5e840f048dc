/**
 * Score maps. Every analyzer and scorer returns a dict `{n: score}` whose keys
 * are exactly the numbers lo..hi; here such a map is a `seq<real>` holding the
 * score of number n at offset n - lo, so "the key set is {lo..hi}" becomes
 * "the length is hi - lo + 1". This module holds the two operations the
 * analyzers share: max-normalisation and ranking the numbers by score.
 */
module ScoreMaps {
  import opened Seqs

  /** `range(lo, hi + 1)` */
  function Range(lo: int, hi: int): (r: seq<int>)
    ensures |r| == if lo <= hi then hi - lo + 1 else 0
    ensures forall i | 0 <= i < |r| :: r[i] == lo + i
  {
    seq(if lo <= hi then hi - lo + 1 else 0, i => lo + i)
  }

  /** `x ** k` for a real base and a natural exponent (`0.0 ** 0 == 1.0`, as in Python). */
  function Pow(x: real, k: nat): real {
    if k == 0 then 1.0 else x * Pow(x, k - 1)
  }

  lemma {:induction false} PowNonNegative(x: real, k: nat)
    requires x >= 0.0
    ensures Pow(x, k) >= 0.0
  {
    if k > 0 {
      PowNonNegative(x, k - 1);
    }
  }

  lemma {:induction false} PowPositive(x: real, k: nat)
    requires x > 0.0
    ensures Pow(x, k) > 0.0
  {
    if k > 0 {
      PowPositive(x, k - 1);
    }
  }

  // ---- max-normalisation --------------------------------------------------------

  /** The divisor of `v / (max(scores.values()) or 1.0)`: a zero maximum is replaced by 1. */
  function Divisor(raw: seq<real>): real
    requires |raw| > 0
  {
    var m := MaxOf(raw);
    if m == 0.0 then 1.0 else m
  }

  /** `{n: v / max_score for n, v in scores.items()}` with `max_score = max(scores.values()) or 1.0`. */
  function Normalize(raw: seq<real>): (r: seq<real>)
    requires |raw| > 0
    ensures |r| == |raw|
  {
    var d := Divisor(raw);
    seq(|raw|, i requires 0 <= i < |raw| => raw[i] / d)
  }

  lemma NormalizeAt(raw: seq<real>, i: int)
    requires 0 <= i < |raw|
    ensures Normalize(raw)[i] == raw[i] / Divisor(raw)
  {
  }

  /** Non-negative raw scores normalise into [0, 1]. */
  lemma NormalizeBounds(raw: seq<real>)
    requires |raw| > 0
    requires forall i | 0 <= i < |raw| :: raw[i] >= 0.0
    ensures forall i | 0 <= i < |raw| :: 0.0 <= Normalize(raw)[i] <= 1.0
  {
    var m := MaxOf(raw);
    var r := Normalize(raw);
    forall i | 0 <= i < |raw| ensures 0.0 <= r[i] <= 1.0 {
      NormalizeAt(raw, i);
      if m == 0.0 {
        assert raw[i] == 0.0;
      } else {
        assert 0.0 <= raw[i] <= m;
        DivideBelow(raw[i], m);
      }
    }
  }

  /** A positive raw score makes the maximum positive, so it is the divisor. */
  lemma PositiveMax(raw: seq<real>)
    requires |raw| > 0
    requires exists i | 0 <= i < |raw| :: raw[i] > 0.0
    ensures MaxOf(raw) > 0.0
  {
  }

  lemma DividedByMax(raw: seq<real>)
    requires |raw| > 0
    requires MaxOf(raw) > 0.0
    ensures forall i | 0 <= i < |raw| :: Normalize(raw)[i] == raw[i] / MaxOf(raw)
  {
    forall i | 0 <= i < |raw| ensures Normalize(raw)[i] == raw[i] / MaxOf(raw) {
      NormalizeAt(raw, i);
    }
  }

  lemma ReachesOne(raw: seq<real>)
    requires |raw| > 0
    requires MaxOf(raw) > 0.0
    ensures exists i | 0 <= i < |raw| :: Normalize(raw)[i] == 1.0
  {
    var m := MaxOf(raw);
    var k :| 0 <= k < |raw| && raw[k] == m;
    NormalizeAt(raw, k);
    DivideSelf(m);
    assert Normalize(raw)[k] == 1.0;
  }

  /**
   * When some raw score is positive, each score is divided by the maximum, so
   * the scores reach exactly 1 at a number of maximal raw score.
   */
  lemma NormalizeByMax(raw: seq<real>)
    requires |raw| > 0
    requires exists i | 0 <= i < |raw| :: raw[i] > 0.0
    ensures MaxOf(raw) > 0.0
    ensures forall i | 0 <= i < |raw| :: Normalize(raw)[i] == raw[i] / MaxOf(raw)
    ensures exists i | 0 <= i < |raw| :: Normalize(raw)[i] == 1.0
  {
    PositiveMax(raw);
    DividedByMax(raw);
    ReachesOne(raw);
  }

  lemma DivideBelow(a: real, m: real)
    requires 0.0 <= a <= m && m > 0.0
    ensures 0.0 <= a / m <= 1.0
  {
    calc {
      a / m;
    <=
      m / m;
    ==
      1.0;
    }
  }

  /** Dividing by the same positive number keeps the order of two values. */
  lemma DivideMonotone(a: real, b: real, d: real)
    requires d > 0.0 && a <= b
    ensures a / d <= b / d
    ensures a < b ==> a / d < b / d
  {
  }

  lemma DivideSelf(d: real)
    requires d > 0.0
    ensures d / d == 1.0
  {
  }

  /** Positive raw scores normalise into (0, 1], and the largest becomes exactly 1. */
  lemma NormalizePositive(raw: seq<real>)
    requires |raw| > 0
    requires forall i | 0 <= i < |raw| :: raw[i] > 0.0
    ensures forall i | 0 <= i < |raw| :: 0.0 < Normalize(raw)[i] <= 1.0
    ensures exists i | 0 <= i < |raw| :: Normalize(raw)[i] == 1.0
  {
    assert raw[0] > 0.0;
    NormalizeByMax(raw);
    NormalizeBounds(raw);
  }

  // ---- ranking numbers by score -------------------------------------------------

  /** `scores[n]` for a number n of the range (0 outside it, where no ranking looks). */
  function ScoreAt(scores: seq<real>, lo: int, n: int): real {
    if lo <= n < lo + |scores| then scores[n - lo] else 0.0
  }

  /**
   * Whether Python's stable `sorted(range(lo, hi + 1), key=lambda n: scores[n],
   * reverse=desc)` places number a before number b: by score (descending when
   * `desc`), and between equal scores by input order, which is ascending.
   */
  predicate Ahead(scores: seq<real>, lo: int, desc: bool, a: int, b: int) {
    var sa := ScoreAt(scores, lo, a);
    var sb := ScoreAt(scores, lo, b);
    (if desc then sa > sb else sa < sb) || (sa == sb && a < b)
  }

  lemma AheadTransitive(scores: seq<real>, lo: int, desc: bool, a: int, b: int, c: int)
    requires Ahead(scores, lo, desc, a, b) && Ahead(scores, lo, desc, b, c)
    ensures Ahead(scores, lo, desc, a, c)
  {
  }

  lemma AheadTotal(scores: seq<real>, lo: int, desc: bool, a: int, b: int)
    requires a != b && !Ahead(scores, lo, desc, a, b)
    ensures Ahead(scores, lo, desc, b, a)
  {
  }

  predicate Ranked(scores: seq<real>, lo: int, desc: bool, s: seq<int>) {
    forall i, j | 0 <= i < j < |s| :: Ahead(scores, lo, desc, s[i], s[j])
  }

  function InsertRanked(scores: seq<real>, lo: int, desc: bool, x: int, s: seq<int>): (r: seq<int>)
    requires Ranked(scores, lo, desc, s) && x !in s
    ensures multiset(r) == multiset(s) + multiset{x}
    ensures Ranked(scores, lo, desc, r)
  {
    if |s| == 0 then [x]
    else if Ahead(scores, lo, desc, x, s[0]) then
      AheadOfHead(scores, lo, desc, x, s);
      [x] + s
    else
      assert s == [s[0]] + s[1..];
      var t := InsertRanked(scores, lo, desc, x, s[1..]);
      HeadAheadOfInsert(scores, lo, desc, x, s, t);
      [s[0]] + t
  }

  /** A number ahead of the head of a ranked list may go first. */
  lemma AheadOfHead(scores: seq<real>, lo: int, desc: bool, x: int, s: seq<int>)
    requires Ranked(scores, lo, desc, s) && |s| > 0 && Ahead(scores, lo, desc, x, s[0])
    ensures Ranked(scores, lo, desc, [x] + s)
  {
    forall j | 0 < j < |s| ensures Ahead(scores, lo, desc, x, s[j]) {
      AheadTransitive(scores, lo, desc, x, s[0], s[j]);
    }
  }

  /** The head stays ahead of everything once a number behind it is inserted into the tail. */
  lemma HeadAheadOfInsert(scores: seq<real>, lo: int, desc: bool, x: int, s: seq<int>, t: seq<int>)
    requires Ranked(scores, lo, desc, s) && |s| > 0 && x !in s && !Ahead(scores, lo, desc, x, s[0])
    requires multiset(t) == multiset(s[1..]) + multiset{x}
    requires Ranked(scores, lo, desc, t)
    ensures Ranked(scores, lo, desc, [s[0]] + t)
  {
    AheadTotal(scores, lo, desc, x, s[0]);
    forall j | 0 <= j < |t| ensures Ahead(scores, lo, desc, s[0], t[j]) {
      var y := t[j];
      assert y in multiset(t);
      if y != x {
        assert y in multiset(s[1..]);
        var k :| 0 <= k < |s[1..]| && s[1..][k] == y;
        assert s[k + 1] == y;
      }
    }
  }

  /** Insertion sort by `Ahead`: the ranking of a list of distinct numbers. */
  function RankBy(scores: seq<real>, lo: int, desc: bool, s: seq<int>): (r: seq<int>)
    requires Distinct(s)
    ensures multiset(r) == multiset(s)
    ensures Ranked(scores, lo, desc, r)
  {
    if |s| == 0 then []
    else
      assert s == [s[0]] + s[1..];
      var t := RankBy(scores, lo, desc, s[1..]);
      assert s[0] !in t by {
        assert s[0] !in s[1..];
        assert s[0] !in multiset(t);
      }
      InsertRanked(scores, lo, desc, s[0], t)
  }

  /** `sorted(scores, key=lambda n: scores[n], reverse=desc)` over all numbers lo..lo+|scores|-1. */
  function Ranking(scores: seq<real>, lo: int, desc: bool): seq<int> {
    RankBy(scores, lo, desc, Range(lo, lo + |scores| - 1))
  }

  /**
   * The ranking lists every number of the range exactly once, ordered by score
   * (descending when `desc`, ascending otherwise) with ties in ascending order.
   */
  lemma RankingIsOrderedPermutation(scores: seq<real>, lo: int, desc: bool)
    ensures |Ranking(scores, lo, desc)| == |scores|
    ensures Distinct(Ranking(scores, lo, desc))
    ensures forall n :: n in Ranking(scores, lo, desc) <==> lo <= n < lo + |scores|
    ensures Ranked(scores, lo, desc, Ranking(scores, lo, desc))
  {
    var s := Range(lo, lo + |scores| - 1);
    var r := Ranking(scores, lo, desc);
    assert |r| == |s| by {
      assert |r| == |multiset(r)|;
      assert |s| == |multiset(s)|;
    }
    forall n ensures n in r <==> lo <= n < lo + |scores| {
      assert n in r <==> n in multiset(r);
      assert n in s <==> n in multiset(s);
      if lo <= n < lo + |scores| {
        assert s[n - lo] == n;
      }
    }
    forall i, j | 0 <= i < j < |r| ensures r[i] != r[j] {
      assert Ahead(scores, lo, desc, r[i], r[j]);
    }
  }

  /** In a ranking, an earlier number's score is at least (descending) or at most (ascending) a later one's. */
  lemma RankedScores(scores: seq<real>, lo: int, desc: bool, r: seq<int>, i: int, j: int)
    requires Ranked(scores, lo, desc, r) && 0 <= i < j < |r|
    ensures desc ==> ScoreAt(scores, lo, r[i]) >= ScoreAt(scores, lo, r[j])
    ensures !desc ==> ScoreAt(scores, lo, r[i]) <= ScoreAt(scores, lo, r[j])
  {
    assert Ahead(scores, lo, desc, r[i], r[j]);
  }

  /**
   * `sorted(...)[:k]`: the first k numbers of a ranking (or all of them); none
   * of them ranks behind, so none scores worse than, a number left out.
   */
  lemma TopOfRanking(scores: seq<real>, lo: int, desc: bool, k: nat)
    ensures |Take(Ranking(scores, lo, desc), k)| == if k <= |scores| then k else |scores|
    ensures forall x, y | x in Take(Ranking(scores, lo, desc), k) && lo <= y < lo + |scores|
                          && y !in Take(Ranking(scores, lo, desc), k) ::
      lo <= x < lo + |scores| && Ahead(scores, lo, desc, x, y)
  {
    RankingIsOrderedPermutation(scores, lo, desc);
    TopOfRanked(scores, lo, desc, Ranking(scores, lo, desc), k);
  }

  lemma TopOfRanked(scores: seq<real>, lo: int, desc: bool, r: seq<int>, k: nat)
    requires Ranked(scores, lo, desc, r)
    requires forall n :: n in r <==> lo <= n < lo + |scores|
    ensures forall x, y | x in Take(r, k) && lo <= y < lo + |scores| && y !in Take(r, k) ::
      lo <= x < lo + |scores| && Ahead(scores, lo, desc, x, y)
  {
    var t := Take(r, k);
    forall x, y | x in t && lo <= y < lo + |scores| && y !in t
      ensures lo <= x < lo + |scores| && Ahead(scores, lo, desc, x, y)
    {
      var i :| 0 <= i < |t| && t[i] == x;
      assert r[i] == x;
      assert x in r;
      assert y in r;
      var j :| 0 <= j < |r| && r[j] == y;
      assert forall q | 0 <= q < |t| :: t[q] == r[q] && t[q] in t;
      assert i < j;
    }
  }

  /**
   * `sorted(scores, key=..., reverse=desc)[:k]`: min(k, |scores|) distinct numbers
   * of the range, none scoring worse (lower when `desc`, higher otherwise) than
   * a number of the range left out.
   */
  lemma TopByScore(scores: seq<real>, lo: int, desc: bool, k: nat)
    ensures |Take(Ranking(scores, lo, desc), k)| == if k <= |scores| then k else |scores|
    ensures Distinct(Take(Ranking(scores, lo, desc), k))
    ensures forall x | x in Take(Ranking(scores, lo, desc), k) :: lo <= x < lo + |scores|
    ensures forall x, y | x in Take(Ranking(scores, lo, desc), k) && lo <= y < lo + |scores|
                          && y !in Take(Ranking(scores, lo, desc), k) ::
      if desc then ScoreAt(scores, lo, x) >= ScoreAt(scores, lo, y)
      else ScoreAt(scores, lo, x) <= ScoreAt(scores, lo, y)
  {
    var r := Ranking(scores, lo, desc);
    var t := Take(r, k);
    RankingIsOrderedPermutation(scores, lo, desc);
    TopOfRanking(scores, lo, desc, k);
    forall i, j | 0 <= i < j < |t| ensures t[i] != t[j] {
      assert t[i] == r[i] && t[j] == r[j];
    }
    forall x | x in t ensures lo <= x < lo + |scores| {
      assert x in r;
    }
    forall x, y | x in t && lo <= y < lo + |scores| && y !in t
      ensures if desc then ScoreAt(scores, lo, x) >= ScoreAt(scores, lo, y)
              else ScoreAt(scores, lo, x) <= ScoreAt(scores, lo, y)
    {
      AheadScores(scores, lo, desc, x, y);
    }
  }

  /** A number ahead of another scores no worse. */
  lemma AheadScores(scores: seq<real>, lo: int, desc: bool, a: int, b: int)
    requires Ahead(scores, lo, desc, a, b)
    ensures if desc then ScoreAt(scores, lo, a) >= ScoreAt(scores, lo, b)
            else ScoreAt(scores, lo, a) <= ScoreAt(scores, lo, b)
  {
  }

  /** `TopByScore` for the map of lo..hi, with scores read off by index. */
  lemma TopOfRange(scores: seq<real>, lo: int, hi: int, desc: bool, k: nat)
    requires |scores| == hi - lo + 1
    ensures |Take(Ranking(scores, lo, desc), k)| == if k <= hi - lo + 1 then k else hi - lo + 1
    ensures Distinct(Take(Ranking(scores, lo, desc), k))
    ensures forall x | x in Take(Ranking(scores, lo, desc), k) :: lo <= x <= hi
    ensures forall x, y | x in Take(Ranking(scores, lo, desc), k) && lo <= y <= hi
                          && y !in Take(Ranking(scores, lo, desc), k) ::
      if desc then scores[x - lo] >= scores[y - lo] else scores[x - lo] <= scores[y - lo]
  {
    var top := Take(Ranking(scores, lo, desc), k);
    TopByScore(scores, lo, desc, k);
    forall x, y | x in top && lo <= y <= hi && y !in top
      ensures if desc then scores[x - lo] >= scores[y - lo] else scores[x - lo] <= scores[y - lo]
    {
      ScoreAtIndex(scores, lo, x);
      ScoreAtIndex(scores, lo, y);
    }
  }

  /** `sorted(...)[:k]` is itself listed by score: descending when `desc`, ascending otherwise. */
  lemma TopOfRangeOrdered(scores: seq<real>, lo: int, hi: int, desc: bool, k: nat)
    requires |scores| == hi - lo + 1
    ensures var top := Take(Ranking(scores, lo, desc), k);
      && (forall a | 0 <= a < |top| :: lo <= top[a] <= hi)
      && forall a, b | 0 <= a < b < |top| ::
           && (desc ==> scores[top[a] - lo] >= scores[top[b] - lo])
           && (!desc ==> scores[top[a] - lo] <= scores[top[b] - lo])
  {
    var top := Take(Ranking(scores, lo, desc), k);
    forall a | 0 <= a < |top| ensures lo <= top[a] <= hi {
      TopInRange(scores, lo, hi, desc, k, a);
    }
    forall a, b | 0 <= a < b < |top|
      ensures desc ==> scores[top[a] - lo] >= scores[top[b] - lo]
      ensures !desc ==> scores[top[a] - lo] <= scores[top[b] - lo]
    {
      TopPairOrdered(scores, lo, hi, desc, k, a, b);
    }
  }

  lemma TopInRange(scores: seq<real>, lo: int, hi: int, desc: bool, k: nat, a: nat)
    requires |scores| == hi - lo + 1
    requires a < |Take(Ranking(scores, lo, desc), k)|
    ensures lo <= Take(Ranking(scores, lo, desc), k)[a] <= hi
  {
    var r := Ranking(scores, lo, desc);
    RankingIsOrderedPermutation(scores, lo, desc);
    assert Take(r, k)[a] == r[a];
    assert r[a] in r;
  }

  lemma TopPairOrdered(scores: seq<real>, lo: int, hi: int, desc: bool, k: nat, a: nat, b: nat)
    requires |scores| == hi - lo + 1
    requires a < b < |Take(Ranking(scores, lo, desc), k)|
    ensures var top := Take(Ranking(scores, lo, desc), k);
      && lo <= top[a] <= hi && lo <= top[b] <= hi
      && (desc ==> scores[top[a] - lo] >= scores[top[b] - lo])
      && (!desc ==> scores[top[a] - lo] <= scores[top[b] - lo])
  {
    var r := Ranking(scores, lo, desc);
    var top := Take(r, k);
    RankingIsOrderedPermutation(scores, lo, desc);
    assert top[a] == r[a] && top[b] == r[b];
    assert r[a] in r && r[b] in r;
    RankedScores(scores, lo, desc, r, a, b);
    ScoreAtIndex(scores, lo, r[a]);
    ScoreAtIndex(scores, lo, r[b]);
  }

  lemma ScoreAtIndex(scores: seq<real>, lo: int, n: int)
    requires lo <= n < lo + |scores|
    ensures ScoreAt(scores, lo, n) == scores[n - lo]
  {
  }
}
