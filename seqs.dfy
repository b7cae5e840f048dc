/**
 * Sequence helpers shared by the analyzers, the pipeline and the crawlers:
 * distinctness, reversal, Python's `sorted` on integers (with and without
 * duplicates), sums and maxima.
 */
module Seqs {

  predicate Distinct<T(==)>(s: seq<T>) {
    forall i, j | 0 <= i < j < |s| :: s[i] != s[j]
  }

  predicate SortedAsc(s: seq<int>) {
    forall i, j | 0 <= i < j < |s| :: s[i] <= s[j]
  }

  predicate StrictlyAsc(s: seq<int>) {
    forall i, j | 0 <= i < j < |s| :: s[i] < s[j]
  }

  function Elems<T>(s: seq<T>): set<T> {
    set x | x in s
  }

  /** Python's `s[::-1]` and `list(reversed(s))`. */
  function Reverse<T>(s: seq<T>): (r: seq<T>)
    ensures |r| == |s|
    ensures forall i | 0 <= i < |s| :: r[i] == s[|s| - 1 - i]
  {
    if |s| == 0 then [] else Reverse(s[1..]) + [s[0]]
  }

  /** Python's `s[:k]` for k >= 0. */
  function Take<T>(s: seq<T>, k: nat): (r: seq<T>)
    ensures |r| == if k <= |s| then k else |s|
    ensures forall i | 0 <= i < |r| :: r[i] == s[i]
  {
    if k <= |s| then s[..k] else s
  }

  /** `len(set(s))` never exceeds `len(s)`, and equals it exactly when `s` has no duplicates. */
  lemma {:induction false} DistinctCardinality<T>(s: seq<T>)
    ensures |Elems(s)| <= |s|
    ensures |Elems(s)| == |s| <==> Distinct(s)
  {
    if |s| > 0 {
      var t := s[1..];
      DistinctCardinality(t);
      assert Elems(s) == {s[0]} + Elems(t);
      if s[0] in t {
        assert Elems(s) == Elems(t);
        var k :| 0 <= k < |t| && t[k] == s[0];
        assert s[0] == s[k + 1];
        assert !Distinct(s);
      } else {
        assert s[0] !in Elems(t);
        assert |Elems(s)| == |Elems(t)| + 1;
        if Distinct(t) {
          forall i, j | 0 <= i < j < |s| ensures s[i] != s[j] {
            if i > 0 { assert s[i] == t[i - 1] && s[j] == t[j - 1]; } else { assert s[j] in t; }
          }
        } else {
          var i, j :| 0 <= i < j < |t| && t[i] == t[j];
          assert s[i + 1] == s[j + 1];
        }
      }
    }
  }

  /**
   * A list whose values all occur in `big` but which has fewer distinct values
   * than `big` misses one of `big`'s elements.
   */
  lemma SomeNotIn<T>(small: seq<T>, big: seq<T>)
    requires forall i | 0 <= i < |small| :: small[i] in big
    requires |Elems(small)| < |Elems(big)|
    ensures exists k | 0 <= k < |big| :: big[k] !in small
  {
    var missing := Elems(big) - Elems(small);
    assert Elems(big) <= missing + Elems(small);
    assert |missing| > 0;
    var x :| x in missing;
    var k :| 0 <= k < |big| && big[k] == x;
  }

  // ---- Python's sorted() on a list of ints -------------------------------------

  function InsertAsc(x: int, s: seq<int>): (r: seq<int>)
    requires SortedAsc(s)
    ensures multiset(r) == multiset(s) + multiset{x}
    ensures SortedAsc(r)
  {
    if |s| == 0 then [x]
    else if x <= s[0] then [x] + s
    else
      var t := InsertAsc(x, s[1..]);
      assert s == [s[0]] + s[1..];
      HeadBelowInsert(x, s, t);
      [s[0]] + t
  }

  /** Inserting a value above the head of a sorted list into its tail keeps the head below everything. */
  lemma HeadBelowInsert(x: int, s: seq<int>, t: seq<int>)
    requires SortedAsc(s) && |s| > 0 && s[0] < x
    requires multiset(t) == multiset(s[1..]) + multiset{x}
    requires SortedAsc(t)
    ensures SortedAsc([s[0]] + t)
  {
    forall j | 0 <= j < |t| ensures s[0] <= t[j] {
      var y := t[j];
      assert y in multiset(t);
      if y != x {
        assert y in multiset(s[1..]);
        assert y in s[1..];
      }
    }
  }

  /** `sorted(s)`: the ascending permutation of `s`. */
  function SortAsc(s: seq<int>): (r: seq<int>)
    ensures SortedAsc(r)
    ensures multiset(r) == multiset(s)
  {
    if |s| == 0 then []
    else
      assert s == [s[0]] + s[1..];
      InsertAsc(s[0], SortAsc(s[1..]))
  }

  /** `sorted(s)` keeps the length and the values of `s`. */
  lemma SortAscMembers(s: seq<int>)
    ensures |SortAsc(s)| == |s|
    ensures forall x :: x in SortAsc(s) <==> x in s
  {
    var r := SortAsc(s);
    assert |r| == |multiset(r)| == |multiset(s)| == |s|;
    forall x ensures x in r <==> x in s {
      assert x in r <==> x in multiset(r);
      assert x in s <==> x in multiset(s);
    }
  }

  /** There is only one ascending permutation of a list, so `SortAsc` is Python's `sorted`. */
  lemma {:induction false} SortedPermutationUnique(a: seq<int>, b: seq<int>)
    requires SortedAsc(a) && SortedAsc(b)
    requires multiset(a) == multiset(b)
    ensures a == b
  {
    if |a| > 0 {
      assert |b| == |multiset(b)| == |a|;
      assert a[0] in multiset(b) && b[0] in multiset(a);
      SortedHeadIsLeast(b, a[0]);
      SortedHeadIsLeast(a, b[0]);
      assert a[0] == b[0];
      assert a == [a[0]] + a[1..] && b == [b[0]] + b[1..];
      assert multiset(a) == multiset{a[0]} + multiset(a[1..]);
      assert multiset(b) == multiset{a[0]} + multiset(b[1..]);
      MultisetCancel(a[0], multiset(a[1..]), multiset(b[1..]));
      SortedPermutationUnique(a[1..], b[1..]);
    }
  }

  lemma MultisetCancel(x: int, p: multiset<int>, q: multiset<int>)
    requires multiset{x} + p == multiset{x} + q
    ensures p == q
  {
    forall y ensures p[y] == q[y] {
      assert (multiset{x} + p)[y] == (multiset{x} + q)[y];
    }
  }

  lemma SortedHeadIsLeast(s: seq<int>, x: int)
    requires SortedAsc(s) && x in multiset(s)
    ensures s[0] <= x
  {
    assert x in s;
    var j :| 0 <= j < |s| && s[j] == x;
    if j > 0 {
      assert s[0] <= s[j];
    }
  }

  /** Sorting a distinct list yields a strictly ascending one. */
  lemma SortDistinct(s: seq<int>)
    requires Distinct(s)
    ensures StrictlyAsc(SortAsc(s))
    ensures Elems(SortAsc(s)) == Elems(s)
  {
    var r := SortAsc(s);
    assert Elems(r) == Elems(s) by {
      forall x ensures x in Elems(r) <==> x in Elems(s) {
        assert x in r <==> x in multiset(r);
        assert x in s <==> x in multiset(s);
      }
    }
    assert |r| == |s| by {
      assert |r| == |multiset(r)|;
      assert |s| == |multiset(s)|;
    }
    DistinctCardinality(s);
    DistinctCardinality(r);
  }

  // ---- sorted(set(s)) -----------------------------------------------------------

  function InsertUnique(x: int, s: seq<int>): (r: seq<int>)
    requires StrictlyAsc(s)
    ensures StrictlyAsc(r)
    ensures Elems(r) == Elems(s) + {x}
  {
    if |s| == 0 then [x]
    else if x < s[0] then [x] + s
    else if x == s[0] then s
    else
      var t := InsertUnique(x, s[1..]);
      HeadBelowInsertUnique(x, s, t);
      [s[0]] + t
  }

  lemma HeadBelowInsertUnique(x: int, s: seq<int>, t: seq<int>)
    requires StrictlyAsc(s) && |s| > 0 && s[0] < x
    requires Elems(t) == Elems(s[1..]) + {x}
    requires StrictlyAsc(t)
    ensures StrictlyAsc([s[0]] + t)
    ensures Elems([s[0]] + t) == Elems(s) + {x}
  {
    forall j | 0 <= j < |t| ensures s[0] < t[j] {
      assert t[j] in Elems(t);
    }
    assert s == [s[0]] + s[1..];
    ElemsConcat([s[0]], t);
    ElemsConcat([s[0]], s[1..]);
  }

  lemma ElemsConcat<T>(a: seq<T>, b: seq<T>)
    ensures Elems(a + b) == Elems(a) + Elems(b)
  {
    forall y ensures y in Elems(a + b) <==> y in Elems(a) || y in Elems(b) {
      assert y in a + b <==> y in a || y in b;
    }
  }

  /** `sorted(set(s))`: the strictly ascending list of the values in `s`. */
  function SortedSet(s: seq<int>): (r: seq<int>)
    ensures StrictlyAsc(r)
    ensures Elems(r) == Elems(s)
  {
    if |s| == 0 then []
    else
      assert Elems(s) == {s[0]} + Elems(s[1..]);
      InsertUnique(s[0], SortedSet(s[1..]))
  }

  lemma StrictlyAscDistinct(s: seq<int>)
    requires StrictlyAsc(s)
    ensures Distinct(s) && SortedAsc(s)
  {
  }

  // ---- sums and maxima ----------------------------------------------------------

  function SumReal(s: seq<real>): real {
    if |s| == 0 then 0.0 else SumReal(s[..|s| - 1]) + s[|s| - 1]
  }

  function SumInt(s: seq<int>): int {
    if |s| == 0 then 0 else SumInt(s[..|s| - 1]) + s[|s| - 1]
  }

  /** `max(s)` over a non-empty list of reals. */
  function MaxOf(s: seq<real>): (m: real)
    requires |s| > 0
    ensures forall i | 0 <= i < |s| :: s[i] <= m
    ensures exists i | 0 <= i < |s| :: s[i] == m
  {
    if |s| == 1 then s[0]
    else
      var t := MaxOf(s[..|s| - 1]);
      assert forall i | 0 <= i < |s| - 1 :: s[..|s| - 1][i] == s[i];
      if s[|s| - 1] > t then s[|s| - 1] else t
  }

  /** The maximum is the only value that bounds every element and occurs in the list. */
  lemma MaxOfUnique(s: seq<real>, m: real)
    requires |s| > 0
    requires forall i | 0 <= i < |s| :: s[i] <= m
    requires exists i | 0 <= i < |s| :: s[i] == m
    ensures MaxOf(s) == m
  {
  }

  /** `max(s)` over a non-empty list of integers. */
  function MaxInt(s: seq<int>): (m: int)
    requires |s| > 0
    ensures forall i | 0 <= i < |s| :: s[i] <= m
    ensures exists i | 0 <= i < |s| :: s[i] == m
  {
    if |s| == 1 then s[0]
    else
      var t := MaxInt(s[..|s| - 1]);
      assert forall i | 0 <= i < |s| - 1 :: s[..|s| - 1][i] == s[i];
      if s[|s| - 1] > t then s[|s| - 1] else t
  }

  lemma {:induction false} ZeroSum(s: seq<int>)
    requires forall i | 0 <= i < |s| :: s[i] == 0
    ensures SumInt(s) == 0
  {
    if |s| > 0 {
      ZeroSum(s[..|s| - 1]);
    }
  }

  /** Adding one to a single entry adds one to the sum. */
  lemma {:induction false} SumIntBump(s: seq<int>, t: seq<int>, k: int)
    requires |s| == |t| && 0 <= k < |s|
    requires t[k] == s[k] + 1
    requires forall j | 0 <= j < |s| && j != k :: t[j] == s[j]
    ensures SumInt(t) == SumInt(s) + 1
  {
    var last := |s| - 1;
    if k == last {
      assert s[..last] == t[..last];
    } else {
      SumIntBump(s[..last], t[..last], k);
    }
  }

  /** The sum of k copies of c. */
  lemma {:induction false} SumRealConst(k: nat, c: real)
    ensures SumReal(seq(k, _ => c)) == k as real * c
  {
    if k > 0 {
      assert seq(k, _ => c)[..k - 1] == seq(k - 1, _ => c);
      SumRealConst(k - 1, c);
    }
  }

  /** Dividing every entry by t divides the sum by t. */
  lemma {:induction false} SumRealDivided(s: seq<int>, t: real)
    requires t != 0.0
    ensures SumReal(seq(|s|, i requires 0 <= i < |s| => s[i] as real / t)) == SumInt(s) as real / t
  {
    var r := seq(|s|, i requires 0 <= i < |s| => s[i] as real / t);
    if |s| > 0 {
      var init := s[..|s| - 1];
      assert r[..|s| - 1] == seq(|init|, i requires 0 <= i < |init| => init[i] as real / t);
      SumRealDivided(init, t);
      assert SumReal(r) == SumInt(init) as real / t + s[|s| - 1] as real / t;
    }
  }

  /** Two duplicate-free lists with no common element concatenate to a duplicate-free list. */
  lemma ConcatDistinct<T>(a: seq<T>, b: seq<T>)
    requires Distinct(a) && Distinct(b)
    requires forall i, j | 0 <= i < |a| && 0 <= j < |b| :: a[i] != b[j]
    ensures Distinct(a + b)
  {
    var c := a + b;
    forall i, j | 0 <= i < j < |c| ensures c[i] != c[j] {
      if j < |a| {
        assert c[i] == a[i] && c[j] == a[j];
      } else if i >= |a| {
        assert c[i] == b[i - |a|] && c[j] == b[j - |a|];
      } else {
        assert c[i] == a[i] && c[j] == b[j - |a|];
      }
    }
  }

  /** k equal shares of 1/k add up to 1. */
  lemma EvenSharesSumToOne(k: nat)
    requires k > 0
    ensures SumReal(seq(k, _ => 1.0 / k as real)) == 1.0
  {
    SumRealConst(k, 1.0 / k as real);
  }

  /** Counts divided by their own total add up to 1. */
  lemma SharesSumToOne(c: seq<int>, total: int)
    requires total > 0 && SumInt(c) == total
    ensures SumReal(seq(|c|, i requires 0 <= i < |c| => c[i] as real / total as real)) == 1.0
  {
    SumRealDivided(c, total as real);
    var t := total as real;
    assert SumInt(c) as real == t;
    assert t / t == 1.0;
  }

  /** A sum of non-negative integers with one positive term is positive. */
  lemma {:induction false} SumIntPositive(s: seq<int>, k: int)
    requires forall i | 0 <= i < |s| :: s[i] >= 0
    requires 0 <= k < |s| && s[k] > 0
    ensures SumInt(s) > 0
  {
    var last := |s| - 1;
    if k < last {
      SumIntPositive(s[..last], k);
    } else {
      SumIntNonNegative(s[..last]);
    }
  }

  lemma {:induction false} SumIntNonNegative(s: seq<int>)
    requires forall i | 0 <= i < |s| :: s[i] >= 0
    ensures SumInt(s) >= 0
  {
    if |s| > 0 {
      SumIntNonNegative(s[..|s| - 1]);
    }
  }

  lemma MaxOfConstant(s: seq<int>, c: int)
    requires |s| > 0 && forall i | 0 <= i < |s| :: s[i] == c
    ensures MaxInt(s) == c
  {
  }

  /** A non-negative sequence with a non-zero sum has a positive maximum. */
  lemma MaxIntPositive(s: seq<int>)
    requires |s| > 0 && SumInt(s) != 0
    requires forall i | 0 <= i < |s| :: s[i] >= 0
    ensures MaxInt(s) > 0
  {
    if MaxInt(s) <= 0 {
      ZeroSum(s);
    }
  }

  /** Dividing every real entry by t divides the sum by t. */
  lemma {:induction false} SumRealScaled(s: seq<real>, t: real)
    requires t != 0.0
    ensures SumReal(seq(|s|, i requires 0 <= i < |s| => s[i] / t)) == SumReal(s) / t
  {
    var r := seq(|s|, i requires 0 <= i < |s| => s[i] / t);
    if |s| > 0 {
      var init := s[..|s| - 1];
      assert r[..|s| - 1] == seq(|init|, i requires 0 <= i < |init| => init[i] / t);
      SumRealScaled(init, t);
      assert SumReal(r) == SumReal(init) / t + s[|s| - 1] / t;
    }
  }

  /** Values divided by their own positive sum add up to 1. */
  lemma ProportionsSumToOne(s: seq<real>)
    requires SumReal(s) > 0.0
    ensures SumReal(seq(|s|, i requires 0 <= i < |s| => s[i] / SumReal(s))) == 1.0
  {
    var t := SumReal(s);
    SumRealScaled(s, t);
    assert t / t == 1.0;
  }

  /** A non-empty sum of positive reals is positive. */
  lemma {:induction false} SumRealPositive(s: seq<real>)
    requires |s| > 0
    requires forall i | 0 <= i < |s| :: s[i] > 0.0
    ensures SumReal(s) > 0.0
  {
    if |s| > 1 {
      SumRealPositive(s[..|s| - 1]);
    }
  }
}
