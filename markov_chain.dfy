/**
 * MarkovChain: counts, for every previous-draw set, how often each number
 * appeared in the draw that followed it, and scores the numbers after the most
 * recent draw by Laplace-smoothed transition frequency, normalised to sum 1.
 * States are saved under the string spelling of their frozenset and parsed
 * back on load.
 */
module MarkovChain {
  import opened Wrappers
  import opened Seqs
  import opened Text

  /** `transition_counts[key]`: the numbers seen after state `key`, with multiplicity. */
  function CountsOf(counts: map<set<int>, multiset<int>>, key: set<int>): multiset<int> {
    if key in counts then counts[key] else multiset{}
  }

  /** `total_transitions.get(key, 0)`. */
  function TotalOf(totals: map<set<int>, int>, key: set<int>): int {
    if key in totals then totals[key] else 0
  }

  /** Every state's total equals the sum of its per-number counts. */
  predicate Consistent(counts: map<set<int>, multiset<int>>, totals: map<set<int>, int>) {
    && counts.Keys <= totals.Keys
    && forall k | k in totals :: totals[k] == |CountsOf(counts, k)|
  }

  /** The transition table: the two dictionaries `train` fills. */
  datatype Table = Table(counts: map<set<int>, multiset<int>>, totals: map<set<int>, int>)

  /**
   * The index `i - 1` of the previous draw in the oldest-first list; with
   * `order` 0 the first step reads index -1, which Python takes as the last
   * (newest) draw.
   */
  function PrevIndex(i: nat, n: nat): (p: nat)
    requires i < n
    ensures p < n
  {
    if i > 0 then i - 1 else n - 1
  }

  /** One step of `train`: after state `key` the draw `cur` followed. */
  function Record(t: Table, key: set<int>, cur: seq<int>): Table {
    Table(
      if |cur| > 0 then t.counts[key := CountsOf(t.counts, key) + multiset(cur)] else t.counts,
      t.totals[key := TotalOf(t.totals, key) + |cur|])
  }

  /** The table after `train`'s loop has handled the steps i = order .. upTo-1 of `chron`. */
  function TrainUpTo(t: Table, chron: seq<seq<int>>, order: nat, upTo: nat): Table
    requires upTo <= |chron|
    decreases upTo
  {
    if upTo <= order then t
    else
      var i := upTo - 1;
      Record(TrainUpTo(t, chron, order, i), Elems(chron[PrevIndex(i, |chron|)]), chron[i])
  }

  /** Reference count: how many times `num` occurred in a draw that followed a draw with number set `key`. */
  function Followed(chron: seq<seq<int>>, order: nat, upTo: nat, key: set<int>, num: int): nat
    requires upTo <= |chron|
    decreases upTo
  {
    if upTo <= order then 0
    else
      var i := upTo - 1;
      Followed(chron, order, i, key, num)
        + (if Elems(chron[PrevIndex(i, |chron|)]) == key then multiset(chron[i])[num] else 0)
  }

  lemma RecordConsistent(t: Table, key: set<int>, cur: seq<int>)
    requires Consistent(t.counts, t.totals)
    ensures Consistent(Record(t, key, cur).counts, Record(t, key, cur).totals)
  {
    var r := Record(t, key, cur);
    forall k | k in r.totals ensures r.totals[k] == |CountsOf(r.counts, k)| {
      if k != key {
        assert CountsOf(r.counts, k) == CountsOf(t.counts, k);
      }
    }
  }

  /** Training keeps every state's total equal to the sum of its counts. */
  lemma {:induction false} TrainConsistent(t: Table, chron: seq<seq<int>>, order: nat, upTo: nat)
    requires upTo <= |chron|
    requires Consistent(t.counts, t.totals)
    ensures var r := TrainUpTo(t, chron, order, upTo); Consistent(r.counts, r.totals)
    decreases upTo
  {
    if upTo > order {
      var i := upTo - 1;
      TrainConsistent(t, chron, order, i);
      RecordConsistent(TrainUpTo(t, chron, order, i), Elems(chron[PrevIndex(i, |chron|)]), chron[i]);
    }
  }

  /** Training adds to the existing counts: each count grows by exactly the observed transitions. */
  lemma {:induction false} TrainCounts(t: Table, chron: seq<seq<int>>, order: nat, upTo: nat, key: set<int>, num: int)
    requires upTo <= |chron|
    ensures CountsOf(TrainUpTo(t, chron, order, upTo).counts, key)[num]
      == CountsOf(t.counts, key)[num] + Followed(chron, order, upTo, key, num)
    decreases upTo
  {
    if upTo > order {
      var i := upTo - 1;
      TrainCounts(t, chron, order, i, key, num);
    }
  }

  /** `state_total + smoothing * n_numbers`. */
  function Denominator(stateTotal: int, s: real, n: nat): real {
    stateTotal as real + s * n as real
  }

  /** The Laplace-smoothed probability `(count + smoothing) / denominator` of one number. */
  function Prob(count: nat, s: real, denom: real): real
    requires denom != 0.0
  {
    (count as real + s) / denom
  }

  /** The smoothed probabilities of lo..lo+n-1 after a state with counts `c`. */
  function Smoothed(c: multiset<int>, lo: int, n: nat, s: real, denom: real): (p: seq<real>)
    requires denom != 0.0
    ensures |p| == n
  {
    seq(n, i requires 0 <= i < n => Prob(c[lo + i], s, denom))
  }

  /**
   * `get_scores` after a draw with number set `last`: the smoothed
   * probabilities divided by their sum; None where the source divides by zero.
   */
  function MarkovScores(t: Table, lo: int, hi: int, s: real, last: set<int>): (r: Option<seq<real>>)
    requires lo <= hi
    ensures r.Some? ==> |r.value| == hi - lo + 1
  {
    var n := hi - lo + 1;
    var denom := Denominator(TotalOf(t.totals, last), s, n);
    if denom == 0.0 then None
    else
      var p := Smoothed(CountsOf(t.counts, last), lo, n, s, denom);
      if SumReal(p) == 0.0 then None
      else Some(Shares(p))
  }

  /** `[x / total for x in probs]`: each value as a share of the sum. */
  function Shares(p: seq<real>): (r: seq<real>)
    requires SumReal(p) != 0.0
    ensures |r| == |p|
  {
    seq(|p|, i requires 0 <= i < |p| => p[i] / SumReal(p))
  }

  lemma PositiveQuotient(a: real, b: real)
    requires a > 0.0 && b > 0.0
    ensures a / b > 0.0
  {
  }

  /** With positive smoothing and a non-negative state total every smoothed probability is positive. */
  lemma SmoothedPositive(c: multiset<int>, stateTotal: int, lo: int, n: nat, s: real)
    requires stateTotal >= 0 && s > 0.0 && n > 0
    ensures Denominator(stateTotal, s, n) > 0.0
    ensures forall i | 0 <= i < n :: Smoothed(c, lo, n, s, Denominator(stateTotal, s, n))[i] > 0.0
  {
    var denom := Denominator(stateTotal, s, n);
    assert s * n as real > 0.0;
    var p := Smoothed(c, lo, n, s, denom);
    forall i | 0 <= i < n ensures p[i] > 0.0 {
      assert p[i] == Prob(c[lo + i], s, denom);
      PositiveQuotient(c[lo + i] as real + s, denom);
    }
  }

  /** With positive smoothing every number gets a positive score and the scores sum to 1. */
  lemma ScoresAreDistribution(t: Table, lo: int, hi: int, s: real, last: set<int>)
    requires lo <= hi && s > 0.0
    requires Consistent(t.counts, t.totals)
    ensures var r := MarkovScores(t, lo, hi, s, last);
      && r.Some?
      && (forall i | 0 <= i < |r.value| :: r.value[i] > 0.0)
      && SumReal(r.value) == 1.0
  {
    var n := hi - lo + 1;
    var c := CountsOf(t.counts, last);
    var st := TotalOf(t.totals, last);
    assert st >= 0;
    SmoothedPositive(c, st, lo, n, s);
    var p := Smoothed(c, lo, n, s, Denominator(st, s, n));
    SumRealPositive(p);
    var total := SumReal(p);
    ProportionsSumToOne(p);
    var r := MarkovScores(t, lo, hi, s, last);
    assert r.value == Shares(p);
    forall i | 0 <= i < n ensures r.value[i] > 0.0 {
      PositiveQuotient(p[i], total);
    }
  }

  /** A state never seen in training scores every number 1/(hi-lo+1). */
  lemma UnseenStateIsUniform(t: Table, lo: int, hi: int, s: real, last: set<int>)
    requires lo <= hi && s > 0.0
    requires Consistent(t.counts, t.totals) && last !in t.totals
    ensures var r := MarkovScores(t, lo, hi, s, last);
      r.Some? && forall i | 0 <= i < |r.value| :: r.value[i] == 1.0 / (hi - lo + 1) as real
  {
    var n := hi - lo + 1;
    assert CountsOf(t.counts, last) == multiset{};
    assert TotalOf(t.totals, last) == 0;
    var denom := Denominator(0, s, n);
    SmoothedPositive(multiset{}, 0, lo, n, s);
    var p := Smoothed(multiset{}, lo, n, s, denom);
    SmoothedOfEmpty(lo, n, s, denom);
    UniformProportions(p, p[0]);
  }

  /** With no counts every number gets the same smoothed probability. */
  lemma SmoothedOfEmpty(lo: int, n: nat, s: real, denom: real)
    requires denom != 0.0
    ensures forall i | 0 <= i < n :: Smoothed(multiset{}, lo, n, s, denom)[i] == Prob(0, s, denom)
  {
    var p := Smoothed(multiset{}, lo, n, s, denom);
    forall i | 0 <= i < n ensures p[i] == Prob(0, s, denom) {
      assert multiset{}[lo + i] == 0;
    }
  }

  /** Equal positive parts are each 1/n of their sum. */
  lemma UniformProportions(p: seq<real>, q: real)
    requires |p| > 0 && q > 0.0
    requires forall i | 0 <= i < |p| :: p[i] == q
    ensures SumReal(p) > 0.0
    ensures forall i | 0 <= i < |p| :: Shares(p)[i] == 1.0 / |p| as real
  {
    var nr := |p| as real;
    assert p == seq(|p|, _ => q);
    SumRealConst(|p|, q);
    var t := SumReal(p);
    assert t == nr * q;
    EqualShare(q, nr);
    forall i | 0 <= i < |p| ensures Shares(p)[i] == 1.0 / nr {
      assert Shares(p)[i] == p[i] / t;
    }
  }

  /** One of n equal positive parts is 1/n of their sum. */
  lemma EqualShare(q: real, n: real)
    requires q > 0.0 && n > 0.0
    ensures n * q > 0.0
    ensures q / (n * q) == 1.0 / n
  {
  }

  lemma OverwriteTwice<K, V>(m: map<K, V>, k: K, a: V, b: V)
    ensures m[k := a][k := b] == m[k := b]
  {
  }

  /** The model: its range, parameters, transition table and trained flag. */
  class Chain {
    var lo: int
    var hi: int
    var order: nat
    var smoothing: real
    var counts: map<set<int>, multiset<int>>
    var totals: map<set<int>, int>
    var trained: bool

    predicate Valid()
      reads this
    {
      lo <= hi && Consistent(counts, totals)
    }

    /** `MarkovChain(number_range, params)`: an empty, untrained model. */
    constructor(lo: int, hi: int, order: nat, smoothing: real)
      requires lo <= hi
      ensures Valid()
      ensures this.lo == lo && this.hi == hi && this.order == order && this.smoothing == smoothing
      ensures counts == map[] && totals == map[] && !trained
    {
      this.lo := lo;
      this.hi := hi;
      this.order := order;
      this.smoothing := smoothing;
      counts := map[];
      totals := map[];
      trained := false;
    }

    /**
     * `train`: with no more than `order` draws nothing changes; otherwise walk
     * the history oldest first and add, for i = order .. len-1, the draw i
     * to the counts of the set of draw i-1. Returns the number of states.
     */
    method Train(history: seq<seq<int>>) returns (states: Option<nat>)
      requires Valid()
      modifies this
      ensures Valid()
      ensures lo == old(lo) && hi == old(hi) && order == old(order) && smoothing == old(smoothing)
      ensures |history| <= order ==>
        states.None? && counts == old(counts) && totals == old(totals) && trained == old(trained)
      ensures |history| > order ==>
        && trained
        && Table(counts, totals) == TrainUpTo(Table(old(counts), old(totals)), Reverse(history), order, |history|)
        && states == Some(|counts.Keys|)
    {
      if |history| <= order {
        return None;
      }
      var chron := Reverse(history);
      ghost var start := Table(counts, totals);
      for i := order to |chron|
        invariant Table(counts, totals) == TrainUpTo(start, chron, order, i)
        invariant Consistent(counts, totals)
        invariant lo == old(lo) && hi == old(hi) && order == old(order) && smoothing == old(smoothing)
      {
        var key := Elems(chron[PrevIndex(i, |chron|)]);
        ghost var sofar := TrainUpTo(start, chron, order, i);
        assert TrainUpTo(start, chron, order, i + 1) == Record(sofar, key, chron[i]);
        RecordTransition(key, chron[i]);
      }
      trained := true;
      states := Some(|counts.Keys|);
    }

    /** One step of `train`'s loop: count every number of `cur` after state `key`, and add `len(cur)` to its total. */
    method RecordTransition(key: set<int>, cur: seq<int>)
      requires Consistent(counts, totals)
      modifies this
      ensures Table(counts, totals) == Record(old(Table(counts, totals)), key, cur)
      ensures Consistent(counts, totals)
      ensures lo == old(lo) && hi == old(hi) && order == old(order) && smoothing == old(smoothing)
      ensures trained == old(trained)
    {
      ghost var before := Table(counts, totals);
      // the per-state counter that `transition_counts[prev_key]` refers to
      var row := CountsOf(counts, key);
      for j := 0 to |cur|
        invariant row == CountsOf(before.counts, key) + multiset(cur[..j])
      {
        assert cur[..j + 1] == cur[..j] + [cur[j]];
        row := row + multiset{cur[j]};
      }
      assert cur[..|cur|] == cur;
      var newCounts := if |cur| > 0 then counts[key := row] else counts;
      var newTotals := totals[key := TotalOf(totals, key) + |cur|];
      assert Table(newCounts, newTotals) == Record(before, key, cur);
      RecordConsistent(before, key, cur);
      counts, totals := newCounts, newTotals;
    }

    /**
     * `get_scores`: None when the model is untrained or the history is empty
     * (the source raises), otherwise the smoothed scores after the set of
     * numbers of the newest draw.
     */
    method GetScores(history: seq<seq<int>>) returns (r: Option<seq<real>>)
      requires Valid()
      ensures !trained || |history| == 0 ==> r.None?
      ensures trained && |history| > 0 ==>
        r == MarkovScores(Table(counts, totals), lo, hi, smoothing, Elems(history[0]))
    {
      if !trained || |history| == 0 {
        return None;
      }
      var last := Elems(history[0]);
      var n := hi - lo + 1;
      var denom := Denominator(TotalOf(totals, last), smoothing, n);
      if denom == 0.0 {
        return None;
      }
      var c := CountsOf(counts, last);
      ghost var expected := Smoothed(c, lo, n, smoothing, denom);
      var probs: seq<real> := [];
      for num := lo to hi + 1
        invariant probs == expected[..num - lo]
      {
        assert expected[..num - lo + 1] == expected[..num - lo] + [Prob(c[num], smoothing, denom)];
        probs := probs + [Prob(c[num], smoothing, denom)];
      }
      assert probs == expected;
      var total := SumReal(probs);
      if total == 0.0 {
        return None;
      }
      r := Some(Shares(probs));
    }
  }

  // ---- state keys as strings (`str(frozenset)` on save, parsed back on load) -------

  /** The characters `load` strips from both ends of a key. */
  const KeyStripChars: set<char> := {'f', 'r', 'o', 'z', 'e', 'n', 's', 't', '(', '{', '}', ')'}

  /** What `str` writes around the elements of a non-empty frozenset. */
  const KeyPrefix: string := "frozenset({"
  const KeySuffix: string := "})"

  function IntStrings(xs: seq<int>): (r: seq<string>)
    ensures |r| == |xs|
  {
    seq(|xs|, i requires 0 <= i < |xs| => IntToString(xs[i]))
  }

  /**
   * `str(k)` for a frozenset k whose elements Python enumerates in the order
   * `elems`: "frozenset({a, b, ...})", or "frozenset()" when it is empty.
   */
  function EncodeKey(elems: seq<int>): string {
    if |elems| == 0 then "frozenset()"
    else KeyPrefix + Join(IntStrings(elems)) + KeySuffix
  }

  /** `map(int, parts)`: None at the first part that is not a numeral. */
  function ParseAll(parts: seq<string>): (r: Option<seq<int>>)
    ensures r.Some? ==> |r.value| == |parts|
  {
    if |parts| == 0 then Some([])
    else match (ParseInt(parts[0]), ParseAll(parts[1..]))
      case (Some(x), Some(xs)) => Some([x] + xs)
      case _ => None
  }

  /** `frozenset(map(int, k.strip("frozenset({})").split(", ")))`; None where `int` raises. */
  function DecodeKey(key: string): Option<set<int>> {
    match ParseAll(Split(Strip(key, KeyStripChars)))
    case None => None
    case Some(xs) => Some(Elems(xs))
  }

  lemma {:induction false} ParseAllInts(xs: seq<int>)
    ensures ParseAll(IntStrings(xs)) == Some(xs)
  {
    if |xs| > 0 {
      IntRoundTrip(xs[0]);
      assert IntStrings(xs)[1..] == IntStrings(xs[1..]);
      ParseAllInts(xs[1..]);
      assert [xs[0]] + xs[1..] == xs;
    }
  }

  /** The spelling of an integer has no comma, starts with '-' or a digit and ends with a digit. */
  lemma IntStringShape(n: int)
    ensures var s := IntToString(n);
      && NoComma(s) && IsDigit(s[|s| - 1]) && (s[0] == '-' || IsDigit(s[0]))
  {
  }

  lemma {:induction false} JoinEnds(parts: seq<string>)
    requires |parts| > 0
    requires forall i | 0 <= i < |parts| :: |parts[i]| > 0
    ensures var j := Join(parts);
      |j| > 0 && j[0] == parts[0][0] && j[|j| - 1] == parts[|parts| - 1][|parts[|parts| - 1]| - 1]
  {
    if |parts| > 1 {
      JoinEnds(parts[1..]);
    }
  }

  /** Every character of the frame around a non-empty key is one `load` strips. */
  lemma KeyFrameStripped()
    ensures AllIn(KeyPrefix, KeyStripChars) && AllIn(KeySuffix, KeyStripChars)
  {
  }

  /** No character that starts or ends a numeral is stripped. */
  lemma NumeralNotStripped(c: char)
    requires c == '-' || IsDigit(c)
    ensures c !in KeyStripChars
  {
  }

  /** The joined numerals of a non-empty key start and end with a character `load` keeps. */
  lemma JoinedNumeralsEnds(elems: seq<int>)
    requires |elems| > 0
    ensures var inner := Join(IntStrings(elems));
      |inner| > 0 && inner[0] !in KeyStripChars && inner[|inner| - 1] !in KeyStripChars
  {
    var parts := IntStrings(elems);
    forall i | 0 <= i < |parts| ensures |parts[i]| > 0 {
      IntStringShape(elems[i]);
    }
    JoinEnds(parts);
    var first := parts[0];
    var final := parts[|parts| - 1];
    IntStringShape(elems[0]);
    IntStringShape(elems[|elems| - 1]);
    NumeralNotStripped(first[0]);
    NumeralNotStripped(final[|final| - 1]);
  }

  /** Stripping a non-empty key leaves exactly the joined element numerals. */
  lemma StripKey(elems: seq<int>)
    requires |elems| > 0
    ensures Strip(EncodeKey(elems), KeyStripChars) == Join(IntStrings(elems))
  {
    var inner := Join(IntStrings(elems));
    JoinedNumeralsEnds(elems);
    KeyFrameStripped();
    assert EncodeKey(elems) == KeyPrefix + inner + KeySuffix;
    StripFrame(KeyPrefix, inner, KeySuffix, KeyStripChars);
  }

  /** A saved key loads back as the same set, whatever order Python enumerated it in. */
  lemma KeyRoundTrip(elems: seq<int>)
    requires |elems| > 0
    ensures DecodeKey(EncodeKey(elems)) == Some(Elems(elems))
  {
    var parts := IntStrings(elems);
    forall i | 0 <= i < |parts| ensures NoComma(parts[i]) {
      IntStringShape(elems[i]);
    }
    StripKey(elems);
    SplitJoin(parts);
    ParseAllInts(elems);
  }

  /** The key of the empty state, "frozenset()", strips to "" and fails to load. */
  lemma EmptyKeyFails()
    ensures DecodeKey(EncodeKey([])) == None
  {
    var s := EncodeKey([]);
    assert forall i | 0 <= i < |s| :: s[i] in KeyStripChars;
    var l := StripLeft(s, KeyStripChars);
    assert |l| == 0;
    assert Split(Strip(s, KeyStripChars)) == [""];
  }
}
