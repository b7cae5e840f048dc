/**
 * LSTMPredictor: the one-hot encoding of a draw, the sliding windows the
 * network is trained on, and the padded window it scores. The network itself
 * is an opaque function from a window of encoded draws to one probability per
 * number of the range.
 */
module LSTMPredictor {
  import opened Wrappers
  import opened Seqs

  /** `params.get("sequence_length", 50)`. */
  const DefaultSequenceLength: nat := 50

  /** `_encode_draw`: entry num-lo is 1.0 for every in-range number of the draw, every other entry 0.0. */
  function Encode(lo: int, hi: int, draw: seq<int>): (v: seq<real>)
    requires lo <= hi
    ensures |v| == hi - lo + 1
  {
    seq(hi - lo + 1, i => if lo + i in draw then 1.0 else 0.0)
  }

  /** The numbers an encoding marks: lo+i for every entry equal to 1.0. */
  function Decode(lo: int, v: seq<real>): set<int> {
    set i | 0 <= i < |v| && v[i] == 1.0 :: lo + i
  }

  /** The in-range numbers of a draw, as a set. */
  function InRange(lo: int, hi: int, draw: seq<int>): set<int> {
    set x | x in draw && lo <= x <= hi
  }

  /** Every entry of an encoding is 0.0 or 1.0, and decoding gives back exactly the draw's in-range numbers. */
  lemma DecodeEncode(lo: int, hi: int, draw: seq<int>)
    requires lo <= hi
    ensures forall i | 0 <= i < hi - lo + 1 :: Encode(lo, hi, draw)[i] == 0.0 || Encode(lo, hi, draw)[i] == 1.0
    ensures Decode(lo, Encode(lo, hi, draw)) == InRange(lo, hi, draw)
  {
    var v := Encode(lo, hi, draw);
    forall x ensures x in Decode(lo, v) <==> x in InRange(lo, hi, draw) {
      if x in InRange(lo, hi, draw) {
        assert v[x - lo] == 1.0;
      }
    }
  }

  /** Two draws encode alike exactly when they hold the same in-range numbers: order, repeats and out-of-range numbers are lost. */
  lemma EncodeSameIffSameNumbers(lo: int, hi: int, a: seq<int>, b: seq<int>)
    requires lo <= hi
    ensures Encode(lo, hi, a) == Encode(lo, hi, b) <==> InRange(lo, hi, a) == InRange(lo, hi, b)
  {
    DecodeEncode(lo, hi, a);
    DecodeEncode(lo, hi, b);
    if InRange(lo, hi, a) == InRange(lo, hi, b) {
      var va, vb := Encode(lo, hi, a), Encode(lo, hi, b);
      forall i | 0 <= i < hi - lo + 1 ensures va[i] == vb[i] {
        assert lo + i in a <==> lo + i in InRange(lo, hi, a);
        assert lo + i in b <==> lo + i in InRange(lo, hi, b);
      }
    }
  }

  /** The history oldest first, each draw encoded: entry t encodes the draw t steps after the oldest. */
  function Chronological(lo: int, hi: int, history: seq<seq<int>>): (e: seq<seq<real>>)
    requires lo <= hi
    ensures |e| == |history|
  {
    seq(|history|, t requires 0 <= t < |history| => Encode(lo, hi, history[|history| - 1 - t]))
  }

  /** The draws the network scores: the newest `seqLen` draws oldest first, preceded by empty draws up to `seqLen`. */
  function ScoringWindow(history: seq<seq<int>>, seqLen: nat): (w: seq<seq<int>>)
    ensures |w| == seqLen
  {
    var recent := Reverse(Take(history, seqLen));
    seq(seqLen - |recent|, _ => []) + recent
  }

  /**
   * The scoring window is exactly `seqLen` draws: the first are empty
   * padding, the rest are history[seqLen-1-j] for position j, so the newest
   * draw comes last.
   */
  lemma ScoringWindowShape(history: seq<seq<int>>, seqLen: nat, j: nat)
    requires j < seqLen
    ensures var pad := seqLen - (if seqLen <= |history| then seqLen else |history|);
      && (j < pad ==> ScoringWindow(history, seqLen)[j] == [])
      && (j >= pad ==> ScoringWindow(history, seqLen)[j] == history[seqLen - 1 - j])
  {
    var recent := Reverse(Take(history, seqLen));
    var pad := seqLen - |recent|;
    var w := ScoringWindow(history, seqLen);
    if j >= pad {
      assert w[j] == recent[j - pad];
    }
  }

  function EncodeAll(lo: int, hi: int, draws: seq<seq<int>>): (e: seq<seq<real>>)
    requires lo <= hi
    ensures |e| == |draws|
    ensures forall i | 0 <= i < |draws| :: e[i] == Encode(lo, hi, draws[i])
  {
    seq(|draws|, i requires 0 <= i < |draws| => Encode(lo, hi, draws[i]))
  }

  /** The predictor: its range, window length, and the network once trained or loaded. */
  class Predictor {
    const lo: int
    const hi: int
    const seqLen: nat
    var model: Option<seq<seq<real>> -> seq<real>>

    /** `LSTMPredictor(number_range, params)`: no network yet; the window length is the configured one or 50. */
    constructor(lo: int, hi: int, sequenceLength: Option<nat>)
      requires lo <= hi
      ensures this.lo == lo && this.hi == hi && model.None?
      ensures seqLen == sequenceLength.GetOr(DefaultSequenceLength)
    {
      this.lo := lo;
      this.hi := hi;
      this.seqLen := sequenceLength.GetOr(DefaultSequenceLength);
      model := None;
    }

    /** `_encode_draw` as the source computes it: mark each in-range number in a zeroed vector. */
    method EncodeDraw(draw: seq<int>) returns (v: seq<real>)
      requires lo <= hi
      ensures v == Encode(lo, hi, draw)
    {
      var vec := new real[hi - lo + 1](_ => 0.0);
      for j := 0 to |draw|
        invariant forall i | 0 <= i < vec.Length :: vec[i] == if lo + i in draw[..j] then 1.0 else 0.0
      {
        assert draw[..j + 1] == draw[..j] + [draw[j]];
        var num := draw[j];
        if lo <= num <= hi {
          vec[num - lo] := 1.0;
        }
      }
      assert draw[..|draw|] == draw;
      v := vec[..];
    }

    /**
     * `_prepare_sequences`: encode the history oldest first; sample i is the
     * window of draws i .. i+seqLen-1 and its target is draw i+seqLen, so
     * there are max(0, len(history) - seqLen) samples.
     */
    method PrepareSequences(history: seq<seq<int>>) returns (xs: seq<seq<seq<real>>>, ys: seq<seq<real>>)
      requires lo <= hi
      ensures |xs| == |ys| == if |history| > seqLen then |history| - seqLen else 0
      ensures forall i | 0 <= i < |ys| :: ys[i] == Encode(lo, hi, history[|history| - 1 - (i + seqLen)])
      ensures forall i | 0 <= i < |xs| :: |xs[i]| == seqLen
      ensures forall i, j | 0 <= i < |xs| && 0 <= j < seqLen ::
        xs[i][j] == Encode(lo, hi, history[|history| - 1 - (i + j)])
    {
      var encoded: seq<seq<real>> := [];
      for t := 0 to |history|
        invariant encoded == Chronological(lo, hi, history)[..t]
      {
        var e := EncodeDraw(history[|history| - 1 - t]);
        encoded := encoded + [e];
      }
      ghost var chron := Chronological(lo, hi, history);
      assert encoded == chron;
      var count := if |encoded| > seqLen then |encoded| - seqLen else 0;
      xs, ys := [], [];
      for i := 0 to count
        invariant |xs| == |ys| == i
        invariant forall k | 0 <= k < i :: xs[k] == chron[k..k + seqLen] && ys[k] == chron[k + seqLen]
      {
        xs := xs + [encoded[i..i + seqLen]];
        ys := ys + [encoded[i + seqLen]];
      }
      forall i, j | 0 <= i < |xs| && 0 <= j < seqLen
        ensures xs[i][j] == Encode(lo, hi, history[|history| - 1 - (i + j)])
      {
        assert xs[i][j] == chron[i + j];
      }
    }

    /** The newest `seqLen` draws oldest first, prepended with empty draws until the window is full. */
    method PaddedWindow(history: seq<seq<int>>) returns (w: seq<seq<int>>)
      ensures w == ScoringWindow(history, seqLen)
    {
      w := Reverse(Take(history, seqLen));
      ghost var newest := w;
      while |w| < seqLen
        invariant |newest| <= |w| <= seqLen
        invariant w == seq(|w| - |newest|, _ => []) + newest
        decreases seqLen - |w|
      {
        w := [[]] + w;
      }
    }

    /** Each draw of a window encoded in turn. */
    method EncodeDraws(draws: seq<seq<int>>) returns (e: seq<seq<real>>)
      requires lo <= hi
      ensures e == EncodeAll(lo, hi, draws)
    {
      e := [];
      for t := 0 to |draws|
        invariant |e| == t
        invariant forall k | 0 <= k < t :: e[k] == Encode(lo, hi, draws[k])
      {
        var v := EncodeDraw(draws[t]);
        e := e + [v];
      }
    }

    /**
     * `get_scores`: None when no network is loaded (the source raises);
     * otherwise the network's output on the encoded scoring window, read as
     * the score of lo+i at position i. A network output shorter than the
     * range is the source's IndexError, also None.
     */
    method GetScores(history: seq<seq<int>>) returns (r: Option<seq<real>>)
      requires lo <= hi
      ensures model.None? ==> r.None?
      ensures model.Some? ==>
        var probs := model.value(EncodeAll(lo, hi, ScoringWindow(history, seqLen)));
        && (r.Some? <==> |probs| >= hi - lo + 1)
        && (r.Some? ==> |r.value| == hi - lo + 1 && forall i | 0 <= i < hi - lo + 1 :: r.value[i] == probs[i])
    {
      if model.None? {
        return None;
      }
      var window := PaddedWindow(history);
      var encoded := EncodeDraws(window);
      var probs := model.value(encoded);
      if |probs| < hi - lo + 1 {
        return None;
      }
      r := Some(probs[..hi - lo + 1]);
    }
  }
}
