/**
 * PositionBiasAnalyzer: splits the number range into named zones ("low",
 * "mid", "high", ...), measures how the history's numbers spread over them,
 * scores numbers in under-represented zones higher, and picks a ticket that
 * spreads its numbers over the zones by quota.
 *
 * The `bands` dict becomes a sequence of bands in dict order; a zone is
 * identified by its position in that sequence.
 */
module PositionBias {
  import opened Wrappers
  import opened Seqs
  import opened ScoreMaps

  /** One zone of `position_balance`, with inclusive bounds. */
  datatype Band = Band(lo: int, hi: int)

  predicate InBand(b: Band, num: int) {
    b.lo <= num <= b.hi
  }

  // ---- get_zone -----------------------------------------------------------------

  function ZoneFrom(bands: seq<Band>, num: int, k: nat): (z: Option<nat>)
    requires k <= |bands|
    ensures z.Some? ==> k <= z.value < |bands| && InBand(bands[z.value], num)
                        && forall j | k <= j < z.value :: !InBand(bands[j], num)
    ensures z.None? ==> forall j | k <= j < |bands| :: !InBand(bands[j], num)
    decreases |bands| - k
  {
    if k == |bands| then None
    else if InBand(bands[k], num) then Some(k)
    else ZoneFrom(bands, num, k + 1)
  }

  /** `get_zone`: the first band, in order, whose bounds contain `num`; `None` if no band does. */
  function GetZone(bands: seq<Band>, num: int): (z: Option<nat>)
    ensures z.Some? ==> z.value < |bands| && InBand(bands[z.value], num)
                        && forall j | 0 <= j < z.value :: !InBand(bands[j], num)
    ensures z.None? ==> forall j | 0 <= j < |bands| :: !InBand(bands[j], num)
  {
    ZoneFrom(bands, num, 0)
  }

  /** The bands low [1, 18], mid [19, 36], high [37, 55] of the Power 6/55 configuration. */
  const PowerBands: seq<Band> := [Band(1, 18), Band(19, 36), Band(37, 55)]

  /** With the Power 6/55 bands every number of 1..55 lies in some zone. */
  lemma PowerBandsCover(num: int)
    requires 1 <= num <= 55
    ensures GetZone(PowerBands, num).Some?
  {
    var z := GetZone(PowerBands, num);
    assert InBand(PowerBands[0], num) || InBand(PowerBands[1], num) || InBand(PowerBands[2], num);
  }

  // ---- the numbers of a list that fall in one zone --------------------------------

  /** The elements of `s` whose zone is `z`, in their order in `s`. */
  function Members(bands: seq<Band>, s: seq<int>, z: nat): seq<int> {
    MembersUpTo(bands, s, z, |s|)
  }

  /** The members of zone `z` among the first `n` elements of `s`. */
  function MembersUpTo(bands: seq<Band>, s: seq<int>, z: nat, n: nat): (m: seq<int>)
    requires n <= |s|
    ensures |m| <= n
  {
    if n == 0 then []
    else if GetZone(bands, s[n - 1]) == Some(z) then MembersUpTo(bands, s, z, n - 1) + [s[n - 1]]
    else MembersUpTo(bands, s, z, n - 1)
  }

  /** The elements of `s` that lie in some zone. */
  function Zoned(bands: seq<Band>, s: seq<int>): seq<int> {
    ZonedUpTo(bands, s, |s|)
  }

  function ZonedUpTo(bands: seq<Band>, s: seq<int>, n: nat): (m: seq<int>)
    requires n <= |s|
    ensures |m| <= n
  {
    if n == 0 then []
    else if GetZone(bands, s[n - 1]).Some? then ZonedUpTo(bands, s, n - 1) + [s[n - 1]]
    else ZonedUpTo(bands, s, n - 1)
  }

  /** A number is a member of zone z in `s` exactly when it occurs in `s` and lies in zone z. */
  lemma MembersMeaning(bands: seq<Band>, s: seq<int>, z: nat, x: int)
    ensures x in Members(bands, s, z) <==> x in s && GetZone(bands, x) == Some(z)
  {
    MembersUpToMeaning(bands, s, z, |s|, x);
    assert s[..|s|] == s;
  }

  lemma {:induction false} MembersUpToMeaning(bands: seq<Band>, s: seq<int>, z: nat, n: nat, x: int)
    requires n <= |s|
    ensures x in MembersUpTo(bands, s, z, n) <==> x in s[..n] && GetZone(bands, x) == Some(z)
  {
    if n > 0 {
      MembersUpToMeaning(bands, s, z, n - 1, x);
      assert s[..n] == s[..n - 1] + [s[n - 1]];
    }
  }

  /** The prefix up to n decides the members found up to n. */
  lemma {:induction false} MembersUpToAgree(bands: seq<Band>, s: seq<int>, t: seq<int>, z: nat, n: nat)
    requires n <= |s| && n <= |t|
    requires forall i | 0 <= i < n :: s[i] == t[i]
    ensures MembersUpTo(bands, s, z, n) == MembersUpTo(bands, t, z, n)
  {
    if n > 0 {
      MembersUpToAgree(bands, s, t, z, n - 1);
    }
  }

  lemma {:induction false} ZonedUpToAgree(bands: seq<Band>, s: seq<int>, t: seq<int>, n: nat)
    requires n <= |s| && n <= |t|
    requires forall i | 0 <= i < n :: s[i] == t[i]
    ensures ZonedUpTo(bands, s, n) == ZonedUpTo(bands, t, n)
  {
    if n > 0 {
      ZonedUpToAgree(bands, s, t, n - 1);
    }
  }

  /** Appending one number extends its zone's members by it and leaves the other zones alone. */
  lemma MembersSnoc(bands: seq<Band>, s: seq<int>, x: int, z: nat)
    ensures Members(bands, s + [x], z) == Members(bands, s, z) + (if GetZone(bands, x) == Some(z) then [x] else [])
  {
    MembersUpToAgree(bands, s + [x], s, z, |s|);
  }

  lemma ZonedSnoc(bands: seq<Band>, s: seq<int>, x: int)
    ensures Zoned(bands, s + [x]) == Zoned(bands, s) + (if GetZone(bands, x).Some? then [x] else [])
  {
    ZonedUpToAgree(bands, s + [x], s, |s|);
  }

  lemma MembersConcat(bands: seq<Band>, a: seq<int>, b: seq<int>, z: nat)
    ensures Members(bands, a + b, z) == Members(bands, a, z) + Members(bands, b, z)
  {
    MembersConcatUpTo(bands, a, b, z, |b|);
  }

  lemma {:induction false} MembersConcatUpTo(bands: seq<Band>, a: seq<int>, b: seq<int>, z: nat, j: nat)
    requires j <= |b|
    ensures MembersUpTo(bands, a + b, z, |a| + j) == Members(bands, a, z) + MembersUpTo(bands, b, z, j)
  {
    if j == 0 {
      MembersUpToAgree(bands, a + b, a, z, |a|);
      assert Members(bands, a, z) + [] == Members(bands, a, z);
    } else {
      MembersConcatUpTo(bands, a, b, z, j - 1);
      assert (a + b)[|a| + j - 1] == b[j - 1];
    }
  }

  lemma MembersDistinct(bands: seq<Band>, s: seq<int>, z: nat)
    requires Distinct(s)
    ensures Distinct(Members(bands, s, z))
  {
    MembersUpToDistinct(bands, s, z, |s|);
  }

  lemma {:induction false} MembersUpToDistinct(bands: seq<Band>, s: seq<int>, z: nat, n: nat)
    requires n <= |s| && Distinct(s)
    ensures Distinct(MembersUpTo(bands, s, z, n))
  {
    if n > 0 {
      MembersUpToDistinct(bands, s, z, n - 1);
      MembersUpToMeaning(bands, s, z, n - 1, s[n - 1]);
      assert s[n - 1] !in s[..n - 1];
    }
  }

  /** A list all of whose elements lie in zone `z'` has them all as members of `z'` and none of any other zone. */
  lemma MembersOfOneZone(bands: seq<Band>, s: seq<int>, z': nat, z: nat)
    requires forall x | x in s :: GetZone(bands, x) == Some(z')
    ensures Members(bands, s, z) == if z == z' then s else []
  {
    MembersUpToOneZone(bands, s, z', z, |s|);
    assert s[..|s|] == s;
  }

  lemma {:induction false} MembersUpToOneZone(bands: seq<Band>, s: seq<int>, z': nat, z: nat, n: nat)
    requires n <= |s|
    requires forall x | x in s :: GetZone(bands, x) == Some(z')
    ensures MembersUpTo(bands, s, z, n) == if z == z' then s[..n] else []
  {
    if n > 0 {
      MembersUpToOneZone(bands, s, z', z, n - 1);
      assert s[n - 1] in s;
      assert s[..n] == s[..n - 1] + [s[n - 1]];
    }
  }

  /** Appending numbers that all lie in zone `z'` extends the members of `z'` by them and leaves other zones alone. */
  lemma MembersAppendZone(bands: seq<Band>, a: seq<int>, part: seq<int>, z: nat, z': nat)
    requires forall x | x in part :: GetZone(bands, x) == Some(z')
    ensures Members(bands, a + part, z) == Members(bands, a, z) + (if z == z' then part else [])
  {
    MembersConcat(bands, a, part, z);
    MembersOfOneZone(bands, part, z', z);
  }

  /** The numbers of every draw of a history, newest draw first. */
  function Flatten(history: seq<seq<int>>): seq<int> {
    if |history| == 0 then [] else Flatten(history[..|history| - 1]) + history[|history| - 1]
  }

  // ---- get_zone_distribution --------------------------------------------------------

  /** The number of history numbers counted for each zone (the `Counter`). */
  function ZoneCounts(bands: seq<Band>, xs: seq<int>): (c: seq<int>)
    ensures |c| == |bands|
  {
    seq(|bands|, z requires 0 <= z < |bands| => |Members(bands, xs, z)|)
  }

  /**
   * `get_zone_distribution`: each zone's share of the in-zone history numbers,
   * or an even split when no history number lies in any zone.
   */
  function ZoneDistribution(bands: seq<Band>, history: seq<seq<int>>): (d: seq<real>)
    requires |bands| > 0
    ensures |d| == |bands|
  {
    var xs := Flatten(history);
    var total := |Zoned(bands, xs)|;
    if total == 0 then seq(|bands|, _ => 1.0 / |bands| as real)
    else seq(|bands|, z requires 0 <= z < |bands| => |Members(bands, xs, z)| as real / total as real)
  }

  /** The per-zone counts add up to the number of in-zone numbers. */
  lemma {:induction false} ZoneCountsSum(bands: seq<Band>, xs: seq<int>)
    ensures SumInt(ZoneCounts(bands, xs)) == |Zoned(bands, xs)|
  {
    if |xs| == 0 {
      ZeroSum(ZoneCounts(bands, xs));
    } else {
      var init := xs[..|xs| - 1];
      var x := xs[|xs| - 1];
      assert xs == init + [x];
      ZoneCountsSum(bands, init);
      var before := ZoneCounts(bands, init);
      var after := ZoneCounts(bands, xs);
      forall z | 0 <= z < |bands|
        ensures after[z] == before[z] + (if GetZone(bands, x) == Some(z) then 1 else 0)
      {
        MembersSnoc(bands, init, x, z);
      }
      ZonedSnoc(bands, init, x);
      match GetZone(bands, x)
      case None =>
        assert after == before;
      case Some(z) =>
        forall j | 0 <= j < |bands| && j != z ensures after[j] == before[j] {
        }
        SumIntBump(before, after, z);
    }
  }

  /** The zone shares always add up to 1. */
  lemma DistributionSumsToOne(bands: seq<Band>, history: seq<seq<int>>)
    requires |bands| > 0
    ensures SumReal(ZoneDistribution(bands, history)) == 1.0
  {
    var xs := Flatten(history);
    var total := |Zoned(bands, xs)|;
    var c := ZoneCounts(bands, xs);
    assert Tallied(bands, xs, c, total);
    TallyDistribution(bands, history, c, total);
    if total == 0 {
      EvenSharesSumToOne(|bands|);
    } else {
      ZoneCountsSum(bands, xs);
      SharesSumToOne(c, total);
    }
  }

  /** `counter` and `total` hold the per-zone and in-zone counts of `xs`. */
  predicate Tallied(bands: seq<Band>, xs: seq<int>, counter: seq<int>, total: int) {
    && |counter| == |bands|
    && (forall z | 0 <= z < |bands| :: counter[z] == |Members(bands, xs, z)|)
    && total == |Zoned(bands, xs)|
  }

  lemma TallyStep(bands: seq<Band>, xs: seq<int>, x: int, counter: seq<int>, total: int)
    requires Tallied(bands, xs, counter, total)
    ensures GetZone(bands, x).Some? ==>
      Tallied(bands, xs + [x], counter[GetZone(bands, x).value := counter[GetZone(bands, x).value] + 1], total + 1)
    ensures GetZone(bands, x).None? ==> Tallied(bands, xs + [x], counter, total)
  {
    forall z | 0 <= z < |bands| {
      MembersSnoc(bands, xs, x, z);
    }
    ZonedSnoc(bands, xs, x);
  }

  lemma TallyDistribution(bands: seq<Band>, history: seq<seq<int>>, counter: seq<int>, total: int)
    requires |bands| > 0 && Tallied(bands, Flatten(history), counter, total)
    ensures total == 0 ==> ZoneDistribution(bands, history) == seq(|bands|, _ => 1.0 / |bands| as real)
    ensures total != 0 ==> ZoneDistribution(bands, history)
                           == seq(|bands|, z requires 0 <= z < |bands| => counter[z] as real / total as real)
  {
  }

  /**
   * `get_zone_distribution` as the source computes it: a `Counter` and a total
   * filled by a loop over every number of every draw.
   */
  method GetZoneDistribution(bands: seq<Band>, history: seq<seq<int>>) returns (d: seq<real>)
    requires |bands| > 0
    ensures d == ZoneDistribution(bands, history)
    ensures SumReal(d) == 1.0
  {
    var counter: seq<int> := seq(|bands|, _ => 0);
    var total := 0;
    for i := 0 to |history|
      invariant Tallied(bands, Flatten(history[..i]), counter, total)
    {
      var draw := history[i];
      ghost var done := Flatten(history[..i]);
      assert done + draw[..0] == done;
      for j := 0 to |draw|
        invariant Tallied(bands, done + draw[..j], counter, total)
      {
        var num := draw[j];
        TallyStep(bands, done + draw[..j], num, counter, total);
        assert done + draw[..j + 1] == (done + draw[..j]) + [num];
        var zone := GetZone(bands, num);
        if zone.Some? {
          counter := counter[zone.value := counter[zone.value] + 1];
          total := total + 1;
        }
      }
      assert history[..i + 1][..i] == history[..i];
      assert draw[..|draw|] == draw;
    }
    assert history[..|history|] == history;
    TallyDistribution(bands, history, counter, total);
    if total == 0 {
      var even := 1.0 / |bands| as real;
      d := seq(|bands|, _ => even);
    } else {
      d := seq(|bands|, z requires 0 <= z < |bands| => counter[z] as real / total as real);
    }
    DistributionSumsToOne(bands, history);
  }

  // ---- get_scores -------------------------------------------------------------------

  /** `zone_score[z]`: how far the zone's share falls below an even share, plus a 0.01 floor. */
  function ZoneScore(bands: seq<Band>, dist: seq<real>, z: nat): real
    requires |bands| > 0 && z < |dist|
  {
    var even := 1.0 / |bands| as real;
    (if even - dist[z] > 0.0 then even - dist[z] else 0.0) + 0.01
  }

  /** The raw score of a number: its zone's score, or 0.01 when it lies in no zone. */
  function RawPositionScore(bands: seq<Band>, dist: seq<real>, num: int): (s: real)
    requires |bands| > 0 && |dist| == |bands|
    ensures s >= 0.01
  {
    match GetZone(bands, num)
    case Some(z) => ZoneScore(bands, dist, z)
    case None => 0.01
  }

  function RawPositionScores(bands: seq<Band>, lo: int, hi: int, history: seq<seq<int>>): (raw: seq<real>)
    requires |bands| > 0 && lo <= hi
    ensures |raw| == hi - lo + 1
    ensures forall i | 0 <= i < |raw| :: raw[i] >= 0.01
  {
    var dist := ZoneDistribution(bands, history);
    var raw := seq(hi - lo + 1, i => RawPositionScore(bands, dist, lo + i));
    assert forall i | 0 <= i < |raw| :: raw[i] == RawPositionScore(bands, dist, lo + i);
    raw
  }

  /** `get_scores`: the zone-need score of every number lo..hi, divided by the largest. */
  function PositionScores(bands: seq<Band>, lo: int, hi: int, history: seq<seq<int>>): (r: seq<real>)
    requires |bands| > 0 && lo <= hi
    ensures |r| == hi - lo + 1
  {
    Normalize(RawPositionScores(bands, lo, hi, history))
  }

  /** Every score lies in (0, 1] and some number scores exactly 1. */
  lemma PositionScoresBounds(bands: seq<Band>, lo: int, hi: int, history: seq<seq<int>>)
    requires |bands| > 0 && lo <= hi
    ensures forall i | 0 <= i < hi - lo + 1 :: 0.0 < PositionScores(bands, lo, hi, history)[i] <= 1.0
    ensures exists i | 0 <= i < hi - lo + 1 :: PositionScores(bands, lo, hi, history)[i] == 1.0
  {
    var raw := RawPositionScores(bands, lo, hi, history);
    assert forall i | 0 <= i < |raw| :: raw[i] > 0.0;
    NormalizePositive(raw);
    var r := PositionScores(bands, lo, hi, history);
    assert r == Normalize(raw);
    var k :| 0 <= k < |raw| && Normalize(raw)[k] == 1.0;
    assert r[k] == 1.0;
  }

  lemma RawAt(bands: seq<Band>, lo: int, hi: int, history: seq<seq<int>>, n: int)
    requires |bands| > 0 && lo <= n <= hi
    ensures RawPositionScores(bands, lo, hi, history)[n - lo]
         == RawPositionScore(bands, ZoneDistribution(bands, history), n)
  {
  }

  /** Two numbers of the same zone (or both of none) get the same score. */
  lemma SameZoneSameScore(bands: seq<Band>, lo: int, hi: int, history: seq<seq<int>>, a: int, b: int)
    requires |bands| > 0 && lo <= a <= hi && lo <= b <= hi
    requires GetZone(bands, a) == GetZone(bands, b)
    ensures PositionScores(bands, lo, hi, history)[a - lo] == PositionScores(bands, lo, hi, history)[b - lo]
  {
    var raw := RawPositionScores(bands, lo, hi, history);
    RawAt(bands, lo, hi, history, a);
    RawAt(bands, lo, hi, history, b);
    NormalizeAt(raw, a - lo);
    NormalizeAt(raw, b - lo);
  }

  /**
   * A number whose zone holds at least an even share of the history (or that
   * lies in no zone) gets the lowest score of all; a number of a zone below
   * the even share scores strictly higher than it.
   */
  lemma NeedOrdersScores(bands: seq<Band>, lo: int, hi: int, history: seq<seq<int>>, a: int, b: int)
    requires |bands| > 0 && lo <= a <= hi && lo <= b <= hi
    requires var dist := ZoneDistribution(bands, history);
      match GetZone(bands, a)
      case None => true
      case Some(z) => dist[z] >= 1.0 / |bands| as real
    ensures PositionScores(bands, lo, hi, history)[a - lo] <= PositionScores(bands, lo, hi, history)[b - lo]
    ensures (var dist := ZoneDistribution(bands, history);
             GetZone(bands, b).Some? && dist[GetZone(bands, b).value] < 1.0 / |bands| as real) ==>
      PositionScores(bands, lo, hi, history)[a - lo] < PositionScores(bands, lo, hi, history)[b - lo]
  {
    var raw := RawPositionScores(bands, lo, hi, history);
    var d := Divisor(raw);
    assert raw[0] > 0.0;
    assert MaxOf(raw) >= raw[0];
    RawAt(bands, lo, hi, history, a);
    RawAt(bands, lo, hi, history, b);
    NormalizeAt(raw, a - lo);
    NormalizeAt(raw, b - lo);
    assert raw[a - lo] == 0.01;
    DivideMonotone(raw[a - lo], raw[b - lo], d);
  }

  // ---- pick_balanced ----------------------------------------------------------------

  /** How many numbers zone z may take: `n // zones`, plus one for each of the first `n % zones` zones. */
  function Quota(n: nat, zones: nat, z: nat): nat
    requires zones > 0
  {
    n / zones + (if z < n % zones then 1 else 0)
  }

  function QuotaSum(n: nat, zones: nat, k: nat): nat
    requires zones > 0
  {
    if k == 0 then 0 else QuotaSum(n, zones, k - 1) + Quota(n, zones, k - 1)
  }

  /** The quotas of the first k zones add up to k * (n // zones) + min(k, n % zones), so all of them to n. */
  lemma {:induction false} QuotaSumValue(n: nat, zones: nat, k: nat)
    requires zones > 0
    ensures QuotaSum(n, zones, k) == k * (n / zones) + (if k < n % zones then k else n % zones)
  {
    if k > 0 {
      QuotaSumValue(n, zones, k - 1);
    }
  }

  lemma QuotasAddUp(n: nat, zones: nat)
    requires zones > 0
    ensures QuotaSum(n, zones, zones) == n
  {
    QuotaSumValue(n, zones, zones);
    assert n % zones < zones;
  }

  /** The zone phase over the first k zones: each takes its first `Quota` candidates in input order. */
  function ZonePhase(bands: seq<Band>, cands: seq<int>, n: nat, k: nat): seq<int>
    requires 0 < |bands| && k <= |bands|
  {
    if k == 0 then []
    else ZonePhase(bands, cands, n, k - 1) + Take(Members(bands, cands, k - 1), Quota(n, |bands|, k - 1))
  }

  lemma {:induction false} ZonePhaseShape(bands: seq<Band>, cands: seq<int>, n: nat, k: nat)
    requires 0 < |bands| && k <= |bands|
    ensures |ZonePhase(bands, cands, n, k)| <= QuotaSum(n, |bands|, k)
    ensures forall x | x in ZonePhase(bands, cands, n, k) :: x in cands
    ensures forall x | x in ZonePhase(bands, cands, n, k) :: GetZone(bands, x).Some? && GetZone(bands, x).value < k
    ensures Distinct(cands) ==> Distinct(ZonePhase(bands, cands, n, k))
  {
    if k > 0 {
      ZonePhaseShape(bands, cands, n, k - 1);
      var prev := ZonePhase(bands, cands, n, k - 1);
      var m := Members(bands, cands, k - 1);
      var part := Take(m, Quota(n, |bands|, k - 1));
      forall x | x in part ensures x in cands && GetZone(bands, x) == Some(k - 1) {
        TakenMember(bands, cands, k - 1, Quota(n, |bands|, k - 1), x);
      }
      if Distinct(cands) {
        MembersDistinct(bands, cands, k - 1);
        assert Distinct(part);
        forall i, j | 0 <= i < |prev| && 0 <= j < |part| ensures prev[i] != part[j] {
          assert prev[i] in prev && part[j] in part;
        }
        ConcatDistinct(prev, part);
      }
    }
  }

  /** Within the zone phase, zone z holds exactly the first `Quota(z)` candidates of z, in input order. */
  lemma ZonePhaseQuotas(bands: seq<Band>, cands: seq<int>, n: nat, k: nat, z: nat)
    requires 0 < |bands| && k <= |bands|
    ensures Members(bands, ZonePhase(bands, cands, n, k), z)
         == if z < k then Take(Members(bands, cands, z), Quota(n, |bands|, z)) else []
  {
    if z < k {
      ZonePhaseTaken(bands, cands, n, k, z);
    } else {
      ZonePhaseUntouched(bands, cands, n, k, z);
    }
  }

  /** Zones from k on have no member in the phase over the first k zones. */
  lemma {:induction false} ZonePhaseUntouched(bands: seq<Band>, cands: seq<int>, n: nat, k: nat, z: nat)
    requires 0 < |bands| && k <= |bands| && k <= z
    ensures Members(bands, ZonePhase(bands, cands, n, k), z) == []
  {
    if k > 0 {
      var prev := ZonePhase(bands, cands, n, k - 1);
      var part := Take(Members(bands, cands, k - 1), Quota(n, |bands|, k - 1));
      assert ZonePhase(bands, cands, n, k) == prev + part;
      ZonePhaseUntouched(bands, cands, n, k - 1, z);
      AppendZoneTake(bands, prev, cands, k - 1, Quota(n, |bands|, k - 1), z);
    }
  }

  /** Once zone z has had its turn, later zones leave its members in the phase alone. */
  lemma {:induction false} ZonePhaseTaken(bands: seq<Band>, cands: seq<int>, n: nat, k: nat, z: nat)
    requires 0 < |bands| && z < k <= |bands|
    ensures Members(bands, ZonePhase(bands, cands, n, k), z) == Take(Members(bands, cands, z), Quota(n, |bands|, z))
  {
    var prev := ZonePhase(bands, cands, n, k - 1);
    var part := Take(Members(bands, cands, k - 1), Quota(n, |bands|, k - 1));
    assert ZonePhase(bands, cands, n, k) == prev + part;
    AppendZoneTake(bands, prev, cands, k - 1, Quota(n, |bands|, k - 1), z);
    if z < k - 1 {
      ZonePhaseTaken(bands, cands, n, k - 1, z);
      assert Members(bands, prev, z) + [] == Members(bands, prev, z);
    } else {
      ZonePhaseUntouched(bands, cands, n, k - 1, z);
      assert [] + part == part;
    }
  }

  /** Appending the first q members of zone z' of `cands` extends zone z' by them and leaves other zones alone. */
  lemma AppendZoneTake(bands: seq<Band>, prev: seq<int>, cands: seq<int>, z': nat, q: nat, z: nat)
    ensures Members(bands, prev + Take(Members(bands, cands, z'), q), z)
         == Members(bands, prev, z) + (if z == z' then Take(Members(bands, cands, z'), q) else [])
  {
    var part := Take(Members(bands, cands, z'), q);
    forall x | x in part ensures GetZone(bands, x) == Some(z') {
      TakenMember(bands, cands, z', q, x);
    }
    MembersAppendZone(bands, prev, part, z, z');
  }

  /** The first q members of zone z are candidates of zone z. */
  lemma TakenMember(bands: seq<Band>, cands: seq<int>, z: nat, q: nat, x: int)
    requires x in Take(Members(bands, cands, z), q)
    ensures x in cands && GetZone(bands, x) == Some(z)
  {
    MembersMeaning(bands, cands, z, x);
  }

  /** The earliest candidate, in input order, that is not yet selected. */
  function FirstMissing(cands: seq<int>, sel: seq<int>): (r: Option<int>)
    ensures r.Some? ==> r.value in cands && r.value !in sel
    ensures r.None? ==> forall x | x in cands :: x in sel
  {
    if |cands| == 0 then None
    else if cands[0] !in sel then Some(cands[0])
    else FirstMissing(cands[1..], sel)
  }

  lemma {:induction false} FirstMissingAt(cands: seq<int>, sel: seq<int>, i: nat)
    requires i < |cands| && cands[i] !in sel
    requires forall j | 0 <= j < i :: cands[j] in sel
    ensures FirstMissing(cands, sel) == Some(cands[i])
  {
    if i > 0 {
      FirstMissingAt(cands[1..], sel, i - 1);
    }
  }

  /** While fewer than n numbers are selected, some candidate is still unselected. */
  lemma UnselectedCandidate(cands: seq<int>, sel: seq<int>, n: nat)
    requires forall x | x in sel :: x in cands
    requires |sel| < n <= |Elems(cands)|
    ensures exists k | 0 <= k < |cands| :: cands[k] !in sel
  {
    DistinctCardinality(sel);
    forall i | 0 <= i < |sel| ensures sel[i] in cands {
      var x := sel[i];
      assert x in sel;
    }
    SomeNotIn(sel, cands);
  }

  /** The back-fill loop: append the earliest unselected candidate until n numbers are selected. */
  function BackFill(cands: seq<int>, sel: seq<int>, n: nat): seq<int>
    decreases n - |sel|
  {
    if |sel| >= n then sel
    else
      match FirstMissing(cands, sel)
      case None => sel
      case Some(x) => BackFill(cands, sel + [x], n)
  }

  /** One round of the back-fill loop appends the earliest unselected candidate. */
  lemma BackFillStep(cands: seq<int>, sel: seq<int>, n: nat, i: nat)
    requires |sel| < n && i < |cands| && cands[i] !in sel
    requires forall j | 0 <= j < i :: cands[j] in sel
    ensures BackFill(cands, sel, n) == BackFill(cands, sel + [cands[i]], n)
    ensures forall x | x in sel + [cands[i]] :: x in sel || x == cands[i]
  {
    FirstMissingAt(cands, sel, i);
  }

  /**
   * When the candidates have at least n distinct values, back-fill reaches
   * exactly n numbers, keeps what was selected as a prefix, adds only
   * candidates, and adds no duplicate.
   */
  lemma {:induction false} BackFillFills(cands: seq<int>, sel: seq<int>, n: nat)
    requires forall x | x in sel :: x in cands
    requires |sel| <= n <= |Elems(cands)|
    ensures |BackFill(cands, sel, n)| == n
    ensures BackFill(cands, sel, n)[..|sel|] == sel
    ensures forall x | x in BackFill(cands, sel, n) :: x in cands
    ensures Distinct(sel) ==> Distinct(BackFill(cands, sel, n))
    decreases n - |sel|
  {
    if |sel| < n {
      UnselectedCandidate(cands, sel, n);
      var k :| 0 <= k < |cands| && cands[k] !in sel;
      assert cands[k] in cands;
      var x := FirstMissing(cands, sel).value;
      var next := sel + [x];
      BackFillFills(cands, next, n);
      assert next[..|sel|] == sel;
      if Distinct(sel) {
        assert Distinct(next);
      }
    }
  }

  /** `pick_balanced`'s result: the zone phase, back-filled to n, cut to n and sorted. */
  function Pick(bands: seq<Band>, cands: seq<int>, n: nat): seq<int>
    requires |bands| > 0
  {
    SortAsc(Take(BackFill(cands, ZonePhase(bands, cands, n, |bands|), n), n))
  }

  /**
   * For candidates with at least n distinct values, `pick_balanced` returns n
   * candidates in ascending order, with no duplicate when the candidates have
   * none, and the zone phase's picks are among them.
   */
  lemma PickProperties(bands: seq<Band>, cands: seq<int>, n: nat)
    requires |bands| > 0 && n <= |Elems(cands)|
    ensures |Pick(bands, cands, n)| == n
    ensures SortedAsc(Pick(bands, cands, n))
    ensures forall x | x in Pick(bands, cands, n) :: x in cands
    ensures forall x | x in ZonePhase(bands, cands, n, |bands|) :: x in Pick(bands, cands, n)
    ensures Distinct(cands) ==> StrictlyAsc(Pick(bands, cands, n))
  {
    var zp := ZonePhase(bands, cands, n, |bands|);
    ZonePhaseShape(bands, cands, n, |bands|);
    QuotasAddUp(n, |bands|);
    BackFillFills(cands, zp, n);
    var filled := BackFill(cands, zp, n);
    assert Take(filled, n) == filled;
    SortAscMembers(filled);
    forall x | x in zp ensures x in filled {
      var i :| 0 <= i < |zp| && zp[i] == x;
      assert filled[i] == x;
    }
    if Distinct(cands) {
      SortDistinct(filled);
    }
  }

  /** `grouped[z]` lists the elements of `s` in zone z, in order. */
  predicate Grouped(bands: seq<Band>, s: seq<int>, grouped: seq<seq<int>>) {
    |grouped| == |bands| && forall z | 0 <= z < |bands| :: grouped[z] == Members(bands, s, z)
  }

  lemma GroupStep(bands: seq<Band>, s: seq<int>, x: int, grouped: seq<seq<int>>)
    requires Grouped(bands, s, grouped)
    ensures GetZone(bands, x).Some? ==>
      Grouped(bands, s + [x], grouped[GetZone(bands, x).value := grouped[GetZone(bands, x).value] + [x]])
    ensures GetZone(bands, x).None? ==> Grouped(bands, s + [x], grouped)
  {
    forall z | 0 <= z < |bands| {
      MembersSnoc(bands, s, x, z);
    }
  }

  /** The inner `for num in candidates: if num not in selected: ... break` search. */
  method FirstUnselected(cands: seq<int>, selected: seq<int>) returns (i: nat)
    requires exists k | 0 <= k < |cands| :: cands[k] !in selected
    ensures i < |cands| && cands[i] !in selected
    ensures forall j | 0 <= j < i :: cands[j] in selected
  {
    ghost var w :| 0 <= w < |cands| && cands[w] !in selected;
    i := 0;
    while cands[i] in selected
      invariant 0 <= i <= w
      invariant forall j | 0 <= j < i :: cands[j] in selected
      decreases w - i
    {
      i := i + 1;
    }
  }

  /**
   * `pick_balanced` as the source computes it: group the candidates by zone,
   * take each zone's quota, then back-fill with the earliest unselected
   * candidates. The back-fill loop only ends because the candidates have at
   * least n distinct values.
   */
  method PickBalanced(bands: seq<Band>, cands: seq<int>, n: nat) returns (picked: seq<int>)
    requires |bands| > 0 && n <= |Elems(cands)|
    ensures picked == Pick(bands, cands, n)
    ensures |picked| == n && SortedAsc(picked)
    ensures forall x | x in picked :: x in cands
    ensures Distinct(cands) ==> StrictlyAsc(picked)
  {
    var zones := |bands|;
    var target := n / zones;
    var remainder := n % zones;
    var grouped: seq<seq<int>> := seq(zones, _ => []);
    for i := 0 to |cands|
      invariant Grouped(bands, cands[..i], grouped)
    {
      GroupStep(bands, cands[..i], cands[i], grouped);
      assert cands[..i + 1] == cands[..i] + [cands[i]];
      var zone := GetZone(bands, cands[i]);
      if zone.Some? {
        grouped := grouped[zone.value := grouped[zone.value] + [cands[i]]];
      }
    }
    assert cands[..|cands|] == cands;

    var selected: seq<int> := [];
    for z := 0 to zones
      invariant selected == ZonePhase(bands, cands, n, z)
      invariant remainder == if z < n % zones then n % zones - z else 0
    {
      var take := target + (if remainder > 0 then 1 else 0);
      remainder := if remainder - 1 > 0 then remainder - 1 else 0;
      selected := selected + Take(grouped[z], take);
    }

    ZonePhaseShape(bands, cands, n, zones);
    QuotasAddUp(n, zones);
    ghost var filled := BackFill(cands, selected, n);
    while |selected| < n
      invariant BackFill(cands, selected, n) == filled
      invariant forall x | x in selected :: x in cands
      decreases n - |selected|
    {
      UnselectedCandidate(cands, selected, n);
      var i := FirstUnselected(cands, selected);
      BackFillStep(cands, selected, n, i);
      selected := selected + [cands[i]];
    }
    picked := SortAsc(Take(selected, n));
    PickProperties(bands, cands, n);
  }
}
