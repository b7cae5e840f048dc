/**
 * Lotto535Crawler: Lotto 5/35 draws, two sessions a day (AM at 13:00, PM at
 * 21:00), five main numbers from 1 to 35 and a special number from 1 to 12,
 * read from the decoded JSONL feed (oldest line first). Odd draw ids are AM
 * draws, even ones PM draws.
 */
module Lotto535Crawler {
  import opened Wrappers
  import opened Seqs
  import opened Text
  import opened BaseCrawler

  const LotteryType: string := "lotto_535"
  const Lo: int := 1
  const Hi: int := 35
  const SpecialLo: int := 1
  const SpecialHi: int := 12

  /** `_validate_535`: five values whose set has five elements, all within [1, 35]; a special number, when present, lies in [1, 12] and is not among them. */
  function Validate535(nums: seq<int>, special: Option<int>): bool {
    && |nums| == 5 && |Elems(nums)| == 5
    && (forall n | n in nums :: Lo <= n <= Hi)
    && (special.Some? ==> SpecialLo <= special.value <= SpecialHi && special.value !in nums)
  }

  /** The check accepts exactly five distinct in-range numbers and a special number that is in range and differs from all of them. */
  lemma Validate535Meaning(nums: seq<int>, special: Option<int>)
    ensures Validate535(nums, special) <==>
      && |nums| == 5 && Distinct(nums)
      && (forall n | n in nums :: Lo <= n <= Hi)
      && (special.Some? ==> SpecialLo <= special.value <= SpecialHi && forall i | 0 <= i < |nums| :: nums[i] != special.value)
  {
    DistinctCardinality(nums);
  }

  /** The session of a draw id: odd ids are AM, the rest PM (Python's `%` agrees with Dafny's for the divisor 2). */
  function SessionOf(id: int): Session {
    if id % 2 != 0 then AM else PM
  }

  function DrawTime(s: Session): string {
    if s == AM then "13:00" else "21:00"
  }

  /** The record `_fetch_all` builds from a line and keeps, if any. */
  function Build(item: Item): Option<Record> {
    if |item.result| >= 6 then
      match ItemId(item)
      case None => None
      case Some(id) =>
        var session := SessionOf(id);
        var numbers := SortAsc(item.result[..5]);
        var special := Some(item.result[5]);
        if Validate535(numbers, special) then
          Some(Record(IntToString(id), LotteryType, item.date, Some(DrawTime(session)), Some(session), numbers, special))
        else None
    else None
  }

  /**
   * A line yields a record exactly when it has at least six results, a
   * numeric id, its first five results are distinct and within [1, 35], and
   * its sixth is within [1, 12] and differs from the first five. The record
   * holds those five in ascending order, the sixth as its special number, and
   * the session and time the parity of its id gives.
   */
  lemma BuildMeaning(item: Item)
    ensures Build(item).Some? <==>
      && |item.result| >= 6 && ItemId(item).Some?
      && Distinct(item.result[..5]) && (forall x | x in item.result[..5] :: Lo <= x <= Hi)
      && SpecialLo <= item.result[5] <= SpecialHi && item.result[5] !in item.result[..5]
    ensures Build(item).Some? ==>
      var r := Build(item).value;
      var id := ItemId(item).value;
      && r.drawId == IntToString(id) && r.lotteryType == LotteryType && r.drawDate == item.date
      && r.jackpot2 == Some(item.result[5])
      && (r.session == Some(AM) <==> id % 2 == 1) && (r.session == Some(PM) <==> id % 2 == 0)
      && (r.drawTime == Some("13:00") <==> r.session == Some(AM))
      && |r.numbers| == 5 && StrictlyAsc(r.numbers) && forall x :: x in r.numbers <==> x in item.result[..5]
  {
    if |item.result| >= 6 {
      var first := item.result[..5];
      SortedDraw(first);
      Validate535Meaning(SortAsc(first), Some(item.result[5]));
      assert "13:00" != "21:00" by { assert "13:00"[0] == '1' && "21:00"[0] == '2'; }
    }
  }

  /** A well-formed Lotto 5/35 record: five ascending numbers from 1 to 35, a distinct special number from 1 to 12, and a session. */
  predicate ValidRecord(r: Record) {
    && |r.numbers| == 5 && StrictlyAsc(r.numbers) && (forall x | x in r.numbers :: Lo <= x <= Hi)
    && r.jackpot2.Some? && SpecialLo <= r.jackpot2.value <= SpecialHi && r.jackpot2.value !in r.numbers
    && r.session.Some? && r.lotteryType == LotteryType
  }

  /** Every record `_fetch_all` returns is well formed. */
  lemma FetchAllValid(items: seq<Item>)
    ensures forall r | r in Reverse(Kept(items, Build)) :: ValidRecord(r)
  {
    forall i | 0 <= i < |items| ensures Build(items[i]).Some? ==> ValidRecord(Build(items[i]).value) {
      BuildMeaning(items[i]);
    }
    KeptSatisfy(items, Build, ValidRecord);
  }

  /** `_fetch_all`: the kept records, newest first. */
  method FetchAll(items: seq<Item>) returns (records: seq<Record>)
    ensures records == Reverse(Kept(items, Build))
  {
    records := CollectRecords(items, Build);
  }

  /** `fetch_latest(session)`: the newest record, of the given session when one is given. */
  method FetchLatest(items: seq<Item>, session: Option<Session>) returns (r: Option<Record>)
    ensures var records := Reverse(Kept(items, Build));
      var first := FirstWanted(records, None, session);
      r == if first.None? then None else Some(records[first.value])
  {
    var records := FetchAll(items);
    r := FindFirst(records, None, session);
  }

  /** `fetch_draw(draw_id, session)`: the newest record with id `str(int(draw_id))` and the session, if given. */
  method FetchDraw(items: seq<Item>, drawId: string, session: Option<Session>) returns (r: Result<Option<Record>, FetchError>)
    ensures Canonical(drawId).None? <==> r.Failure?
    ensures r.Success? ==>
      var records := Reverse(Kept(items, Build));
      var first := FirstWanted(records, Some(Canonical(drawId).value), session);
      r.value == if first.None? then None else Some(records[first.value])
  {
    var records := FetchAll(items);
    r := BaseCrawler.FetchDraw(records, drawId, session);
  }

  /** `fetch_date_range(from, to, session)`: newest first, the records within [from, to] of the session, up to the first one older than `from`. */
  method FetchDateRange(items: seq<Item>, from: Date, to: Date, session: Option<Session>) returns (results: seq<Record>)
    ensures results == DateRange(Reverse(Kept(items, Build)), from, to, session)
  {
    var records := FetchAll(items);
    results := BaseCrawler.FetchDateRange(records, from, to, session);
  }

  /** `fetch_session(date, session)`: the first record of that day and session, if any; it has that date and session. */
  method FetchSession(items: seq<Item>, date: Date, session: Session) returns (r: Option<Record>)
    ensures var day := DateRange(Reverse(Kept(items, Build)), date, date, Some(session));
      r == if |day| == 0 then None else Some(day[0])
    ensures r.Some? ==> r.value.drawDate == date && r.value.session == Some(session)
    ensures r.Some? ==> r.value in Reverse(Kept(items, Build))
  {
    var results := FetchDateRange(items, date, date, Some(session));
    if |results| > 0 {
      assert results[0] in results;
      r := Some(results[0]);
    } else {
      r := None;
    }
  }
}
