/**
 * Power655Crawler: Power 6/55 draws, six numbers from 1 to 55 plus a second
 * jackpot number that is not range-checked, read from the decoded JSONL feed
 * (oldest line first).
 */
module Power655Crawler {
  import opened Wrappers
  import opened Seqs
  import opened Text
  import opened BaseCrawler

  const LotteryType: string := "power_655"
  const Lo: int := 1
  const Hi: int := 55

  /** The record `_fetch_all` builds from a line and keeps, if any. */
  function Build(item: Item): Option<Record> {
    if |item.result| >= 7 then
      match ItemId(item)
      case None => None
      case Some(id) =>
        var numbers := SortAsc(item.result[..6]);
        if ValidateDraw(RecordKeys, numbers, Lo, Hi) then
          Some(Record(IntToString(id), LotteryType, item.date, None, None, numbers, Some(item.result[6])))
        else None
    else None
  }

  /**
   * A line yields a record exactly when it has at least seven results, a
   * numeric id, and its first six results are distinct and within [1, 55];
   * the seventh is not checked. The record's numbers are those six in
   * ascending order, its second jackpot number the seventh result, and its id
   * the canonical spelling of the line's id.
   */
  lemma BuildMeaning(item: Item)
    ensures Build(item).Some? <==>
      |item.result| >= 7 && ItemId(item).Some? && Distinct(item.result[..6]) && forall x | x in item.result[..6] :: Lo <= x <= Hi
    ensures Build(item).Some? ==>
      var r := Build(item).value;
      && r.drawId == IntToString(ItemId(item).value) && r.lotteryType == LotteryType && r.drawDate == item.date
      && r.jackpot2 == Some(item.result[6]) && r.session.None?
      && |r.numbers| == 6 && StrictlyAsc(r.numbers) && forall x :: x in r.numbers <==> x in item.result[..6]
  {
    if |item.result| >= 7 {
      var first := item.result[..6];
      SortedDraw(first);
      ValidateDrawMeaning(RecordKeys, SortAsc(first), Lo, Hi);
    }
  }

  /** A well-formed Power 6/55 record: six ascending numbers from 1 to 55 and a second jackpot number. */
  predicate ValidRecord(r: Record) {
    |r.numbers| == 6 && StrictlyAsc(r.numbers) && (forall x | x in r.numbers :: Lo <= x <= Hi) && r.jackpot2.Some?
      && r.lotteryType == LotteryType
  }

  /** Every record `_fetch_all` returns is well formed. */
  lemma FetchAllValid(items: seq<Item>)
    ensures forall r | r in Reverse(Kept(items, Build)) :: ValidRecord(r)
  {
    forall i | 0 <= i < |items| ensures Build(items[i]).Some? ==> ValidRecord(Build(items[i]).value) {
      BuildMeaning(items[i]);
    }
    KeptSatisfy(items, Build, ValidRecord);
  }

  /** `_fetch_all`: the kept records, newest first. */
  method FetchAll(items: seq<Item>) returns (records: seq<Record>)
    ensures records == Reverse(Kept(items, Build))
  {
    records := CollectRecords(items, Build);
  }

  /** `fetch_latest`: the record built from the last valid line of the feed, or None. */
  method FetchLatest(items: seq<Item>) returns (r: Option<Record>)
    ensures var kept := Kept(items, Build);
      r == if |kept| == 0 then None else Some(kept[|kept| - 1])
  {
    var records := FetchAll(items);
    r := if |records| > 0 then Some(records[0]) else None;
  }

  /** `fetch_draw`: the newest record whose id equals `str(int(draw_id))`. */
  method FetchDraw(items: seq<Item>, drawId: string) returns (r: Result<Option<Record>, FetchError>)
    ensures Canonical(drawId).None? <==> r.Failure?
    ensures r.Success? ==>
      var records := Reverse(Kept(items, Build));
      var first := FirstWanted(records, Some(Canonical(drawId).value), None);
      r.value == if first.None? then None else Some(records[first.value])
  {
    var records := FetchAll(items);
    r := BaseCrawler.FetchDraw(records, drawId, None);
  }

  /** `fetch_date_range`: newest first, the records dated within [from, to], up to the first one older than `from`. */
  method FetchDateRange(items: seq<Item>, from: Date, to: Date) returns (results: seq<Record>)
    ensures results == DateRange(Reverse(Kept(items, Build)), from, to, None)
  {
    var records := FetchAll(items);
    results := BaseCrawler.FetchDateRange(records, from, to, None);
  }
}
