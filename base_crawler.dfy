/**
 * BaseCrawler: the draw validator shared by the crawlers, and the record
 * handling every crawler repeats over the decoded JSONL feed: build and keep
 * records in feed order, then reverse them to newest first; find the first
 * record with an id and session; and collect an inclusive date window,
 * stopping at the first record older than its start.
 */
module BaseCrawler {
  import opened Wrappers
  import opened Seqs
  import opened Text

  /** A calendar date as `strptime(..., "%Y-%m-%d").date()` yields it. */
  datatype Date = Date(year: int, month: int, day: int)

  /** Chronological order on dates: year, then month, then day. */
  predicate DateBefore(a: Date, b: Date) {
    a.year < b.year || (a.year == b.year && (a.month < b.month || (a.month == b.month && a.day < b.day)))
  }

  predicate DateAtMost(a: Date, b: Date) {
    a == b || DateBefore(a, b)
  }

  lemma DateOrder(a: Date, b: Date, c: Date)
    ensures DateAtMost(a, b) && DateBefore(b, c) ==> DateBefore(a, c)
    ensures DateAtMost(a, b) || DateBefore(b, a)
  {
  }

  datatype Session = AM | PM

  /** One decoded JSONL line: its `id` (absent reads as 0), `date` and `result` (absent reads as []). */
  datatype Item = Item(id: Option<string>, date: Date, result: seq<int>)

  /** A draw record as the crawlers build it. Only Lotto 5/35 sets the time and session. */
  datatype Record = Record(drawId: string, lotteryType: string, drawDate: Date, drawTime: Option<string>,
                           session: Option<Session>, numbers: seq<int>, jackpot2: Option<int>)

  /** `int(data.get("id", 0))`; None is the ValueError that skips the line. */
  function ItemId(item: Item): Option<int> {
    match item.id
    case None => Some(0)
    case Some(s) => ParseInt(s)
  }

  /** The keys every record dict the crawlers build carries. */
  const RecordKeys: set<string> := {"draw_id", "lottery_type", "draw_date", "numbers", "jackpot2", "jackpot_amount"}

  const RequiredKeys: set<string> := {"draw_id", "lottery_type", "draw_date", "numbers"}

  /**
   * `validate_draw`: the required keys are present, and the numbers are six
   * values whose set also has six elements, all within [lo, hi].
   */
  function ValidateDraw(keys: set<string>, numbers: seq<int>, lo: int, hi: int): bool {
    RequiredKeys <= keys && |numbers| == 6 && |Elems(numbers)| == 6 && forall x | x in numbers :: lo <= x <= hi
  }

  /** A draw is accepted exactly when the keys are there and it is six distinct in-range numbers. */
  lemma ValidateDrawMeaning(keys: set<string>, numbers: seq<int>, lo: int, hi: int)
    ensures ValidateDraw(keys, numbers, lo, hi) <==>
      RequiredKeys <= keys && |numbers| == 6 && Distinct(numbers) && forall x | x in numbers :: lo <= x <= hi
  {
    DistinctCardinality(numbers);
  }

  /** `sorted(nums)` keeps the length and the elements, and is strictly ascending exactly when nums has no repeats. */
  lemma SortedDraw(nums: seq<int>)
    ensures |SortAsc(nums)| == |nums|
    ensures forall x :: x in SortAsc(nums) <==> x in nums
    ensures Distinct(SortAsc(nums)) <==> Distinct(nums)
    ensures Distinct(nums) ==> StrictlyAsc(SortAsc(nums))
  {
    var s := SortAsc(nums);
    SortAscMembers(nums);
    assert Elems(s) == Elems(nums);
    DistinctCardinality(s);
    DistinctCardinality(nums);
    if Distinct(nums) {
      SortDistinct(nums);
    }
  }

  // ---- _fetch_all ----

  /** The records built and kept from the items, in feed order. */
  function Kept(items: seq<Item>, build: Item -> Option<Record>): (r: seq<Record>)
    ensures |r| <= |items|
  {
    if |items| == 0 then []
    else
      var last := build(items[|items| - 1]);
      Kept(items[..|items| - 1], build) + (if last.Some? then [last.value] else [])
  }

  /** A property every built record has holds of every record `_fetch_all` returns. */
  lemma {:induction false} KeptSatisfy(items: seq<Item>, build: Item -> Option<Record>, P: Record -> bool)
    requires forall i | 0 <= i < |items| :: build(items[i]).Some? ==> P(build(items[i]).value)
    ensures forall r | r in Reverse(Kept(items, build)) :: P(r)
  {
    KeptSatisfyInOrder(items, build, P);
    var kept := Kept(items, build);
    forall r | r in Reverse(kept) ensures P(r) {
      var k :| 0 <= k < |kept| && Reverse(kept)[k] == r;
      assert kept[|kept| - 1 - k] == r;
    }
  }

  lemma {:induction false} KeptSatisfyInOrder(items: seq<Item>, build: Item -> Option<Record>, P: Record -> bool)
    requires forall i | 0 <= i < |items| :: build(items[i]).Some? ==> P(build(items[i]).value)
    ensures forall k | 0 <= k < |Kept(items, build)| :: P(Kept(items, build)[k])
  {
    if |items| > 0 {
      var init := items[..|items| - 1];
      assert forall i | 0 <= i < |init| :: init[i] == items[i];
      KeptSatisfyInOrder(init, build, P);
    }
  }

  /** `_fetch_all` after decoding: build each item in feed order, keep the accepted ones, return them reversed. */
  method CollectRecords(items: seq<Item>, build: Item -> Option<Record>) returns (records: seq<Record>)
    ensures records == Reverse(Kept(items, build))
  {
    var results: seq<Record> := [];
    for i := 0 to |items|
      invariant results == Kept(items[..i], build)
    {
      assert items[..i + 1][..i] == items[..i];
      var record := build(items[i]);
      if record.Some? {
        results := results + [record.value];
      }
    }
    assert items[..|items|] == items;
    records := Reverse(results);
  }

  // ---- fetch_latest / fetch_draw ----

  /** `session is None or record.get("draw_session") == session`. */
  predicate SessionMatches(r: Record, session: Option<Session>) {
    session.None? || r.session == session
  }

  /** The record has the id (when one is asked for) and the session (when one is asked for). */
  predicate Wanted(r: Record, id: Option<string>, session: Option<Session>) {
    (id.None? || r.drawId == id.value) && SessionMatches(r, session)
  }

  /** The position of the first wanted record, if any. */
  function FirstWanted(records: seq<Record>, id: Option<string>, session: Option<Session>): (r: Option<nat>)
    ensures r.Some? ==> r.value < |records| && Wanted(records[r.value], id, session)
    ensures r.Some? ==> forall j | 0 <= j < r.value :: !Wanted(records[j], id, session)
    ensures r.None? <==> forall j | 0 <= j < |records| :: !Wanted(records[j], id, session)
  {
    if |records| == 0 then None
    else if Wanted(records[0], id, session) then Some(0)
    else match FirstWanted(records[1..], id, session)
      case None => None
      case Some(i) => Some(i + 1)
  }

  /** The loop shared by `fetch_latest` and `fetch_draw`: return the first wanted record. */
  method FindFirst(records: seq<Record>, id: Option<string>, session: Option<Session>) returns (found: Option<Record>)
    ensures FirstWanted(records, id, session).None? ==> found.None?
    ensures FirstWanted(records, id, session).Some? ==> found == Some(records[FirstWanted(records, id, session).value])
  {
    for i := 0 to |records|
      invariant forall j | 0 <= j < i :: !Wanted(records[j], id, session)
    {
      if Wanted(records[i], id, session) {
        return Some(records[i]);
      }
    }
    return None;
  }

  datatype FetchError = InvalidDrawId(drawId: string)

  /**
   * `fetch_draw` over the newest-first records: the first record whose id is
   * the canonical spelling `str(int(draw_id))` and whose session matches. A
   * draw id that is not a numeral is the source's ValueError.
   */
  method FetchDraw(records: seq<Record>, drawId: string, session: Option<Session>) returns (r: Result<Option<Record>, FetchError>)
    ensures Canonical(drawId).None? <==> r.Failure?
    ensures r.Failure? ==> r.error == InvalidDrawId(drawId)
    ensures r.Success? ==>
      var first := FirstWanted(records, Some(Canonical(drawId).value), session);
      && (first.None? ==> r.value.None?)
      && (first.Some? ==> r.value == Some(records[first.value]))
  {
    var canonical := Canonical(drawId);
    if canonical.None? {
      return Failure(InvalidDrawId(drawId));
    }
    var found := FindFirst(records, Some(canonical.value), session);
    r := Success(found);
  }

  /**
   * Ids are compared by value: a record whose id is `str(k)` is the one asked
   * for exactly when the asked id parses to k, so "01234" finds draw 1234.
   */
  lemma IdMatchesByValue(drawId: string, k: int)
    requires Canonical(drawId).Some?
    ensures Canonical(drawId).value == IntToString(k) <==> ParseInt(drawId) == Some(k)
  {
    var n := ParseInt(drawId).value;
    IntRoundTrip(n);
    IntRoundTrip(k);
  }

  // ---- fetch_date_range ----

  predicate InWindow(d: Date, from: Date, to: Date) {
    DateAtMost(from, d) && DateAtMost(d, to)
  }

  /** What the `fetch_date_range` loop returns: window members in order, up to the first record older than `from`. */
  function DateRange(records: seq<Record>, from: Date, to: Date, session: Option<Session>): (r: seq<Record>)
    ensures forall x | x in r :: x in records && InWindow(x.drawDate, from, to) && SessionMatches(x, session)
  {
    if |records| == 0 then []
    else
      var rest := DateRange(records[1..], from, to, session);
      var d := records[0].drawDate;
      if InWindow(d, from, to) then (if SessionMatches(records[0], session) then [records[0]] + rest else rest)
      else if DateBefore(d, from) then []
      else rest
  }

  /** The records in the window with the session, in order, without stopping early. */
  function Window(records: seq<Record>, from: Date, to: Date, session: Option<Session>): seq<Record> {
    if |records| == 0 then []
    else
      var rest := Window(records[1..], from, to, session);
      if InWindow(records[0].drawDate, from, to) && SessionMatches(records[0], session) then [records[0]] + rest else rest
  }

  /** The records run from newest to oldest date. */
  predicate NewestFirst(records: seq<Record>) {
    forall i, j | 0 <= i < j < |records| :: DateAtMost(records[j].drawDate, records[i].drawDate)
  }

  /** On a newest-first list, stopping at the first record older than `from` loses nothing. */
  lemma {:induction false} DateRangeComplete(records: seq<Record>, from: Date, to: Date, session: Option<Session>)
    requires NewestFirst(records)
    ensures DateRange(records, from, to, session) == Window(records, from, to, session)
  {
    if |records| > 0 {
      DateRangeComplete(records[1..], from, to, session);
      var d := records[0].drawDate;
      if !InWindow(d, from, to) && DateBefore(d, from) {
        NoneOlderInWindow(records, from, to, session);
      }
    }
  }

  /** When the newest record is already older than `from`, so is every record after it. */
  lemma {:induction false} NoneOlderInWindow(records: seq<Record>, from: Date, to: Date, session: Option<Session>)
    requires NewestFirst(records) && |records| > 0 && DateBefore(records[0].drawDate, from)
    ensures Window(records, from, to, session) == []
  {
    DateOrder(records[0].drawDate, from, from);
    if |records| > 1 {
      DateOrder(records[1].drawDate, records[0].drawDate, from);
      NoneOlderInWindow(records[1..], from, to, session);
    }
  }

  /** The `fetch_date_range` loop with its early `break`. */
  method FetchDateRange(records: seq<Record>, from: Date, to: Date, session: Option<Session>) returns (results: seq<Record>)
    ensures results == DateRange(records, from, to, session)
  {
    results := [];
    var i := 0;
    while i < |records|
      invariant 0 <= i <= |records|
      invariant results + DateRange(records[i..], from, to, session) == DateRange(records, from, to, session)
    {
      var d := records[i].drawDate;
      assert records[i..][1..] == records[i + 1..];
      if InWindow(d, from, to) {
        if SessionMatches(records[i], session) {
          results := results + [records[i]];
        }
      } else if DateBefore(d, from) {
        break;
      }
      i := i + 1;
    }
  }
}
