/**
  TrafficDataService.java: validated insertion, the totals and per-date counts, the
  statistics, the top-3 query, the least-traffic window and the strict file ingestion.

  Java's `int` arithmetic wraps; the sums below are computed exactly and wrapped where
  the source sums into an `int` (`IntStream.sum`, `summingInt`, `+` on `int`).
 */
module TrafficDataService {
  import opened Wrappers
  import opened JavaText
  import opened Sorting
  import opened TrafficModel
  import opened TrafficDataRepository

  // ---------------------------------------------------------------------------
  // saveTrafficData

  /**
    What `saveTrafficData(timestamp, carCount)` returns or throws, in the source's
    order of checks: a null timestamp, then a negative count, then an existing
    record with the timestamp. Only a record passing all three is stored.
   */
  function SaveOutcome(rs: seq<TrafficData>, timestamp: Option<int>, carCount: Int32): (r: Result<TrafficData, Error>)
    ensures timestamp.None? ==> r == Failure(NullTimestamp)
    ensures timestamp.Some? && carCount < 0 ==> r == Failure(NegativeCarCount)
    ensures timestamp.Some? && carCount >= 0 && HasTimestamp(rs, timestamp.value) ==>
              r == Failure(DuplicateTimestamp(timestamp.value))
    ensures r.Success? <==> timestamp.Some? && carCount >= 0 && !HasTimestamp(rs, timestamp.value)
    ensures r.Success? ==> r.value == TrafficData(timestamp.value, carCount)
  {
    if timestamp.None? then Failure(NullTimestamp)
    else if carCount < 0 then Failure(NegativeCarCount)
    else if FindByTimestamp(rs, timestamp.value).Some? then Failure(DuplicateTimestamp(timestamp.value))
    else Success(TrafficData(timestamp.value, carCount))
  }

  /** The records after a save: one more on success, the same on failure. */
  function Stored(rs: seq<TrafficData>, r: Result<TrafficData, Error>): seq<TrafficData> {
    if r.Success? then rs + [r.value] else rs
  }

  /** Saving keeps the timestamps unique. */
  lemma SaveKeepsUnique(rs: seq<TrafficData>, timestamp: Option<int>, carCount: Int32)
    requires UniqueTimestamps(rs)
    ensures UniqueTimestamps(Stored(rs, SaveOutcome(rs, timestamp, carCount)))
  {
    var r := SaveOutcome(rs, timestamp, carCount);
    if r.Success? {
      var s := rs + [r.value];
      forall i, j | 0 <= i < j < |s| ensures s[i].timestamp != s[j].timestamp {
        if j == |rs| {
          assert s[i] == rs[i];
        }
      }
    }
  }

  /** A successful save raises the exact total by the saved count; a failed one changes nothing. */
  lemma SaveAddsCount(rs: seq<TrafficData>, timestamp: Option<int>, carCount: Int32)
    ensures var r := SaveOutcome(rs, timestamp, carCount);
            TotalCount(Stored(rs, r)) == TotalCount(rs) + (if r.Success? then carCount as int else 0)
  {
    var r := SaveOutcome(rs, timestamp, carCount);
    if r.Success? {
      assert (rs + [r.value])[..|rs|] == rs;
    }
  }

  /** The saved record is then what `findByTimestamp` finds. */
  lemma SaveThenFind(rs: seq<TrafficData>, t: int, carCount: Int32)
    requires UniqueTimestamps(rs)
    requires carCount >= 0 && !HasTimestamp(rs, t)
    ensures FindByTimestamp(Stored(rs, SaveOutcome(rs, Some(t), carCount)), t) == Some(TrafficData(t, carCount))
  {
    SaveKeepsUnique(rs, Some(t), carCount);
    var s := rs + [TrafficData(t, carCount)];
    FindByTimestampUnique(s, |rs|);
  }

  /** A second save of a stored timestamp is refused, whatever its count. */
  lemma SaveTwiceRejected(rs: seq<TrafficData>, t: int, first: Int32, second: Int32)
    requires first >= 0 && second >= 0 && !HasTimestamp(rs, t)
    ensures SaveOutcome(Stored(rs, SaveOutcome(rs, Some(t), first)), Some(t), second)
         == Failure(DuplicateTimestamp(t))
  {
    var s := rs + [TrafficData(t, first)];
    assert s[|rs|].timestamp == t;
  }

  /** `saveTrafficData`: validates, checks for a duplicate, then saves. */
  method SaveTrafficData(store: TrafficStore, timestamp: Option<int>, carCount: Int32)
    returns (r: Result<TrafficData, Error>)
    requires store.Valid()
    modifies store
    ensures store.Valid()
    ensures r == SaveOutcome(old(store.records), timestamp, carCount)
    ensures store.records == Stored(old(store.records), r)
  {
    if timestamp.None? {
      return Failure(NullTimestamp);
    }
    if carCount < 0 {
      return Failure(NegativeCarCount);
    }
    var existing := FindByTimestamp(store.records, timestamp.value);
    if existing.Some? {
      return Failure(DuplicateTimestamp(timestamp.value));
    }
    var d := TrafficData(timestamp.value, carCount);
    r := store.Save(d);
  }

  // ---------------------------------------------------------------------------
  // getTotalCars and getDailyCarCounts

  predicate NonNegativeCounts(rs: seq<TrafficData>) {
    forall i | 0 <= i < |rs| :: rs[i].carCount >= 0
  }

  /** `getTotalCars`: 0 for an empty store, otherwise the `int` sum of the counts. */
  function GetTotalCars(rs: seq<TrafficData>): (r: Int32)
    ensures rs == [] ==> r == 0
    ensures rs != [] ==> r == Wrap32(TotalCount(rs))
    ensures TotalCount(rs) <= MaxInt32 && NonNegativeCounts(rs) ==> r == TotalCount(rs)
  {
    if rs == [] then 0
    else
      TotalCountBounds(rs);
      Wrap32(TotalCount(rs))
  }

  lemma {:induction false} TotalCountBounds(rs: seq<TrafficData>)
    ensures NonNegativeCounts(rs) ==> TotalCount(rs) >= 0
  {
    if rs != [] {
      TotalCountBounds(rs[..|rs| - 1]);
    }
  }

  /** With non-negative counts each group's sum lies between 0 and the total. */
  lemma {:induction false} GroupSumBounds(rs: seq<TrafficData>, g: Grouping, k: int)
    requires NonNegativeCounts(rs)
    ensures 0 <= GroupSum(rs, g, k) <= TotalCount(rs)
  {
    if rs != [] {
      GroupSumBounds(rs[..|rs| - 1], g, k);
    }
  }

  /** `summingInt` per group: each key of the grouping mapped to its `int` sum. */
  function WrappedTotals(rs: seq<TrafficData>, g: Grouping): (m: map<int, Int32>)
    ensures m.Keys == GroupKeys(rs, g)
    ensures forall k | k in m :: m[k] == Wrap32(GroupSum(rs, g, k))
  {
    map k | k in GroupKeys(rs, g) :: Wrap32(GroupSum(rs, g, k))
  }

  /** Without overflow the `int` group sums are the exact ones. */
  lemma WrappedTotalsExact(rs: seq<TrafficData>, g: Grouping)
    requires TotalCount(rs) <= MaxInt32 && NonNegativeCounts(rs)
    ensures WrappedTotals(rs, g) == GroupTotals(rs, g)
  {
    GroupSumsFit(rs, g);
  }

  lemma GroupSumsFit(rs: seq<TrafficData>, g: Grouping)
    ensures TotalCount(rs) <= MaxInt32 && NonNegativeCounts(rs) ==>
              forall k :: 0 <= GroupSum(rs, g, k) <= MaxInt32
  {
    if TotalCount(rs) <= MaxInt32 && NonNegativeCounts(rs) {
      forall k ensures 0 <= GroupSum(rs, g, k) <= MaxInt32 {
        GroupSumBounds(rs, g, k);
      }
    }
  }

  /** `getDailyCarCounts`: one key per distinct date, holding that date's `int` sum. */
  function GetDailyCarCounts(rs: seq<TrafficData>): (m: map<int, Int32>)
    ensures rs == [] ==> m == map[]
    ensures m.Keys == GroupKeys(rs, ByDate)
    ensures forall k | k in m :: m[k] == Wrap32(GroupSum(rs, ByDate, k))
    ensures TotalCount(rs) <= MaxInt32 && NonNegativeCounts(rs) ==>
              forall k | k in m :: m[k] == GroupSum(rs, ByDate, k)
  {
    GroupSumsFit(rs, ByDate);
    if rs == [] then map[] else WrappedTotals(rs, ByDate)
  }

  /** Without overflow the daily values add up exactly to the total. */
  lemma DailyCountsSumExact(rs: seq<TrafficData>)
    requires NonNegativeCounts(rs) && TotalCount(rs) <= MaxInt32
    ensures ValuesSum(GetDailyCarCounts(rs)) == GetTotalCars(rs) == TotalCount(rs)
  {
    if rs != [] {
      WrappedTotalsExact(rs, ByDate);
      GroupTotalsSum(rs, ByDate);
      assert ValuesSum(WrappedTotals(rs, ByDate)) == TotalCount(rs);
    }
  }

  // ---------------------------------------------------------------------------
  // getTopThreeHalfHours

  /** `getTopThreeHalfHours` delegates to `findTop3ByOrderByCarCountDesc`. */
  function GetTopThreeHalfHours(rs: seq<TrafficData>): (r: seq<TrafficData>)
    ensures IsTopSelection(rs, r, 3)
    ensures |rs| >= 3 ==> |r| == 3
  {
    FindTop3ByOrderByCarCountDesc(rs)
  }

  // ---------------------------------------------------------------------------
  // findLeastCarsContiguousPeriod

  /** The `int` sum of the three counts from index `i`, added left to right as Java does. */
  function WindowSum(s: seq<TrafficData>, i: nat): Int32
    requires i + 3 <= |s|
  {
    Wrap32(Wrap32(s[i].carCount as int + s[i + 1].carCount as int) + s[i + 2].carCount as int)
  }

  /** The window sum is the exact sum of its three counts, wrapped once: the intermediate wrap changes nothing. */
  lemma WindowSumWrapped(s: seq<TrafficData>, i: nat)
    requires i + 3 <= |s|
    ensures WindowSum(s, i) == Wrap32(s[i].carCount as int + s[i + 1].carCount as int + s[i + 2].carCount as int)
  {
    WrapAdd(s[i].carCount as int + s[i + 1].carCount as int, s[i + 2].carCount as int);
  }

  /** Without overflow the window sum is the exact sum. */
  lemma WindowSumExact(s: seq<TrafficData>, i: nat)
    requires i + 3 <= |s|
    requires s[i].carCount >= 0 && s[i + 1].carCount >= 0 && s[i + 2].carCount >= 0
    requires s[i].carCount as int + s[i + 1].carCount as int + s[i + 2].carCount as int <= MaxInt32
    ensures WindowSum(s, i) == s[i].carCount as int + s[i + 1].carCount as int + s[i + 2].carCount as int
  {
  }

  /** The first of the windows `0 .. n-1` with the smallest sum. */
  function EarliestMinWindow(s: seq<TrafficData>, n: nat): (m: nat)
    requires 1 <= n && n + 2 <= |s|
    ensures m < n
    ensures forall k | 0 <= k < n :: WindowSum(s, m) <= WindowSum(s, k)
    ensures forall k | 0 <= k < m :: WindowSum(s, k) > WindowSum(s, m)
  {
    if n == 1 then 0
    else
      var m := EarliestMinWindow(s, n - 1);
      if WindowSum(s, n - 1) < WindowSum(s, m) then n - 1 else m
  }

  lemma EarliestMinWindowStep(s: seq<TrafficData>, n: nat)
    requires 1 <= n && n + 2 <= |s|
    ensures n == 1 ==> EarliestMinWindow(s, n) == 0
    ensures n > 1 ==>
              EarliestMinWindow(s, n)
              == (if WindowSum(s, n - 1) < WindowSum(s, EarliestMinWindow(s, n - 1)) then n - 1
                  else EarliestMinWindow(s, n - 1))
  {
  }

  /**
    Window `i` of `s` is a least one: no window has a smaller sum, and every earlier
    window has a larger one.
   */
  ghost predicate IsLeastWindow(s: seq<TrafficData>, i: nat) {
    && i + 3 <= |s|
    && (forall k | 0 <= k && k + 3 <= |s| :: WindowSum(s, i) <= WindowSum(s, k))
    && (forall k | 0 <= k < i :: WindowSum(s, k) > WindowSum(s, i))
  }

  /**
    What `findLeastCarsContiguousPeriod` returns: every record, by ascending timestamp,
    when there are fewer than three; otherwise the first three-record window of that
    order whose sum no other window undercuts.
   */
  function LeastCarsPeriod(rs: seq<TrafficData>): (r: seq<TrafficData>)
    ensures var s := FindAllByOrderByTimestampAsc(rs);
      && (|s| < 3 ==> r == s)
      && (|s| >= 3 ==> exists i: nat :: IsLeastWindow(s, i) && r == s[i..i + 3])
  {
    var s := FindAllByOrderByTimestampAsc(rs);
    if |s| < 3 then s
    else
      var m := EarliestMinWindow(s, |s| - 2);
      assert IsLeastWindow(s, m);
      s[m..m + 3]
  }

  /** `findLeastCarsContiguousPeriod`: the ordered records, then a scan for the least window. */
  method FindLeastCarsContiguousPeriod(store: TrafficStore) returns (r: seq<TrafficData>)
    ensures r == LeastCarsPeriod(store.records)
  {
    var all := FindAllByOrderByTimestampAsc(store.records);
    if |all| < 3 {
      return all;
    }
    var m := LeastWindowIndex(all);
    r := all[m..m + 3];
  }

  /** The scan keeping the smallest window sum seen so far and where it starts; a later equal sum does not replace it. */
  method LeastWindowIndex(all: seq<TrafficData>) returns (minIndex: nat)
    requires |all| >= 3
    ensures minIndex == EarliestMinWindow(all, |all| - 2)
  {
    var minSum: Int32 := MaxInt32;
    minIndex := 0;
    var i := 0;
    while i <= |all| - 3
      invariant i <= |all| - 2 && Scanned(all, i, minIndex, minSum)
    {
      var sum := WindowSum(all, i);
      ScanStep(all, i, minIndex, minSum);
      if sum < minSum {
        minSum := sum;
        minIndex := i;
      }
      i := i + 1;
    }
  }

  /** After `i` windows the scan holds the earliest least window and its sum (nothing yet when `i` is 0). */
  ghost predicate Scanned(all: seq<TrafficData>, i: nat, minIndex: nat, minSum: Int32)
    requires i + 2 <= |all|
  {
    if i == 0 then minIndex == 0 && minSum == MaxInt32
    else minIndex == EarliestMinWindow(all, i) && minSum == WindowSum(all, minIndex)
  }

  lemma ScanStep(all: seq<TrafficData>, i: nat, minIndex: nat, minSum: Int32)
    requires i + 3 <= |all| && Scanned(all, i, minIndex, minSum)
    ensures WindowSum(all, i) < minSum ==> Scanned(all, i + 1, i, WindowSum(all, i))
    ensures WindowSum(all, i) >= minSum ==> Scanned(all, i + 1, minIndex, minSum)
  {
    EarliestMinWindowStep(all, i + 1);
  }
}
