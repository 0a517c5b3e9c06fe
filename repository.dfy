/**
  The store's query contract (TrafficDataRepository.java) as functions over the
  stored records, and the store itself, which the services and the loader update.

  The store holds its records in insertion order; the order the source's `findAll`
  returns is not fixed, and nothing below depends on it.
 */
module TrafficDataRepository {
  import opened Wrappers
  import opened JavaText
  import opened Sorting
  import opened TrafficModel

  /** The sort key of `ORDER BY timestamp ASC`. */
  function Timestamp(d: TrafficData): int {
    d.timestamp
  }

  /** The sort key of `ORDER BY car_count DESC`: ascending in this key is descending in the count. */
  function DescendingCount(d: TrafficData): int {
    -(d.carCount as int)
  }

  /** `WHERE t.timestamp >= :startDate AND t.timestamp < :endDate`: exactly the records in the half-open window. */
  function FindByTimestampBetween(rs: seq<TrafficData>, start: int, end: int): (r: seq<TrafficData>)
    ensures forall d :: multiset(r)[d] == if start <= d.timestamp < end then multiset(rs)[d] else 0
    ensures forall d :: d in r <==> d in rs && start <= d.timestamp < end
  {
    if rs == [] then []
    else
      var p, d := rs[..|rs| - 1], rs[|rs| - 1];
      assert rs == p + [d];
      FindByTimestampBetween(p, start, end) + (if start <= d.timestamp < end then [d] else [])
  }

  /** `findAllByOrderByTimestampAsc`: every record, by ascending timestamp (strictly, as timestamps are unique). */
  function FindAllByOrderByTimestampAsc(rs: seq<TrafficData>): (r: seq<TrafficData>)
    ensures multiset(r) == multiset(rs) && |r| == |rs|
    ensures SortedBy(r, Timestamp)
    ensures UniqueTimestamps(rs) ==> StrictlySortedBy(r, Timestamp)
  {
    if UniqueTimestamps(rs) then
      SortByKeyStrict(rs, Timestamp);
      SortByKey(rs, Timestamp)
    else
      SortByKey(rs, Timestamp)
  }

  /**
    What `ORDER BY car_count DESC LIMIT k` promises whatever order it gives ties:
    `min(k, |rs|)` of the records, by non-increasing count, none smaller than any left out.
   */
  predicate IsTopSelection(rs: seq<TrafficData>, r: seq<TrafficData>, k: nat) {
    && |r| == (if k < |rs| then k else |rs|)
    && multiset(r) <= multiset(rs)
    && (forall i, j | 0 <= i < j < |r| :: r[i].carCount >= r[j].carCount)
    && (forall d, e | d in multiset(rs) - multiset(r) && e in r :: d.carCount <= e.carCount)
  }

  /** A prefix of the records sorted by descending count is a top selection. */
  lemma TopOfSorted(rs: seq<TrafficData>, s: seq<TrafficData>, k: nat)
    requires multiset(s) == multiset(rs)
    requires SortedBy(s, DescendingCount)
    ensures |s| == |rs|
    ensures IsTopSelection(rs, s[..if k < |s| then k else |s|], k)
  {
    assert |s| == |multiset(s)| == |rs|;
    var n := if k < |s| then k else |s|;
    SplitMultiset(s, n);
    PrefixNonIncreasing(s, n);
    PrefixAboveRest(s, n);
  }

  lemma SplitMultiset(s: seq<TrafficData>, n: nat)
    requires n <= |s|
    ensures multiset(s) - multiset(s[..n]) == multiset(s[n..])
    ensures multiset(s[..n]) <= multiset(s)
  {
    assert s == s[..n] + s[n..];
  }

  lemma PrefixNonIncreasing(s: seq<TrafficData>, n: nat)
    requires n <= |s| && SortedBy(s, DescendingCount)
    ensures forall i, j | 0 <= i < j < |s[..n]| :: s[..n][i].carCount >= s[..n][j].carCount
  {
    forall i, j | 0 <= i < j < n ensures s[i].carCount >= s[j].carCount {
      assert DescendingCount(s[i]) <= DescendingCount(s[j]);
    }
  }

  lemma PrefixAboveRest(s: seq<TrafficData>, n: nat)
    requires n <= |s| && SortedBy(s, DescendingCount)
    ensures forall d, e | d in multiset(s[n..]) && e in s[..n] :: d.carCount <= e.carCount
  {
    forall d, e | d in multiset(s[n..]) && e in s[..n] ensures d.carCount <= e.carCount {
      var j :| 0 <= j < |s[n..]| && s[n..][j] == d;
      var i :| 0 <= i < n && s[..n][i] == e;
      assert s[i] == e && s[n + j] == d;
      assert DescendingCount(s[i]) <= DescendingCount(s[n + j]);
    }
  }

  /** The native query `ORDER BY car_count DESC LIMIT :limit`. */
  function FindTopByCarCount(rs: seq<TrafficData>, limit: nat): (r: seq<TrafficData>)
    ensures IsTopSelection(rs, r, limit)
  {
    var s := SortByKey(rs, DescendingCount);
    TopOfSorted(rs, s, limit);
    s[..if limit < |s| then limit else |s|]
  }

  /** The derived query `findTop3ByOrderByCarCountDesc`. */
  function FindTop3ByOrderByCarCountDesc(rs: seq<TrafficData>): (r: seq<TrafficData>)
    ensures IsTopSelection(rs, r, 3)
  {
    FindTopByCarCount(rs, 3)
  }

  /** `findByTimestamp`: a stored record with exactly that timestamp, when there is one. */
  function FindByTimestamp(rs: seq<TrafficData>, t: int): (r: Option<TrafficData>)
    ensures r.Some? <==> HasTimestamp(rs, t)
    ensures r.Some? ==> r.value in rs && r.value.timestamp == t
  {
    if rs == [] then None
    else if rs[0].timestamp == t then Some(rs[0])
    else
      var r := FindByTimestamp(rs[1..], t);
      assert HasTimestamp(rs, t) ==> HasTimestamp(rs[1..], t) by {
        if HasTimestamp(rs, t) {
          var i :| 0 <= i < |rs| && rs[i].timestamp == t;
          assert rs[1..][i - 1] == rs[i];
        }
      }
      assert HasTimestamp(rs[1..], t) ==> HasTimestamp(rs, t) by {
        if HasTimestamp(rs[1..], t) {
          var i :| 0 <= i < |rs[1..]| && rs[1..][i].timestamp == t;
          assert rs[i + 1] == rs[1..][i];
        }
      }
      r
  }

  /** With unique timestamps the record found is the one holding the timestamp. */
  lemma FindByTimestampUnique(rs: seq<TrafficData>, i: int)
    requires UniqueTimestamps(rs)
    requires 0 <= i < |rs|
    ensures FindByTimestamp(rs, rs[i].timestamp) == Some(rs[i])
  {
    var t := rs[i].timestamp;
    assert HasTimestamp(rs, t);
    var r := FindByTimestamp(rs, t);
    var j :| 0 <= j < |rs| && rs[j] == r.value;
    assert rs[j].timestamp == rs[i].timestamp;
  }

  // ---------------------------------------------------------------------------
  // The two summary queries

  /** One row of a `GROUP BY` summary: the group key and `SUM(t.carCount)` (SQL sums do not wrap). */
  datatype GroupRow = GroupRow(key: int, total: int)

  /** The sort key of `ORDER BY SUM(t.carCount) DESC`. */
  function DescendingTotal(e: GroupRow): int {
    -e.total
  }

  function RowsOf(ks: seq<int>, rs: seq<TrafficData>, g: Grouping): (r: seq<GroupRow>)
    ensures |r| == |ks|
    ensures forall i | 0 <= i < |ks| :: r[i] == GroupRow(ks[i], GroupSum(rs, g, ks[i]))
  {
    seq(|ks|, i requires 0 <= i < |ks| => GroupRow(ks[i], GroupSum(rs, g, ks[i])))
  }

  /** `findDailyTrafficSummary`: one row per date, by ascending date, each with its sum. */
  function FindDailyTrafficSummary(rs: seq<TrafficData>): (r: seq<GroupRow>)
    ensures forall i, j | 0 <= i < j < |r| :: r[i].key < r[j].key
    ensures forall i | 0 <= i < |r| :: r[i].key in GroupKeys(rs, ByDate)
    ensures forall k | k in GroupKeys(rs, ByDate) :: exists i | 0 <= i < |r| :: r[i].key == k
    ensures forall i | 0 <= i < |r| :: r[i].total == GroupSum(rs, ByDate, r[i].key)
  {
    var ks := SortedKeys(GroupKeys(rs, ByDate));
    var r := RowsOf(ks, rs, ByDate);
    RowsOfSortedKeys(rs, ByDate, ks, r);
    r
  }

  /** The rows built from the sorted group keys: one per key, ascending. */
  lemma RowsOfSortedKeys(rs: seq<TrafficData>, g: Grouping, ks: seq<int>, r: seq<GroupRow>)
    requires ks == SortedKeys(GroupKeys(rs, g)) && r == RowsOf(ks, rs, g)
    ensures forall i, j | 0 <= i < j < |r| :: r[i].key < r[j].key
    ensures forall i | 0 <= i < |r| :: r[i].key in GroupKeys(rs, g)
    ensures forall k | k in GroupKeys(rs, g) :: exists i | 0 <= i < |r| :: r[i].key == k
    ensures forall i | 0 <= i < |r| :: r[i].total == GroupSum(rs, g, r[i].key)
  {
    RowKeysCover(GroupKeys(rs, g), ks, r);
  }

  lemma RowKeysCover(keys: set<int>, ks: seq<int>, r: seq<GroupRow>)
    requires forall k :: k in ks <==> k in keys
    requires |r| == |ks| && forall i | 0 <= i < |r| :: r[i].key == ks[i]
    ensures forall i | 0 <= i < |r| :: r[i].key in keys
    ensures forall k | k in keys :: exists i | 0 <= i < |r| :: r[i].key == k
  {
    forall i | 0 <= i < |r| ensures r[i].key in keys {
      assert ks[i] in ks;
    }
    forall k | k in keys ensures exists i | 0 <= i < |r| :: r[i].key == k {
      assert k in ks;
      var i :| 0 <= i < |ks| && ks[i] == k;
      assert r[i].key == k;
    }
  }

  /** `findHourlyTrafficDistribution`: one row per hour of day, by non-increasing sum. */
  function FindHourlyTrafficDistribution(rs: seq<TrafficData>): (r: seq<GroupRow>)
    ensures forall i, j | 0 <= i < j < |r| :: r[i].total >= r[j].total
    ensures forall i, j | 0 <= i < j < |r| :: r[i].key != r[j].key
    ensures forall i | 0 <= i < |r| :: r[i].key in GroupKeys(rs, ByHour)
    ensures forall k | k in GroupKeys(rs, ByHour) :: exists i | 0 <= i < |r| :: r[i].key == k
    ensures forall i | 0 <= i < |r| :: r[i].total == GroupSum(rs, ByHour, r[i].key)
  {
    var ks := SortedKeys(GroupKeys(rs, ByHour));
    var rows := RowsOf(ks, rs, ByHour);
    var r := SortByKey(rows, DescendingTotal);
    HourlyRows(rs, ks, rows, r);
    r
  }

  lemma HourlyRows(rs: seq<TrafficData>, ks: seq<int>, rows: seq<GroupRow>, r: seq<GroupRow>)
    requires ks == SortedKeys(GroupKeys(rs, ByHour))
    requires rows == RowsOf(ks, rs, ByHour)
    requires multiset(r) == multiset(rows) && SortedBy(r, DescendingTotal)
    ensures forall i, j | 0 <= i < j < |r| :: r[i].total >= r[j].total
    ensures forall i, j | 0 <= i < j < |r| :: r[i].key != r[j].key
    ensures forall i | 0 <= i < |r| :: r[i].key in GroupKeys(rs, ByHour)
    ensures forall k | k in GroupKeys(rs, ByHour) :: exists i | 0 <= i < |r| :: r[i].key == k
    ensures forall i | 0 <= i < |r| :: r[i].total == GroupSum(rs, ByHour, r[i].key)
  {
    forall i, j | 0 <= i < j < |r| ensures r[i].total >= r[j].total {
      assert DescendingTotal(r[i]) <= DescendingTotal(r[j]);
    }
    RowsOfSortedKeys(rs, ByHour, ks, rows);
    PermutedRows(rs, ByHour, rows, r);
    forall i, j | 0 <= i < j < |rows| ensures rows[i] != rows[j] {
      assert rows[i].key < rows[j].key;
    }
    PermutationNoDuplicates(rows, r);
  }

  /** A permutation of rows that hold each key's group sum holds the same keys and sums. */
  lemma PermutedRows(rs: seq<TrafficData>, g: Grouping, rows: seq<GroupRow>, r: seq<GroupRow>)
    requires multiset(r) == multiset(rows)
    requires forall i | 0 <= i < |rows| :: rows[i].key in GroupKeys(rs, g)
    requires forall k | k in GroupKeys(rs, g) :: exists i | 0 <= i < |rows| :: rows[i].key == k
    requires forall i | 0 <= i < |rows| :: rows[i].total == GroupSum(rs, g, rows[i].key)
    ensures forall i | 0 <= i < |r| :: r[i].key in GroupKeys(rs, g)
    ensures forall k | k in GroupKeys(rs, g) :: exists i | 0 <= i < |r| :: r[i].key == k
    ensures forall i | 0 <= i < |r| :: r[i].total == GroupSum(rs, g, r[i].key)
  {
    forall i | 0 <= i < |r|
      ensures r[i].key in GroupKeys(rs, g) && r[i].total == GroupSum(rs, g, r[i].key)
    {
      assert r[i] in multiset(rows);
      var j :| 0 <= j < |rows| && rows[j] == r[i];
    }
    forall k | k in GroupKeys(rs, g) ensures exists i | 0 <= i < |r| :: r[i].key == k {
      var j :| 0 <= j < |rows| && rows[j].key == k;
      assert rows[j] in multiset(r);
      var i :| 0 <= i < |r| && r[i] == rows[j];
    }
  }

  // ---------------------------------------------------------------------------
  // The store

  /**
    The `traffic_data` table behind `JpaRepository`: its rows, whose timestamp
    column carries a unique constraint.
   */
  class TrafficStore {
    var records: seq<TrafficData>

    ghost predicate Valid()
      reads this
    {
      UniqueTimestamps(records)
    }

    constructor ()
      ensures records == [] && Valid()
    {
      records := [];
    }

    /**
      `save` of a new entity: an insert, which the unique constraint refuses when
      the timestamp is already stored.
     */
    method Save(d: TrafficData) returns (r: Result<TrafficData, Error>)
      requires Valid()
      modifies this
      ensures Valid()
      ensures HasTimestamp(old(records), d.timestamp) ==>
                r == Failure(UniqueConstraintViolation(d.timestamp)) && records == old(records)
      ensures !HasTimestamp(old(records), d.timestamp) ==>
                r == Success(d) && records == old(records) + [d]
    {
      var existing := FindByTimestamp(records, d.timestamp);
      if existing.Some? {
        r := Failure(UniqueConstraintViolation(d.timestamp));
      } else {
        records := records + [d];
        r := Success(d);
      }
    }

    /** `count()`. */
    method Count() returns (n: nat)
      ensures n == |records|
    {
      n := |records|;
    }

    /** A transaction's rollback: the rows return to what they were when it began. */
    method Rollback(snapshot: seq<TrafficData>)
      requires UniqueTimestamps(snapshot)
      modifies this
      ensures records == snapshot && Valid()
    {
      records := snapshot;
    }
  }
}
