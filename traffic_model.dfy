/**
  The time-stamped vehicle-count record (TrafficData.java), the calendar keys the
  aggregations group by, the error kinds the core raises, and the sums over records.

  A timestamp is a count of seconds since a zone-less epoch, as Java's
  `LocalDateTime` is zone-less: its date is `t / 86400` (days since the epoch, floor
  division) and its hour of day is `(t / 3600) % 24`.
 */
module TrafficModel {
  import opened JavaText
  import opened Sorting

  const SecondsPerHour: int := 3600
  const SecondsPerDay: int := 86400

  /** One observation: a unique timestamp and the number of cars seen (a Java `int`). */
  datatype TrafficData = TrafficData(timestamp: int, carCount: Int32)

  /** `timestamp.toLocalDate()`, as a day number; LocalDate order is day-number order. */
  function DateOf(t: int): int {
    t / SecondsPerDay
  }

  /** `timestamp.getHour()`. */
  function HourOf(t: int): (h: int)
    ensures 0 <= h < 24
  {
    (t / SecondsPerHour) % 24
  }

  /** A timestamp is its day's start, plus whole hours, plus less than an hour. */
  lemma HourWithinDay(t: int)
    ensures DateOf(t) * SecondsPerDay + HourOf(t) * SecondsPerHour <= t
    ensures t < DateOf(t) * SecondsPerDay + (HourOf(t) + 1) * SecondsPerHour
  {
    var q := t / SecondsPerHour;
    assert q * SecondsPerHour <= t < (q + 1) * SecondsPerHour;
    assert q / 24 == t / SecondsPerDay;
    assert q == (q / 24) * 24 + q % 24;
  }

  /** The exceptions the core throws, one constructor per distinct cause. */
  datatype Error =
    | NullTimestamp                          // IllegalArgumentException "Timestamp cannot be null"
    | NegativeCarCount                       // IllegalArgumentException "Car count cannot be negative"
    | DuplicateTimestamp(timestamp: int)     // IllegalArgumentException "Traffic data already exists for timestamp: ..."
    | InvalidLineFormat(line: string)        // IllegalArgumentException "Invalid line format: " + line
    | UnparsableTimestamp(text: string)      // DateTimeParseException from LocalDateTime.parse
    | NumberFormat(text: string)             // NumberFormatException from Integer.parseInt
    | UniqueConstraintViolation(timestamp: int) // the store's unique constraint on the timestamp column
    | InsufficientHistory                    // IllegalStateException "Insufficient historical data for prediction"
    | UnknownFormatConversion                // UnknownFormatConversionException from String.format
    | ArrayIndexOutOfBounds(index: int)      // ArrayIndexOutOfBoundsException

  /** The store's invariant: the timestamp column is unique. */
  predicate UniqueTimestamps(rs: seq<TrafficData>) {
    forall i, j | 0 <= i < j < |rs| :: rs[i].timestamp != rs[j].timestamp
  }

  predicate HasTimestamp(rs: seq<TrafficData>, t: int) {
    exists i | 0 <= i < |rs| :: rs[i].timestamp == t
  }

  // ---------------------------------------------------------------------------
  // Sums

  /** The sum of the car counts (exact: Java's 32-bit wrap-around is not modelled here). */
  function TotalCount(rs: seq<TrafficData>): int {
    if rs == [] then 0 else TotalCount(rs[..|rs| - 1]) + rs[|rs| - 1].carCount
  }

  /** The total of a concatenation is the sum of the totals. */
  lemma {:induction false} TotalCountAppend(a: seq<TrafficData>, b: seq<TrafficData>)
    ensures TotalCount(a + b) == TotalCount(a) + TotalCount(b)
    decreases |b|
  {
    if b != [] {
      assert (a + b)[..|a + b| - 1] == a + b[..|b| - 1];
      TotalCountAppend(a, b[..|b| - 1]);
    } else {
      assert a + b == a;
    }
  }

  /** Which calendar key a grouping collects records by. */
  datatype Grouping = ByDate | ByHour

  function KeyOf(g: Grouping, d: TrafficData): int {
    match g
    case ByDate => DateOf(d.timestamp)
    case ByHour => HourOf(d.timestamp)
  }

  /** The sum of the car counts of the records whose key is `k`. */
  function GroupSum(rs: seq<TrafficData>, g: Grouping, k: int): int {
    if rs == [] then 0
    else
      var d := rs[|rs| - 1];
      GroupSum(rs[..|rs| - 1], g, k) + (if KeyOf(g, d) == k then d.carCount else 0)
  }

  /** The distinct keys of the records. */
  function GroupKeys(rs: seq<TrafficData>, g: Grouping): (ks: set<int>)
    ensures forall i | 0 <= i < |rs| :: KeyOf(g, rs[i]) in ks
    ensures forall k | k in ks :: exists i | 0 <= i < |rs| :: KeyOf(g, rs[i]) == k
  {
    set i | 0 <= i < |rs| :: KeyOf(g, rs[i])
  }

  /** `groupingBy(key, summingInt(carCount))`: each distinct key mapped to its sum. */
  function GroupTotals(rs: seq<TrafficData>, g: Grouping): (m: map<int, int>)
    ensures m.Keys == GroupKeys(rs, g)
    ensures forall k | k in m :: m[k] == GroupSum(rs, g, k)
  {
    map k | k in GroupKeys(rs, g) :: GroupSum(rs, g, k)
  }

  /** The sum of `m`'s values at the listed keys. */
  function SumAt(ks: seq<int>, m: map<int, int>): int
    requires forall i | 0 <= i < |ks| :: ks[i] in m
  {
    if ks == [] then 0 else m[ks[0]] + SumAt(ks[1..], m)
  }

  /** The sum of every value of a map (each key counted once). */
  function ValuesSum(m: map<int, int>): int {
    var ks := SortedKeys(m.Keys);
    SumAt(ks, m)
  }

  /** The sum over the listed keys of each key's group sum. */
  function SumOfGroups(ks: seq<int>, rs: seq<TrafficData>, g: Grouping): int {
    if ks == [] then 0 else GroupSum(rs, g, ks[0]) + SumOfGroups(ks[1..], rs, g)
  }

  lemma {:induction false} SumAtGroupTotals(ks: seq<int>, rs: seq<TrafficData>, g: Grouping)
    requires forall i | 0 <= i < |ks| :: ks[i] in GroupTotals(rs, g)
    ensures SumAt(ks, GroupTotals(rs, g)) == SumOfGroups(ks, rs, g)
  {
    if ks != [] {
      SumAtGroupTotals(ks[1..], rs, g);
    }
  }

  /** Adding one record adds its count to exactly the groups listed with its key. */
  lemma {:induction false} SumOfGroupsSnoc(ks: seq<int>, rs: seq<TrafficData>, d: TrafficData, g: Grouping)
    requires StrictlyIncreasing(ks)
    ensures SumOfGroups(ks, rs + [d], g)
         == SumOfGroups(ks, rs, g) + (if KeyOf(g, d) in ks then d.carCount as int else 0)
  {
    if ks != [] {
      assert (rs + [d])[..|rs + [d]| - 1] == rs;
      SumOfGroupsSnoc(ks[1..], rs, d, g);
      assert ks == [ks[0]] + ks[1..];
      if KeyOf(g, d) == ks[0] {
        forall i | 0 <= i < |ks[1..]| ensures ks[1..][i] != KeyOf(g, d) {
          assert ks[0] < ks[i + 1];
        }
      }
    }
  }

  lemma {:induction false} SumOfGroupsEmpty(ks: seq<int>, g: Grouping)
    ensures SumOfGroups(ks, [], g) == 0
  {
    if ks != [] {
      SumOfGroupsEmpty(ks[1..], g);
    }
  }

  /** Listing every key once, the group sums add up to the total. */
  lemma {:induction false} SumOfGroupsIsTotal(ks: seq<int>, rs: seq<TrafficData>, g: Grouping)
    requires StrictlyIncreasing(ks)
    requires forall i | 0 <= i < |rs| :: KeyOf(g, rs[i]) in ks
    ensures SumOfGroups(ks, rs, g) == TotalCount(rs)
    decreases |rs|
  {
    if rs == [] {
      SumOfGroupsEmpty(ks, g);
    } else {
      var p, d := rs[..|rs| - 1], rs[|rs| - 1];
      assert rs == p + [d];
      assert KeyOf(g, rs[|rs| - 1]) in ks;
      SumOfGroupsSnoc(ks, p, d, g);
      SumOfGroupsIsTotal(ks, p, g);
    }
  }

  /** The per-key sums of any grouping add up to the total car count. */
  lemma GroupTotalsSum(rs: seq<TrafficData>, g: Grouping)
    ensures ValuesSum(GroupTotals(rs, g)) == TotalCount(rs)
  {
    var m := GroupTotals(rs, g);
    var ks := SortedKeys(m.Keys);
    forall i | 0 <= i < |ks| ensures ks[i] in m {
      assert ks[i] in ks;
    }
    SumAtGroupTotals(ks, rs, g);
    forall i | 0 <= i < |rs| ensures KeyOf(g, rs[i]) in ks {
      assert KeyOf(g, rs[i]) in m.Keys;
    }
    SumOfGroupsIsTotal(ks, rs, g);
  }
}
