/**
  The numeric part of `getTrafficStatistics` in TrafficDataService.java (the total,
  the mean per date and the peak hour), the format string it passes for the peak-hour
  label and what that does to the call.
 */
module TrafficStatisticsReport {
  import opened Wrappers
  import opened JavaText
  import opened Sorting
  import opened TrafficModel
  import opened TrafficDataRepository
  import opened TrafficDataService

  // ---------------------------------------------------------------------------
  // getTrafficStatistics (numeric values)

  /** An hour of day and the `int` sum of its counts. */
  datatype PeakHour = PeakHour(hour: int, cars: Int32)

  /** The values `getTrafficStatistics` puts in its map, before any of them is formatted. */
  datatype TrafficStatistics = TrafficStatistics(
    totalCars: Int32,
    averageCarsPerDay: real,
    totalRecords: nat,
    peak: Option<PeakHour>)

  /** A key with the largest value among the listed keys; the first of equal ones. */
  function BestKey(ks: seq<int>, m: map<int, Int32>): (b: int)
    requires ks != [] && forall i | 0 <= i < |ks| :: ks[i] in m
    ensures b in m && exists i | 0 <= i < |ks| :: ks[i] == b
    ensures forall i | 0 <= i < |ks| :: m[ks[i]] <= m[b]
  {
    if |ks| == 1 then ks[0]
    else
      var b := BestKey(ks[1..], m);
      assert forall i | 1 <= i < |ks| :: ks[i] == ks[1..][i - 1];
      if m[ks[0]] >= m[b] then ks[0] else b
  }

  /**
    `max(Map.Entry.comparingByValue())` over the hourly map: absent for an empty map,
    otherwise an entry whose value no other value exceeds. Which of several maximal
    hours the source returns depends on hash-map iteration order; this model takes
    the lowest.
   */
  function PeakOf(m: map<int, Int32>): (p: Option<PeakHour>)
    ensures p.None? <==> |m.Keys| == 0
    ensures p.Some? ==> p.value.hour in m && p.value.cars == m[p.value.hour]
    ensures p.Some? ==> forall h | h in m :: m[h] <= p.value.cars
  {
    if |m.Keys| == 0 then None
    else
      var ks := SortedKeys(m.Keys);
      KeysListed(m, ks);
      var b := BestKey(ks, m);
      Some(PeakHour(b, m[b]))
  }

  lemma KeysListed(m: map<int, Int32>, ks: seq<int>)
    requires forall k :: k in ks <==> k in m.Keys
    ensures forall i | 0 <= i < |ks| :: ks[i] in m
    ensures forall h | h in m :: exists i | 0 <= i < |ks| :: ks[i] == h
  {
    forall i | 0 <= i < |ks| ensures ks[i] in m {
      var k := ks[i];
      assert k in ks;
      assert k in m.Keys;
    }
    forall h | h in m ensures exists i | 0 <= i < |ks| :: ks[i] == h {
      assert h in ks;
      var i :| 0 <= i < |ks| && ks[i] == h;
    }
  }

  /** `IntStream.average().orElse(0.0)` over a map's values (summed without wrap-around, as a `long`). */
  function MeanOfValues(m: map<int, Int32>): (r: real)
    ensures |m.Keys| == 0 ==> r == 0.0
    ensures |m.Keys| > 0 ==> r == ValuesSum(m) as real / |m.Keys| as real
  {
    if |m.Keys| == 0 then 0.0 else ValuesSum(m) as real / |m.Keys| as real
  }

  /** A store has records exactly when it has a group. */
  lemma GroupsPresent(rs: seq<TrafficData>, g: Grouping)
    ensures rs == [] <==> |GroupKeys(rs, g)| == 0
  {
    if rs != [] {
      var ks := GroupKeys(rs, g);
      var k := KeyOf(g, rs[0]);
      assert k in ks;
      assert ks == (ks - {k}) + {k};
    }
  }

  /**
    The mean of the per-date `int` sums: 0.0 for an empty store, otherwise their
    exact sum over the number of distinct dates.
   */
  function DailyMean(rs: seq<TrafficData>): (r: real)
    ensures rs == [] ==> r == 0.0
    ensures rs != [] ==>
              r == ValuesSum(WrappedTotals(rs, ByDate)) as real / |GroupKeys(rs, ByDate)| as real
  {
    GroupsPresent(rs, ByDate);
    MeanOfValues(WrappedTotals(rs, ByDate))
  }

  /**
    The peak hour: absent exactly for an empty store, otherwise an hour that occurs
    in the store whose `int` sum no other hour's sum exceeds.
   */
  function PeakHourOf(rs: seq<TrafficData>): (p: Option<PeakHour>)
    ensures p.Some? <==> rs != []
    ensures p.Some? ==>
              && p.value.hour in GroupKeys(rs, ByHour)
              && p.value.cars == Wrap32(GroupSum(rs, ByHour, p.value.hour))
              && forall h | h in GroupKeys(rs, ByHour) :: Wrap32(GroupSum(rs, ByHour, h)) <= p.value.cars
  {
    GroupsPresent(rs, ByHour);
    PeakOf(WrappedTotals(rs, ByHour))
  }

  /** The peak hour is an hour of the day. */
  lemma PeakHourInDay(rs: seq<TrafficData>)
    ensures PeakHourOf(rs).Some? ==> 0 <= PeakHourOf(rs).value.hour < 24
  {
    var p := PeakHourOf(rs);
    if p.Some? {
      var i :| 0 <= i < |rs| && KeyOf(ByHour, rs[i]) == p.value.hour;
    }
  }

  /**
    `getTrafficStatistics` without its string formatting: the `int` total, the mean
    of the per-date sums, the record count and the peak hour with its sum.
   */
  function GetTrafficStatistics(rs: seq<TrafficData>): (s: TrafficStatistics)
    ensures s.totalCars == GetTotalCars(rs) && s.totalRecords == |rs|
    ensures s.averageCarsPerDay == DailyMean(rs) && s.peak == PeakHourOf(rs)
    ensures s.peak.Some? <==> rs != []
  {
    TrafficStatistics(GetTotalCars(rs), DailyMean(rs), |rs|, PeakHourOf(rs))
  }

  /** Without overflow the mean per day is the total over the number of distinct dates. */
  lemma AverageExact(rs: seq<TrafficData>)
    requires rs != [] && NonNegativeCounts(rs) && TotalCount(rs) <= MaxInt32
    ensures DailyMean(rs) == TotalCount(rs) as real / |GroupKeys(rs, ByDate)| as real
  {
    WrappedTotalsExact(rs, ByDate);
    GroupTotalsSum(rs, ByDate);
    assert ValuesSum(WrappedTotals(rs, ByDate)) == TotalCount(rs);
  }

  /** Without overflow the peak hour's sum is the exact maximum of the hourly sums. */
  lemma PeakExact(rs: seq<TrafficData>)
    requires rs != [] && NonNegativeCounts(rs) && TotalCount(rs) <= MaxInt32
    ensures var p := PeakHourOf(rs);
      && p.Some?
      && p.value.cars == GroupSum(rs, ByHour, p.value.hour)
      && forall h | h in GroupKeys(rs, ByHour) :: GroupSum(rs, ByHour, h) <= p.value.cars
  {
    var p := PeakHourOf(rs).value;
    GroupSumsFit(rs, ByHour);
    UnwrapMaximum(GroupKeys(rs, ByHour), GroupTotals(rs, ByHour), p.hour, p.cars);
  }

  lemma UnwrapMaximum(keys: set<int>, sums: map<int, int>, hour: int, cars: int)
    requires keys == sums.Keys && hour in keys
    requires forall k | k in keys :: 0 <= sums[k] <= MaxInt32
    requires cars == Wrap32(sums[hour])
    requires forall h | h in keys :: Wrap32(sums[h]) <= cars
    ensures cars == sums[hour] && forall h | h in keys :: sums[h] <= cars
  {
  }

  /** Without overflow the peak's sum heads the store's hourly distribution. */
  lemma PeakHeadsHourlyDistribution(rs: seq<TrafficData>)
    requires rs != [] && NonNegativeCounts(rs) && TotalCount(rs) <= MaxInt32
    ensures var dist := FindHourlyTrafficDistribution(rs);
      dist != [] && PeakHourOf(rs).value.cars == dist[0].total
  {
    PeakExact(rs);
    var p := PeakHourOf(rs).value;
    var dist := FindHourlyTrafficDistribution(rs);
    HeadIsLargest(rs, dist, p.hour, p.cars);
  }

  lemma HeadIsLargest(rs: seq<TrafficData>, dist: seq<GroupRow>, hour: int, cars: int)
    requires hour in GroupKeys(rs, ByHour) && cars == GroupSum(rs, ByHour, hour)
    requires forall h | h in GroupKeys(rs, ByHour) :: GroupSum(rs, ByHour, h) <= cars
    requires forall i, j | 0 <= i < j < |dist| :: dist[i].total >= dist[j].total
    requires forall i | 0 <= i < |dist| :: dist[i].key in GroupKeys(rs, ByHour)
    requires forall k | k in GroupKeys(rs, ByHour) :: exists i | 0 <= i < |dist| :: dist[i].key == k
    requires forall i | 0 <= i < |dist| :: dist[i].total == GroupSum(rs, ByHour, dist[i].key)
    ensures dist != [] && dist[0].total == cars
  {
    var i :| 0 <= i < |dist| && dist[i].key == hour;
    assert dist[0].total >= dist[i].total;
    assert dist[0].key in GroupKeys(rs, ByHour);
  }

  // ---------------------------------------------------------------------------
  // The peak-hour label

  /** The format string the source passes to `String.format` for the peak hour. */
  const PeakHourFormat: string := "%02d:00 - %02:59"

  /** The format it evidently means: both hours as two zero-padded digits. */
  const IntendedPeakHourFormat: string := "%02d:00 - %02d:59"

  predicate IsFlagOrWidth(c: char) {
    c in "-#+ 0,(<" || IsDigit(c)
  }

  predicate IsConversion(c: char) {
    c in "bBhHsScCdoxXeEfgGaAn%"
  }

  /** The end of the run of flag and width characters that starts at `i`. */
  function FlagsWidthEnd(f: string, i: nat): (j: nat)
    requires i <= |f|
    ensures i <= j <= |f|
    decreases |f| - i
  {
    if i == |f| || !IsFlagOrWidth(f[i]) then i else FlagsWidthEnd(f, i + 1)
  }

  /**
    `java.util.Formatter`'s parse of a format string from index `i`: every `%` must be
    followed, after optional flags and width, by a conversion character; otherwise it
    throws UnknownFormatConversionException before anything is written.
   */
  function CheckFormat(f: string, i: nat): Outcome<Error>
    requires i <= |f|
    decreases |f| - i
  {
    if i == |f| then Pass
    else if f[i] != '%' then CheckFormat(f, i + 1)
    else
      var j := FlagsWidthEnd(f, i + 1);
      if j < |f| && IsConversion(f[j]) then CheckFormat(f, j + 1)
      else Fail(UnknownFormatConversion)
  }

  /** The source's format string is refused: its second `%02` is followed by `:`. */
  lemma PeakHourFormatRejected()
    ensures CheckFormat(PeakHourFormat, 0) == Fail(UnknownFormatConversion)
  {
    var f := PeakHourFormat;
    HourField(f);
    MinutesText(f);
    AsWrittenSecondHour(f);
  }

  /** The intended format string is accepted. */
  lemma IntendedPeakHourFormatAccepted()
    ensures CheckFormat(IntendedPeakHourFormat, 0) == Pass
  {
    var f := IntendedPeakHourFormat;
    HourField(f);
    MinutesText(f);
    IntendedSecondHour(f);
  }

  /** Both strings start with the first hour's `%02d`, which the formatter accepts. */
  lemma HourField(f: string)
    requires f == "%02d:00 - %02:59" || f == "%02d:00 - %02d:59"
    ensures CheckFormat(f, 0) == CheckFormat(f, 4)
  {
    assert FlagsWidthEnd(f, 3) == 3;
    assert FlagsWidthEnd(f, 1) == 3;
  }

  /** Then both have the plain text ":00 - ". */
  lemma MinutesText(f: string)
    requires f == "%02d:00 - %02:59" || f == "%02d:00 - %02d:59"
    ensures CheckFormat(f, 4) == CheckFormat(f, 10)
  {
    assert CheckFormat(f, 4) == CheckFormat(f, 5) == CheckFormat(f, 6) == CheckFormat(f, 7);
    assert CheckFormat(f, 7) == CheckFormat(f, 8) == CheckFormat(f, 9) == CheckFormat(f, 10);
  }

  lemma AsWrittenSecondHour(f: string)
    requires f == "%02d:00 - %02:59"
    ensures CheckFormat(f, 10) == Fail(UnknownFormatConversion)
  {
    assert FlagsWidthEnd(f, 13) == 13;
    assert FlagsWidthEnd(f, 11) == 13;
    assert !IsConversion(f[13]);
  }

  lemma IntendedSecondHour(f: string)
    requires f == "%02d:00 - %02d:59"
    ensures CheckFormat(f, 10) == Pass
  {
    assert FlagsWidthEnd(f, 13) == 13;
    assert FlagsWidthEnd(f, 11) == 13;
    assert IsConversion(f[13]);
    assert CheckFormat(f, 14) == CheckFormat(f, 15) == CheckFormat(f, 16) == CheckFormat(f, 17) == Pass;
  }

  /**
    The end of `getTrafficStatistics`: the peak-hour label is formatted only when there
    is a peak hour, so a format check that fails (`o`) fails the call only then.
   */
  function FormatStatistics(s: TrafficStatistics, o: Outcome<Error>): (r: Result<TrafficStatistics, Error>)
    ensures s.peak.None? || o.Pass? ==> r == Success(s)
    ensures s.peak.Some? && o.Fail? ==> r == Failure(o.error)
  {
    if s.peak.None? then Success(s)
    else
      match o
      case Pass => Success(s)
      case Fail(e) => Failure(e)
  }

  /** `getTrafficStatistics` as written, with the source's format string. */
  function GetTrafficStatisticsAsWritten(rs: seq<TrafficData>): Result<TrafficStatistics, Error> {
    FormatStatistics(GetTrafficStatistics(rs), CheckFormat(PeakHourFormat, 0))
  }

  /** `getTrafficStatistics` with the intended format string. */
  function GetTrafficStatisticsIntended(rs: seq<TrafficData>): Result<TrafficStatistics, Error> {
    FormatStatistics(GetTrafficStatistics(rs), CheckFormat(IntendedPeakHourFormat, 0))
  }

  /** As written, the statistics fail exactly when the store is not empty. */
  lemma StatisticsFailWhenNotEmpty(rs: seq<TrafficData>)
    ensures GetTrafficStatisticsAsWritten(rs)
         == if rs == [] then Success(GetTrafficStatistics(rs)) else Failure(UnknownFormatConversion)
  {
    if rs == [] {
      EmptyStatisticsSucceed(rs);
    } else {
      NonEmptyStatisticsFail(rs);
    }
  }

  lemma NonEmptyStatisticsFail(rs: seq<TrafficData>)
    requires rs != []
    ensures GetTrafficStatisticsAsWritten(rs) == Failure(UnknownFormatConversion)
  {
    PeakHourFormatRejected();
  }

  lemma EmptyStatisticsSucceed(rs: seq<TrafficData>)
    requires rs == []
    ensures GetTrafficStatisticsAsWritten(rs) == Success(GetTrafficStatistics(rs))
  {
  }

  /** Under the intended format the statistics always succeed. */
  lemma IntendedStatisticsSucceed(rs: seq<TrafficData>)
    ensures GetTrafficStatisticsIntended(rs) == Success(GetTrafficStatistics(rs))
  {
    IntendedPeakHourFormatAccepted();
  }

  /** `%02d`: an hour of day as two zero-padded digits. */
  function TwoDigits(h: int): (r: string)
    requires 0 <= h < 24
    ensures |r| == 2 && AllDigits(r) && DigitsValue(r) == h
  {
    var hi, lo := DigitChar(h / 10), DigitChar(h % 10);
    var r := [hi, lo];
    assert r[..1] == [hi] && [hi][..0] == [];
    assert DigitsValue([hi]) == h / 10;
    r
  }

  /** The peak-hour label under the intended format, such as "07:00 - 07:59". */
  function PeakHourLabel(h: int): (r: string)
    requires 0 <= h < 24
    ensures |r| == 13 && AllDigits(r[..2]) && DigitsValue(r[..2]) == h
    ensures r[8..10] == r[..2] && r[2..8] == ":00 - " && r[10..] == ":59"
  {
    var d := TwoDigits(h);
    var r := d + ":00 - " + d + ":59";
    assert r[..2] == d && r[8..10] == d;
    r
  }

}
