/**
  The rule-based forecast of TrafficAnalysisService.java: `predictTraffic` and
  `calculateAverageSpeed`. Java's `double` arithmetic is exact `real` arithmetic
  here, and a `(int)` cast of a double is written out as Java defines it.
 */
module TrafficAnalysis {
  import opened Wrappers
  import opened JavaText
  import opened TrafficModel
  import opened TrafficDataRepository
  import opened TrafficDataService

  /** How far back the history reaches: `startTime.minusDays(30)`. */
  const HistoryDays: int := 30

  /**
    TrafficPrediction.java. The two fields `predictTraffic` never sets,
    `potentialIncidents` and `alternativeRoutes`, stay null (`None`).
   */
  datatype TrafficPrediction = TrafficPrediction(
    startTime: int,
    endTime: int,
    trafficCondition: string,
    confidenceScore: real,
    details: string,
    averageSpeed: real,
    expectedVolume: Int32,
    potentialIncidents: Option<string>,
    alternativeRoutes: Option<string>,
    expectedTravelTimeMinutes: Int32)

  /**
    Java's narrowing `(int)` of a finite double: toward zero, clamped to the `int`
    range.
   */
  function DoubleToInt(x: real): (r: Int32)
    ensures x >= 0.0 && x < MaxInt32 as real ==> r >= 0 && r as real <= x < r as real + 1.0
    ensures x < 0.0 && x > MinInt32 as real ==> r <= 0 && r as real - 1.0 < x <= r as real
    ensures x >= MaxInt32 as real ==> r == MaxInt32
    ensures x <= MinInt32 as real ==> r == MinInt32
  {
    if x >= MaxInt32 as real then MaxInt32
    else if x <= MinInt32 as real then MinInt32
    else if x >= 0.0 then x.Floor
    else -((-x).Floor)
  }

  /** `IntStream.average()` of the counts of a non-empty history. */
  function MeanCount(h: seq<TrafficData>): real
    requires h != []
  {
    TotalCount(h) as real / |h| as real
  }

  /** The condition and its confidence, as one band of the average. */
  datatype Band = Band(condition: string, confidence: real)

  /** The if / else-if / else on `avgCars`. */
  function Classify(avg: real): (b: Band)
    ensures b.condition == "LOW" || b.condition == "MODERATE" || b.condition == "HIGH"
    ensures 0.0 < b.confidence <= 1.0
  {
    if avg < 10.0 then Band("LOW", 0.85)
    else if avg < 30.0 then Band("MODERATE", 0.75)
    else Band("HIGH", 0.80)
  }

  /** `calculateAverageSpeed`: 60 km/h less half a km/h per car, but never under 10. */
  function CalculateAverageSpeed(avg: real): (r: real)
    ensures r >= 10.0 && r >= 60.0 - avg * 0.5
    ensures r == 10.0 || r == 60.0 - avg * 0.5
    ensures avg >= 0.0 ==> r <= 60.0
  {
    if 60.0 - avg * 0.5 >= 10.0 then 60.0 - avg * 0.5 else 10.0
  }

  /** `(int) (avgCars * 0.8)`. */
  function ExpectedVolume(avg: real): (r: Int32)
    ensures avg >= 0.0 ==> r >= 0
  {
    DoubleToInt(avg * 0.8)
  }

  /** `(int) (15 * (1.0 + avgCars / 50.0))`. */
  function ExpectedTravelTime(avg: real): (r: Int32)
    ensures avg >= 0.0 ==> r >= 15
  {
    DoubleToInt(15.0 * (1.0 + avg / 50.0))
  }

  /** `String.format("Prediction based on %d historical data points", n)`. */
  function PredictionDetails(n: nat): string {
    "Prediction based on " + NatToString(n) + " historical data points"
  }

  /** The records `predictTraffic` reads: `findByTimestampBetween(startTime.minusDays(30), startTime)`. */
  function History(rs: seq<TrafficData>, startTime: int): (h: seq<TrafficData>)
    ensures forall d :: d in h <==> d in rs && startTime - HistoryDays * SecondsPerDay <= d.timestamp < startTime
  {
    FindByTimestampBetween(rs, startTime - HistoryDays * SecondsPerDay, startTime)
  }

  /** The prediction built from a non-empty history. */
  function Prediction(h: seq<TrafficData>, startTime: int, endTime: int): (p: TrafficPrediction)
    requires h != []
  {
    var avg := MeanCount(h);
    var band := Classify(avg);
    TrafficPrediction(startTime, endTime, band.condition, band.confidence, PredictionDetails(|h|),
                      CalculateAverageSpeed(avg), ExpectedVolume(avg), None, None, ExpectedTravelTime(avg))
  }

  /**
    `predictTraffic(startTime, endTime)` on a store holding `rs`: IllegalStateException
    when the thirty days before `startTime` hold no record, otherwise the prediction
    from their mean count.
   */
  function PredictTraffic(rs: seq<TrafficData>, startTime: int, endTime: int): (r: Result<TrafficPrediction, Error>)
    ensures r.Failure? <==> History(rs, startTime) == []
    ensures r.Failure? ==> r.error == InsufficientHistory
    ensures r.Success? ==> r.value == Prediction(History(rs, startTime), startTime, endTime)
  {
    var h := History(rs, startTime);
    if h == [] then Failure(InsufficientHistory) else Success(Prediction(h, startTime, endTime))
  }

  // ---------------------------------------------------------------------------
  // Properties

  /** With `n > 0` the test `sum / n < k` is the integer test `sum < k * n`. */
  lemma MeanBelow(sum: int, n: int, k: int)
    requires n > 0
    ensures sum as real / n as real < k as real <==> sum < k * n
  {
    var m := sum as real / n as real;
    assert m * n as real == sum as real;
    if m < k as real {
      assert m * n as real < k as real * n as real;
    } else {
      assert m * n as real >= k as real * n as real;
    }
  }

  /** The three bands as integer comparisons of the history's sum against its size. */
  lemma BandsByCounts(h: seq<TrafficData>)
    requires h != []
    ensures Classify(MeanCount(h)) == Band("LOW", 0.85) <==> TotalCount(h) < 10 * |h|
    ensures Classify(MeanCount(h)) == Band("MODERATE", 0.75) <==> 10 * |h| <= TotalCount(h) < 30 * |h|
    ensures Classify(MeanCount(h)) == Band("HIGH", 0.80) <==> 30 * |h| <= TotalCount(h)
  {
    MeanBelow(TotalCount(h), |h|, 10);
    MeanBelow(TotalCount(h), |h|, 30);
  }

  /** The mean of non-negative counts is non-negative. */
  lemma MeanNonNegative(h: seq<TrafficData>)
    requires h != [] && NonNegativeCounts(h)
    ensures MeanCount(h) >= 0.0
  {
    TotalCountBounds(h);
  }

  /** A band never falls as the average rises. */
  lemma ClassifyMonotone(a: real, b: real)
    requires a <= b
    ensures Classify(a).condition == "HIGH" ==> Classify(b).condition == "HIGH"
    ensures Classify(b).condition == "LOW" ==> Classify(a).condition == "LOW"
  {
  }

  /** The speed never rises as the average rises. */
  lemma SpeedMonotone(a: real, b: real)
    requires a <= b
    ensures CalculateAverageSpeed(b) <= CalculateAverageSpeed(a)
  {
  }

  /** A history whose sum is `k` times its size has mean `k`. */
  lemma MeanIs(h: seq<TrafficData>, k: int)
    requires h != [] && TotalCount(h) == k * |h|
    ensures MeanCount(h) == k as real
  {
    var n := |h| as real;
    var m := MeanCount(h);
    assert m * n == TotalCount(h) as real;
    assert TotalCount(h) as real == k as real * n;
    assert (m - k as real) * n == 0.0;
  }

  /** The prediction's numbers for a mean of five cars. */
  lemma MeanFiveFigures()
    ensures Classify(5.0) == Band("LOW", 0.85) && CalculateAverageSpeed(5.0) == 57.5
    ensures ExpectedVolume(5.0) == 4 && ExpectedTravelTime(5.0) == 16
  {
    assert 5.0 * 0.8 == 4.0 && (4.0).Floor == 4;
    assert 15.0 * (1.0 + 5.0 / 50.0) == 16.5 && (16.5).Floor == 16;
  }

  /**
    A history averaging five cars: LOW with confidence 0.85, 57.5 km/h, a volume of 4
    and a 16-minute trip, the `(int)` cast cutting 16.5 down.
   */
  lemma MeanFivePrediction(h: seq<TrafficData>, startTime: int, endTime: int)
    requires h != [] && TotalCount(h) == 5 * |h|
    ensures var p := Prediction(h, startTime, endTime);
      && p.trafficCondition == "LOW" && p.confidenceScore == 0.85 && p.averageSpeed == 57.5
      && p.expectedVolume == 4 && p.expectedTravelTimeMinutes == 16
  {
    MeanIs(h, 5);
    MeanFiveFigures();
  }

  /** The prediction's numbers for a mean of fifteen cars. */
  lemma MeanFifteenFigures()
    ensures Classify(15.0) == Band("MODERATE", 0.75) && CalculateAverageSpeed(15.0) == 52.5
    ensures ExpectedVolume(15.0) == 12 && ExpectedTravelTime(15.0) == 19
  {
    assert 15.0 * 0.8 == 12.0 && (12.0).Floor == 12;
    assert 15.0 * (1.0 + 15.0 / 50.0) == 19.5 && (19.5).Floor == 19;
  }

  /**
    The history of the service test, 10, 15 and 20 cars: mean 15, MODERATE with
    confidence 0.75, 52.5 km/h, a volume of 12 and a 19-minute trip (19.5 cut down).
   */
  lemma TestHistoryPrediction(h: seq<TrafficData>, startTime: int, endTime: int, t1: int, t2: int, t3: int)
    requires h == [TrafficData(t1, 10), TrafficData(t2, 15), TrafficData(t3, 20)]
    ensures var p := Prediction(h, startTime, endTime);
      && p.trafficCondition == "MODERATE" && p.confidenceScore == 0.75 && p.averageSpeed == 52.5
      && p.expectedVolume == 12 && p.expectedTravelTimeMinutes == 19
      && p.details == PredictionDetails(3)
  {
    var one := [TrafficData(t1, 10)];
    var two := [TrafficData(t1, 10), TrafficData(t2, 15)];
    assert one[..0] == [] && two[..1] == one && h[..2] == two;
    assert TotalCount(one) == 10;
    assert TotalCount(two) == 25;
    assert TotalCount(h) == 45;
    MeanIs(h, 15);
    MeanFifteenFigures();
  }

  /**
    Over a store of non-negative counts every prediction keeps its start and end
    times, reports the history size, and has a speed between 10 and 60 km/h, a
    non-negative volume and at least the 15-minute base travel time.
   */
  lemma PredictionBounds(rs: seq<TrafficData>, startTime: int, endTime: int)
    requires NonNegativeCounts(rs)
    requires PredictTraffic(rs, startTime, endTime).Success?
    ensures var p := PredictTraffic(rs, startTime, endTime).value;
      && p.startTime == startTime && p.endTime == endTime
      && p.details == PredictionDetails(|History(rs, startTime)|)
      && 10.0 <= p.averageSpeed <= 60.0
      && p.expectedVolume >= 0
      && p.expectedTravelTimeMinutes >= 15
  {
    var h := History(rs, startTime);
    assert NonNegativeCounts(h) by {
      forall i | 0 <= i < |h| ensures h[i].carCount >= 0 {
        var d := h[i];
        assert d in h;
        var j :| 0 <= j < |rs| && rs[j] == d;
      }
    }
    MeanNonNegative(h);
  }
}
