# Automated traffic system: a Dafny model of its counting core

This project models the part of the automated traffic system that stores half-hourly car counts and answers questions about them. It covers:

- **Saving and the transactional file import** (TrafficDataService). A record is refused when its timestamp is null, when its count is negative, or when its timestamp is already stored. An import of "timestamp count" lines either saves every line or, on the first bad line, saves nothing.
- **The service's aggregates.** These are the total of all counts, the totals per date, the three records with the highest counts, the statistics map and the three contiguous half-hours with the fewest cars.
- **The repository queries** those services rely on (TrafficDataRepository).
- **The sample-data runner** (DataInitializer). It is lenient where the import is strict.
- **The rule-based forecast** (TrafficAnalysisService).
- **The text and JSON reports** (TrafficReportService).
- **The request condition that routes by path version** (ApiVersionRequestCondition).

How things are represented:

- **The table** is the class `TrafficDataRepository.TrafficStore`. Its field `records: seq<TrafficData>` has unique timestamps as its invariant (`Valid`), and `Save` models the column's unique constraint.
- **Service methods that read or change the table** are methods on the store:
  - `SaveTrafficData`, `ProcessTrafficDataFile` and `InitSampleData` change it;
  - `FindLeastCarsContiguousPeriod`, `GenerateReport` and `GetReportAsJson` run the source's loops and string building.
- **Each method is proved against a specification function.** These are `SaveOutcome`, `ProcessFile`, `LoadedSampleData`, `LeastCarsPeriod`, `ReportText` and `ReportJson`. The lemmas about those functions carry the properties.
- **A timestamp** is a whole number of seconds. Its date is `t / 86400` and its hour of day is `(t / 3600) % 24`. The date-time parser and the two formatters are function-valued parameters: `parseTime`, `formatTime` and `formatDate`.
- **The sample-data resource** is the parameter `resource`. It holds the file's text, or `None` where reading it throws `IOException`.
- **Java `int` arithmetic** is explicit: `Wrap32` is two's-complement wrap-around, and counts have type `Int32`. Sums the source accumulates in an `int` wrap. Sums it accumulates in a `long` or through `Collectors.summingInt` are stated both wrapped and as the exact sum under the condition that they fit.
- **`double` values** are exact `real` numbers. `DoubleToInt` writes out Java's narrowing `(int)` cast (toward zero, clamped).
- **Exceptions** are the `Failure`/`Fail` side of `Result`/`Outcome`, over the `Error` datatype of `TrafficModel`.

Three behaviours of the code shape the contracts:

1. `getTrafficStatistics` throws on every non-empty table, because of its peak-hour format string (see Findings).
2. The peak hour and the top three are picked by `max` over a `HashMap` and by the query's `ORDER BY car_count DESC`. Among equal counts the order follows the map and the query, so the contracts claim only maximality.
3. DataInitializer saves through the repository directly. It saves negative counts, skips lines with the wrong number of tokens, and keeps the rows it saved before a failure.

The service test stubs `findTopByCarCount(3)`, but `getTopThreeHalfHours` calls `findTop3ByOrderByCarCountDesc()`. The model follows the service.

## Model

Source paths are relative to the repository root.

| member | source | states |
|---|---|---|
| TrafficModel.HourWithinDay | src/main/java/com/example/automatedtrafficsystem/repository/TrafficDataRepository.java:63-72 | the hour a record is grouped under (`HourOf`, for `getHour`) lies in 0..23, and the record's instant falls inside that hour of its date (`DateOf`, for `toLocalDate`) |
| TrafficModel.GroupTotalsSum | src/main/java/com/example/automatedtrafficsystem/service/TrafficDataService.java:75-82 | the per-group totals of any grouping (by date, by hour) add up to the total of all counts |
| TrafficModel.TotalCountAppend | src/main/java/com/example/automatedtrafficsystem/service/TrafficDataService.java:59-62 | the total of counts (`TotalCount`, the stream's sum) is additive over concatenation |
| TrafficModel.HourOf | src/main/java/com/example/automatedtrafficsystem/service/TrafficDataService.java:125-129 | `getHour()`: the hour of day, in 0..23 |
| TrafficModel.GroupTotals | src/main/java/com/example/automatedtrafficsystem/service/TrafficDataService.java:125-129 | `groupingBy` with `summingInt` before wrapping: keys exactly the groups present, each mapped to its exact sum |
| TrafficDataRepository.FindByTimestampBetween | src/main/java/com/example/automatedtrafficsystem/repository/TrafficDataRepository.java:31-35 | exactly the records (with multiplicity) whose timestamp lies in the half-open window [start, end) |
| TrafficDataRepository.FindAllByOrderByTimestampAsc | src/main/java/com/example/automatedtrafficsystem/repository/TrafficDataRepository.java:52 | a permutation of the rows sorted by timestamp, strictly increasing when timestamps are unique |
| TrafficDataRepository.FindTopByCarCount | src/main/java/com/example/automatedtrafficsystem/repository/TrafficDataRepository.java:43-44 | the first `min(limit, rows)` records in non-increasing count, every selected record's count at least every unselected one's, drawn from the rows |
| TrafficDataRepository.FindTop3ByOrderByCarCountDesc | src/main/java/com/example/automatedtrafficsystem/repository/TrafficDataRepository.java:41 | the top selection with limit 3 |
| TrafficDataRepository.TopOfSorted | src/main/java/com/example/automatedtrafficsystem/repository/TrafficDataRepository.java:41-44 | a prefix of the rows sorted by descending count is a top selection |
| TrafficDataRepository.FindByTimestamp | src/main/java/com/example/automatedtrafficsystem/repository/TrafficDataRepository.java:54-60 | present exactly when some row has the timestamp, and then a row with that timestamp |
| TrafficDataRepository.FindByTimestampUnique | src/main/java/com/example/automatedtrafficsystem/repository/TrafficDataRepository.java:54-60 | with unique timestamps the lookup returns the very row stored under it |
| TrafficDataRepository.FindDailyTrafficSummary | src/main/java/com/example/automatedtrafficsystem/repository/TrafficDataRepository.java:74-83 | one row per date present, dates strictly ascending, each with its date's sum of counts |
| TrafficDataRepository.FindHourlyTrafficDistribution | src/main/java/com/example/automatedtrafficsystem/repository/TrafficDataRepository.java:63-72 | one row per hour present, distinct hours, totals non-increasing, each with its hour's sum of counts |
| TrafficDataRepository.TrafficStore.Save | src/main/java/com/example/automatedtrafficsystem/model/TrafficData.java:20-21 | an insert that the unique timestamp column refuses when the timestamp is stored; otherwise the row is appended; the invariant is kept |
| TrafficDataRepository.TrafficStore.Count | src/main/java/com/example/automatedtrafficsystem/config/DataInitializer.java:29 | `count()` is the number of rows |
| TrafficDataRepository.TrafficStore.Rollback | src/main/java/com/example/automatedtrafficsystem/service/TrafficDataService.java:172 | a rollback restores the rows as they were when the transaction began |
| TrafficDataService.SaveOutcome | src/main/java/com/example/automatedtrafficsystem/service/TrafficDataService.java:25-47 | null timestamp, then negative count, then stored timestamp are refused with their errors, in that order; success exactly otherwise, with the new record |
| TrafficDataService.SaveTrafficData | src/main/java/com/example/automatedtrafficsystem/service/TrafficDataService.java:25-47 | the store changes exactly as `SaveOutcome` says: the record appended on success, untouched on failure; unique timestamps kept |
| TrafficDataService.SaveKeepsUnique | src/main/java/com/example/automatedtrafficsystem/service/TrafficDataService.java:38-46 | saving never creates two rows with one timestamp |
| TrafficDataService.SaveAddsCount | src/main/java/com/example/automatedtrafficsystem/service/TrafficDataService.java:42-46 | a successful save raises the exact total by its count; a refused one leaves the total as it was |
| TrafficDataService.SaveThenFind | src/main/java/com/example/automatedtrafficsystem/service/TrafficDataService.java:38-46 | after saving a new timestamp, looking it up returns the saved record |
| TrafficDataService.SaveTwiceRejected | src/main/java/com/example/automatedtrafficsystem/service/TrafficDataService.java:38-40 | saving the same timestamp a second time is refused as a duplicate |
| TrafficDataService.GetTotalCars | src/main/java/com/example/automatedtrafficsystem/service/TrafficDataService.java:49-63 | 0 for an empty table; otherwise the `int`-wrapped `TotalCount`, the exact sum when it fits and counts are non-negative |
| TrafficDataService.GetDailyCarCounts | src/main/java/com/example/automatedtrafficsystem/service/TrafficDataService.java:65-83 | empty map for an empty table; keys are exactly the dates present, each mapped to its (wrapped) sum, exact when the total fits |
| TrafficDataService.DailyCountsSumExact | src/main/java/com/example/automatedtrafficsystem/service/TrafficDataService.java:49-83 | when the total fits, the daily counts add up to `getTotalCars`, which is the exact total |
| TrafficDataService.GetTopThreeHalfHours | src/main/java/com/example/automatedtrafficsystem/service/TrafficDataService.java:85-89 | the top-3 selection by count, of size 3 whenever there are at least 3 rows |
| TrafficDataService.WindowSumExact | src/main/java/com/example/automatedtrafficsystem/service/TrafficDataService.java:157-158 | `WindowSum`, the loop's two wrapped `int` additions, is the exact sum of three consecutive counts when that fits |
| TrafficDataService.WindowSumWrapped | src/main/java/com/example/automatedtrafficsystem/service/TrafficDataService.java:157-158 | the loop's window sum is the exact sum of its three counts wrapped once to `int` |
| TrafficDataService.EarliestMinWindow | src/main/java/com/example/automatedtrafficsystem/service/TrafficDataService.java:155-167 | the first window start whose sum no window undercuts |
| TrafficDataService.LeastCarsPeriod | src/main/java/com/example/automatedtrafficsystem/service/TrafficDataService.java:148-170 | with fewer than 3 rows, all of them by ascending time; otherwise the earliest contiguous 3-record window of that order with the least sum |
| TrafficDataService.FindLeastCarsContiguousPeriod | src/main/java/com/example/automatedtrafficsystem/service/TrafficDataService.java:148-170 | the method's scan returns `LeastCarsPeriod` of the stored rows |
| TrafficDataService.LeastWindowIndex | src/main/java/com/example/automatedtrafficsystem/service/TrafficDataService.java:155-167 | the loop with the `Integer.MAX_VALUE` sentinel and strict `<` finds the earliest least window |
| TrafficDataService.ScanStep | src/main/java/com/example/automatedtrafficsystem/service/TrafficDataService.java:159-166 | one loop turn keeps "best so far" true: a smaller sum takes over, an equal or larger one does not |
| TrafficStatisticsReport.GetTrafficStatistics | src/main/java/com/example/automatedtrafficsystem/service/TrafficDataService.java:105-140 | the statistics carry `getTotalCars`, the row count, the mean per date and the peak hour, the latter present exactly for a non-empty table |
| TrafficStatisticsReport.DailyMean | src/main/java/com/example/automatedtrafficsystem/service/TrafficDataService.java:114-122 | 0 for an empty table, otherwise the sum of daily totals over the number of dates |
| TrafficStatisticsReport.AverageExact | src/main/java/com/example/automatedtrafficsystem/service/TrafficDataService.java:114-122 | when the total fits, the mean per date is the exact total over the number of dates |
| TrafficStatisticsReport.PeakHourOf | src/main/java/com/example/automatedtrafficsystem/service/TrafficDataService.java:125-134 | present exactly for a non-empty table: an hour present whose total no other hour's exceeds |
| TrafficStatisticsReport.PeakExact | src/main/java/com/example/automatedtrafficsystem/service/TrafficDataService.java:125-134 | when the total fits, the peak's cars is that hour's exact sum and no hour's exact sum is larger |
| TrafficStatisticsReport.PeakHourInDay | src/main/java/com/example/automatedtrafficsystem/service/TrafficDataService.java:125-129 | the peak hour is an hour of the day |
| TrafficStatisticsReport.PeakHeadsHourlyDistribution | src/main/java/com/example/automatedtrafficsystem/repository/TrafficDataRepository.java:63-72 | the statistics' peak total equals the first row of the hourly distribution query |
| TrafficStatisticsReport.PeakHourFormatRejected | src/main/java/com/example/automatedtrafficsystem/service/TrafficDataService.java:141 | the as-written format string is refused with UnknownFormatConversionException |
| TrafficStatisticsReport.IntendedPeakHourFormatAccepted | src/main/java/com/example/automatedtrafficsystem/service/TrafficDataService.java:141 | the corrected format string has only valid conversions |
| TrafficStatisticsReport.StatisticsFailWhenNotEmpty | src/main/java/com/example/automatedtrafficsystem/service/TrafficDataService.java:105-146 | `GetTrafficStatisticsAsWritten`, the call with the format string as written, succeeds on an empty table and throws UnknownFormatConversionException on every non-empty one |
| TrafficStatisticsReport.IntendedStatisticsSucceed | src/main/java/com/example/automatedtrafficsystem/service/TrafficDataService.java:105-146 | `GetTrafficStatisticsIntended`, the call with the corrected format string, always returns the statistics |
| TrafficStatisticsReport.PeakHourLabel | src/main/java/com/example/automatedtrafficsystem/service/TrafficDataService.java:141 | the intended label is `HH:00 - HH:59` with the two-digit peak hour in both places |
| TrafficStatisticsReport.FormatStatistics | src/main/java/com/example/automatedtrafficsystem/service/TrafficDataService.java:136-145 | the statistics are returned unless there is a peak to format and the format fails, which throws |
| TrafficDataIngestion.ParseLine | src/main/java/com/example/automatedtrafficsystem/service/TrafficDataService.java:176-184 | blank exactly when the trimmed line is empty, wrong token count exactly when it does not split into two, and a parsed line carries both tokens' parses |
| TrafficDataIngestion.ParseLineOfPair | src/main/java/com/example/automatedtrafficsystem/service/TrafficDataService.java:178-184 | a `timestamp count` line fails on the timestamp first, then on the number, else parses to both values |
| TrafficDataIngestion.IngestCharacterised | src/main/java/com/example/automatedtrafficsystem/service/TrafficDataService.java:172-188 | the import succeeds exactly when every non-blank line parses into a valid record and all timestamps stay distinct; it then appends those records in line order |
| TrafficDataIngestion.IngestExtends | src/main/java/com/example/automatedtrafficsystem/service/TrafficDataService.java:172-188 | a successful import keeps the earlier rows as a prefix and timestamps unique |
| TrafficDataIngestion.ProcessFileCharacterised | src/main/java/com/example/automatedtrafficsystem/service/TrafficDataService.java:172-188 | `ProcessFile` of a text succeeds exactly when every line of it is blank or a valid record and the timestamps stay distinct, and then appends those records in line order |
| TrafficDataIngestion.MalformedLineFails | src/main/java/com/example/automatedtrafficsystem/service/TrafficDataService.java:178-181 | any non-blank line without exactly two tokens makes the whole import fail |
| TrafficDataIngestion.DuplicateLinesFail | src/main/java/com/example/automatedtrafficsystem/service/TrafficDataService.java:38-40 | two lines with one timestamp make the whole import fail |
| TrafficDataIngestion.ProcessTrafficDataFile | src/main/java/com/example/automatedtrafficsystem/service/TrafficDataService.java:172-188 | the transactional loop leaves the store as `ProcessFile` (split into lines, parse each, ingest in order) says: all records added on success, the rows rolled back on failure |
| TrafficDataIngestion.IngestStep | src/main/java/com/example/automatedtrafficsystem/service/TrafficDataService.java:175-187 | one loop turn: a blank line is skipped, a malformed or unparsable line or a refused save ends the import with its error, a saved record is carried to the rest |
| TrafficDataIngestion.TwoLineFileSaved | src/test/java/com/example/automatedtrafficsystem/service/TrafficDataServiceTest.java:124-133 | the test's two-line file saves both records, in order |
| SampleDataLoader.LoadedSampleData | src/main/java/com/example/automatedtrafficsystem/config/DataInitializer.java:27-53 | nothing happens on a non-empty table or an unreadable resource; otherwise the lines are loaded |
| SampleDataLoader.LoadParsed | src/main/java/com/example/automatedtrafficsystem/config/DataInitializer.java:36-47 | loading only ever appends, and keeps timestamps unique |
| SampleDataLoader.LoadCharacterised | src/main/java/com/example/automatedtrafficsystem/config/DataInitializer.java:36-47 | the runner ends normally exactly when no line fails to parse and timestamps stay distinct, having appended every parsed record |
| SampleDataLoader.SavesBeforeFailureKept | src/main/java/com/example/automatedtrafficsystem/config/DataInitializer.java:36-47 | rows saved before a line that fails to parse stay in the table |
| SampleDataLoader.LenientOnTokenCount | src/main/java/com/example/automatedtrafficsystem/config/DataInitializer.java:39-40 | a line with other than two tokens is skipped by the runner but fails the service's import |
| SampleDataLoader.LenientOnNegativeCount | src/main/java/com/example/automatedtrafficsystem/config/DataInitializer.java:44-45 | a negative count is saved by the runner but refused by the service's import |
| SampleDataLoader.LoadStep | src/main/java/com/example/automatedtrafficsystem/config/DataInitializer.java:37-46 | one loop turn: skip, escape with the error, refuse a stored timestamp, or carry the saved record on |
| SampleDataLoader.InitSampleData | src/main/java/com/example/automatedtrafficsystem/config/DataInitializer.java:27-53 | the runner leaves the table and its outcome as `LoadedSampleData` says |
| TrafficAnalysis.History | src/main/java/com/example/automatedtrafficsystem/ai/TrafficAnalysisService.java:72-76 | exactly the stored records of the thirty days before the start time |
| TrafficAnalysis.PredictTraffic | src/main/java/com/example/automatedtrafficsystem/ai/TrafficAnalysisService.java:70-124 | IllegalStateException exactly when that history is empty, otherwise the prediction from its mean count |
| TrafficAnalysis.Classify | src/main/java/com/example/automatedtrafficsystem/ai/TrafficAnalysisService.java:97-106 | one of LOW, MODERATE, HIGH with a confidence in (0, 1] |
| TrafficAnalysis.BandsByCounts | src/main/java/com/example/automatedtrafficsystem/ai/TrafficAnalysisService.java:97-106 | LOW below a mean of 10, MODERATE from 10 below 30, HIGH from 30, as comparisons of the sum against 10·n and 30·n |
| TrafficAnalysis.ClassifyMonotone | src/main/java/com/example/automatedtrafficsystem/ai/TrafficAnalysisService.java:97-106 | a higher mean never gives a lower band |
| TrafficAnalysis.CalculateAverageSpeed | src/main/java/com/example/automatedtrafficsystem/ai/TrafficAnalysisService.java:126-130 | `max(10, 60 - 0.5·avg)`, at most 60 for a non-negative mean |
| TrafficAnalysis.SpeedMonotone | src/main/java/com/example/automatedtrafficsystem/ai/TrafficAnalysisService.java:126-130 | the speed never rises as the mean rises |
| TrafficAnalysis.DoubleToInt | src/main/java/com/example/automatedtrafficsystem/ai/TrafficAnalysisService.java:109-111 | Java's `(int)` of a double: rounded toward zero, clamped to the `int` range |
| TrafficAnalysis.ExpectedVolume | src/main/java/com/example/automatedtrafficsystem/ai/TrafficAnalysisService.java:120 | the expected volume is non-negative for a non-negative mean |
| TrafficAnalysis.ExpectedTravelTime | src/main/java/com/example/automatedtrafficsystem/ai/TrafficAnalysisService.java:109-111 | the travel time is at least the 15-minute base for a non-negative mean |
| TrafficAnalysis.PredictionBounds | src/main/java/com/example/automatedtrafficsystem/ai/TrafficAnalysisService.java:109-123 | every prediction over non-negative counts keeps its times, reports the history size, and has speed in [10, 60], volume ≥ 0 and travel time ≥ 15 |
| TrafficAnalysis.MeanFivePrediction | src/main/java/com/example/automatedtrafficsystem/ai/TrafficAnalysisService.java:83-123 | a history averaging 5 cars gives LOW, 0.85, 57.5 km/h, volume 4 and 16 minutes |
| TrafficAnalysis.TestHistoryPrediction | src/test/java/com/example/automatedtrafficsystem/ai/TrafficAnalysisServiceTest.java:51-85 | the test's history of 10, 15 and 20 cars gives MODERATE, 0.75, 52.5 km/h, volume 12, 19 minutes and "3 historical data points" |
| ApiVersioning.VersionsKept | src/main/java/com/example/automatedtrafficsystem/config/ApiVersionRequestCondition.java:16-18 | `GetApiVersions` returns the versions given to the constructor, in order |
| ApiVersioning.CombineIgnoresReceiver | src/main/java/com/example/automatedtrafficsystem/config/ApiVersionRequestCondition.java:22-24 | `Combine` yields `other`, which then matches exactly as `other` does |
| ApiVersioning.DigitRun | src/main/java/com/example/automatedtrafficsystem/config/ApiVersionRequestCondition.java:13 | the greedy `\d+`: the longest run of digits at a position |
| ApiVersioning.FindVersion | src/main/java/com/example/automatedtrafficsystem/config/ApiVersionRequestCondition.java:30 | `find()`: the leftmost position holding `v` and a digit, or none |
| ApiVersioning.VersionText | src/main/java/com/example/automatedtrafficsystem/config/ApiVersionRequestCondition.java:29-31 | absent exactly when the path has no `v<digit>`; otherwise a non-empty digit string |
| ApiVersioning.GetMatchingCondition | src/main/java/com/example/automatedtrafficsystem/config/ApiVersionRequestCondition.java:27-37 | null when the path has no version; NumberFormatException when it is too large for `int`; otherwise the condition itself exactly when the version is one of its own |
| ApiVersioning.NoVersionNoMatch | src/main/java/com/example/automatedtrafficsystem/config/ApiVersionRequestCondition.java:36 | a path without `v` matches no condition |
| ApiVersioning.FirstVersionRead | src/main/java/com/example/automatedtrafficsystem/config/ApiVersionRequestCondition.java:29-31 | the whole digit run after the first `v` is read: `/v12/...` is version 12 |
| ApiVersioning.UnversionedUploadPath | src/main/java/com/example/automatedtrafficsystem/config/ApiVersionRequestCondition.java:27-37 | `/api/traffic/upload` matches no condition |
| ApiVersioning.VersionOneUploadPath | src/main/java/com/example/automatedtrafficsystem/config/ApiVersionRequestCondition.java:27-37 | `/v1/traffic/upload` selects a condition declared for version 1 |
| ApiVersioning.CompareTo | src/main/java/com/example/automatedtrafficsystem/config/ApiVersionRequestCondition.java:40-42 | highest first version first; an empty version array throws ArrayIndexOutOfBoundsException |
| ApiVersioning.IntegerCompare | src/main/java/com/example/automatedtrafficsystem/config/ApiVersionRequestCondition.java:41 | `Integer.compare`: negative, zero or positive exactly as the first is less than, equal to or greater than the second |
| ApiVersioning.CompareAntisymmetric | src/main/java/com/example/automatedtrafficsystem/config/ApiVersionRequestCondition.java:40-42 | swapping the conditions negates the comparison |
| ApiVersioning.CompareTransitive | src/main/java/com/example/automatedtrafficsystem/config/ApiVersionRequestCondition.java:40-42 | the comparison is transitive |
| TrafficReport.GenerateReport | src/main/java/com/example/automatedtrafficsystem/service/TrafficReportService.java:21-61 | the string builder yields `ReportText` of the four service results |
| TrafficReport.AppendDailyLines | src/main/java/com/example/automatedtrafficsystem/service/TrafficReportService.java:30-38 | appends one terminated line per date, in ascending date order |
| TrafficReport.AppendRecordLines | src/main/java/com/example/automatedtrafficsystem/service/TrafficReportService.java:41-58 | appends one terminated line per record, in the list's order |
| TrafficReport.SortedDates | src/main/java/com/example/automatedtrafficsystem/service/TrafficReportService.java:31-32 | every date of the map once, strictly ascending |
| TrafficReport.RecordLines | src/main/java/com/example/automatedtrafficsystem/service/TrafficReportService.java:43-47 | one line per record, in order |
| TrafficReport.ReportLines | src/main/java/com/example/automatedtrafficsystem/service/TrafficReportService.java:21-61 | the report has 7 fixed lines plus one per date, per top record and per least-period record |
| TrafficReport.ReportTextIsLines | src/main/java/com/example/automatedtrafficsystem/service/TrafficReportService.java:21-61 | the report text is its lines, each terminated by a newline |
| TrafficReport.SectionedLayout | src/main/java/com/example/automatedtrafficsystem/service/TrafficReportService.java:25-58 | where each section and header sits among the lines |
| TrafficReport.ReportSplitsIntoLines | src/main/java/com/example/automatedtrafficsystem/service/TrafficReportService.java:21-61 | when the formatted dates and times are single-line, splitting the report at newlines gives back exactly its lines |
| TrafficReport.RecordLineReadBack | src/main/java/com/example/automatedtrafficsystem/service/TrafficReportService.java:45 | a record's report line, read by the file import, gives back that record |
| TrafficReport.RecordObject | src/main/java/com/example/automatedtrafficsystem/service/TrafficReportService.java:76-80 | an object with exactly the keys `timestamp` and `carCount`, holding the record's values |
| TrafficReport.RecordObjects | src/main/java/com/example/automatedtrafficsystem/service/TrafficReportService.java:74-82 | one object per record, in order |
| TrafficReport.ReportJson | src/main/java/com/example/automatedtrafficsystem/service/TrafficReportService.java:63-96 | exactly the four keys `totalCars`, `dailyCounts`, `topThreeHalfHours`, `leastCarsPeriod` |
| TrafficReport.GetReportAsJson | src/main/java/com/example/automatedtrafficsystem/service/TrafficReportService.java:63-96 | the map filled in turn equals `ReportJson` of the same service results as the text report |
| TrafficReport.JsonRecordMatchesLine | src/main/java/com/example/automatedtrafficsystem/service/TrafficReportService.java:45-93 | each JSON record object holds what the text report prints on that record's line |
| TrafficReport.JsonKeyOrder | src/main/java/com/example/automatedtrafficsystem/service/TrafficReportService.java:64 | the `TreeMap` lists its four keys in the order dailyCounts, leastCarsPeriod, topThreeHalfHours, totalCars |
| JavaText.Trim | src/main/java/com/example/automatedtrafficsystem/service/TrafficDataService.java:176 | `String.trim`: empty exactly for a blank line, and otherwise starting and ending above space |
| JavaText.Tokens | src/main/java/com/example/automatedtrafficsystem/service/TrafficDataService.java:178 | `split("\\s+")` of a trimmed line: non-empty whitespace-free tokens |
| JavaText.SplitLines | src/main/java/com/example/automatedtrafficsystem/service/TrafficDataService.java:174 | `split("\\r?\\n")`: no piece holds a line feed; `SplitJoinRoundTrip` and `SplitTerminated` state what the split gives back |
| JavaText.ParseInt | src/main/java/com/example/automatedtrafficsystem/service/TrafficDataService.java:184 | `Integer.parseInt`: a value exactly for a signed ASCII decimal numeral within the `int` range, and then that numeral's value |
| JavaText.SplitJoinRoundTrip | src/main/java/com/example/automatedtrafficsystem/service/TrafficDataService.java:174 | `split("\\r?\\n")` gives back lines joined by newlines, when none is empty at the end or holds a break |
| JavaText.SplitTerminated | src/main/java/com/example/automatedtrafficsystem/service/TrafficReportService.java:60 | newline-terminated lines split back into the same lines |
| JavaText.ParseIntRoundTrip | src/main/java/com/example/automatedtrafficsystem/service/TrafficDataService.java:184 | `Integer.parseInt` reads back any `int` printed in decimal |
| JavaText.Wrap32 | src/main/java/com/example/automatedtrafficsystem/service/TrafficDataService.java:59-62 | `int` wrap-around, the identity on values in range |
| JavaText.WrapAdd | src/main/java/com/example/automatedtrafficsystem/service/TrafficDataService.java:157-158 | wrapping an intermediate `int` result does not change a wrapped sum |
| Sorting.SortByKey | src/main/java/com/example/automatedtrafficsystem/repository/TrafficDataRepository.java:52 | a sorted permutation of its input |
| Sorting.SortedKeys | src/main/java/com/example/automatedtrafficsystem/service/TrafficDataService.java:75-82 | a set's members, each once, strictly ascending |

## Left out

- The HTTP controllers, the exception handler, pagination and Spring wiring: they only translate between HTTP and the services modelled here.
- `analyzeTrafficPatterns` and `OpenAIConfig`: the language-model call is a foreign service.
- `getTrafficDataById`, `getAllTrafficData` and `findById`: plain lookups and paging that no modelled operation uses.
- `findByDate`: no modelled operation calls it.
- `findLowestTrafficPeriod` (TrafficDataRepository.java:46-50): its query is not used and is not a valid window query, so no contract of it is stated.
- The test assertion that each repository method is called exactly once: calls are not observable in a functional model.
- Concurrency: transactions are modelled only as their rollback.
- The entity's `id` and `createdAt`: a generated key and the clock.
- The null filters in `getTotalCars` and `getDailyCarCounts`: both columns are `nullable = false`, so stored rows never hold null and the filters pass every row.
- `LocalDateTime.parse`, `toString` and `LocalDate.toString`: they are the parameters `parseTime`, `formatTime` and `formatDate`. Only the properties the model needs of them are taken as hypotheses.
- Reading `sample-data.txt`: it is the parameter `resource`, and `None` stands for the `IOException` case.
- TrafficAnalysis.PredictTraffic: `double` is modelled as exact `real`, so no claim is made about IEEE rounding at the band boundaries 10 and 30 or in the speed, volume and travel time.
- TrafficAnalysis.PredictTraffic: the unused `maxCars` is not computed.
- TrafficStatisticsReport.GetTrafficStatistics: the `%.2f` rendering of the average is not modelled. The statistics carry the real-valued mean.
- JavaText.ParseInt: non-ASCII Unicode digits, which `Integer.parseInt` also accepts, are not modelled.
- ApiVersioning.GetApiVersions: it returns the version array itself, and the caller could change it. The model keeps the versions as a value, so aliasing is not captured.
- TrafficDataService.GetTopThreeHalfHours: the order among records with equal counts is not fixed, and the same holds for the peak hour among equal hours. The contracts claim only maximality.
- TrafficReport.ReportSplitsIntoLines: where each record's line sits in the report is stated through `SectionedLayout` on `ReportLines`, not line by line on the split text.
- TrafficDataRepository.FindTopByCarCount: its `limit` is a `nat`. A negative `int` limit, which the database rejects or ignores depending on the engine, is not modelled; no service calls this query.
- SampleDataLoader.LoadParsed: a duplicate timestamp fails through the table's unique constraint (`UniqueConstraintViolation`). The database's own error message is not modelled.

## Findings

| source | as written | input that shows it | evidently intended | confidence | as-written member | corrected member |
|---|---|---|---|---|---|---|
| src/main/java/com/example/automatedtrafficsystem/service/TrafficDataService.java:141 | the peak-hour label is formatted with `"%02d:00 - %02:59"`, whose second field `%02:` has no conversion letter, so `String.format` throws UnknownFormatConversionException | any non-empty table, e.g. one record at 12:00 with 10 cars | `"%02d:00 - %02d:59"`, giving `12:00 - 12:59` | not executed | TrafficStatisticsReport.StatisticsFailWhenNotEmpty | TrafficStatisticsReport.IntendedStatisticsSucceed |
