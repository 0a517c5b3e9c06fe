/**
  TrafficReportService.java: the plain-text report and its JSON form, both built
  from the four data-service queries. `LocalDate.toString` and
  `LocalDateTime.toString` are the parameters `formatDate` and `formatTime`.
 */
module TrafficReport {
  import opened Wrappers
  import opened JavaText
  import opened Sorting
  import opened TrafficModel
  import opened TrafficDataRepository
  import opened TrafficDataService
  import opened TrafficDataIngestion

  // ---------------------------------------------------------------------------
  // generateReport

  const DailyHeader: string := "Daily car counts:"
  const TopHeader: string := "Top 3 half hours with most cars:"
  /** One Java literal, written here as two so that each is small enough to check character by character. */
  const LeastHeader: string := "1.5 hour period with least cars " + "(3 contiguous half-hour records):"

  /** The literals appended before each section: its header on a line of its own, after a blank line for the last two. */
  const DailyHeading: string := DailyHeader + "\n"
  const TopHeading: string := "\n" + TopHeader + "\n"
  const LeastHeading: string := "\n" + LeastHeader + "\n"

  function TotalLine(total: Int32): string {
    "Total cars seen: " + IntToString(total)
  }

  /** `append(entry.getKey()).append(" ").append(entry.getValue())`. */
  function DateLine(date: int, count: Int32, formatDate: int -> string): string {
    formatDate(date) + " " + IntToString(count)
  }

  /** `append(data.getTimestamp()).append(" ").append(data.getCarCount())`. */
  function RecordLine(d: TrafficData, formatTime: int -> string): string {
    formatTime(d.timestamp) + " " + IntToString(d.carCount)
  }

  /** One line per date of `dates`, in that order. */
  function DatedLines(dates: seq<int>, daily: map<int, Int32>, formatDate: int -> string): (ls: seq<string>)
    requires forall i | 0 <= i < |dates| :: dates[i] in daily
    ensures |ls| == |dates|
    ensures forall i | 0 <= i < |dates| :: ls[i] == DateLine(dates[i], daily[dates[i]], formatDate)
  {
    seq(|dates|, i requires 0 <= i < |dates| => DateLine(dates[i], daily[dates[i]], formatDate))
  }

  /** The dates of `daily` in the order its sorted entries are visited: ascending, each once. */
  function SortedDates(daily: map<int, Int32>): (dates: seq<int>)
    ensures forall i | 0 <= i < |dates| :: dates[i] in daily
    ensures forall k :: k in dates <==> k in daily
    ensures forall i, j | 0 <= i < j < |dates| :: dates[i] < dates[j]
    ensures |dates| == |daily|
  {
    var ks := SortedKeys(daily.Keys);
    assert forall i | 0 <= i < |ks| :: ks[i] in ks;
    ks
  }

  /** One line per date of `daily`, by ascending date whatever order the map was built in. */
  function DailyLines(daily: map<int, Int32>, formatDate: int -> string): (ls: seq<string>)
    ensures |ls| == |daily|
  {
    DatedLines(SortedDates(daily), daily, formatDate)
  }

  /** One line per record, in the order given. */
  function RecordLines(ds: seq<TrafficData>, formatTime: int -> string): (ls: seq<string>)
    ensures |ls| == |ds|
    ensures forall i | 0 <= i < |ds| :: ls[i] == RecordLine(ds[i], formatTime)
  {
    seq(|ds|, i requires 0 <= i < |ds| => RecordLine(ds[i], formatTime))
  }

  /**
    The report's line layout around its parts: the total line, a blank line and the
    daily header, the daily lines, then a blank line and a header before the top
    records' lines and again before the least-cars period's lines.
   */
  function Sectioned(t: string, d: seq<string>, tp: seq<string>, l: seq<string>): seq<string> {
    [t, "", DailyHeader] + d + ["", TopHeader] + tp + ["", LeastHeader] + l
  }

  /** The report's lines, in order. */
  function ReportLines(total: Int32, daily: map<int, Int32>, top: seq<TrafficData>, least: seq<TrafficData>,
                       formatDate: int -> string, formatTime: int -> string): (ls: seq<string>)
    ensures |ls| == 7 + |daily| + |top| + |least|
  {
    Sectioned(TotalLine(total), DailyLines(daily, formatDate), RecordLines(top, formatTime), RecordLines(least, formatTime))
  }

  /** The report text, section by section as the `StringBuilder` receives it. */
  function ReportText(total: Int32, daily: map<int, Int32>, top: seq<TrafficData>, least: seq<TrafficData>,
                      formatDate: int -> string, formatTime: int -> string): string
  {
    TotalLine(total) + "\n\n" + DailyHeading + Terminated(DailyLines(daily, formatDate))
    + TopHeading + Terminated(RecordLines(top, formatTime))
    + LeastHeading + Terminated(RecordLines(least, formatTime))
  }

  /**
    `generateReport()` on the store: the total, the daily counts by ascending date,
    the top three records and the least-cars period, each section appended in turn.
   */
  method GenerateReport(store: TrafficStore, formatDate: int -> string, formatTime: int -> string)
    returns (report: string)
    ensures report == ReportText(GetTotalCars(store.records), GetDailyCarCounts(store.records),
                                 GetTopThreeHalfHours(store.records), LeastCarsPeriod(store.records),
                                 formatDate, formatTime)
  {
    var totalCars := GetTotalCars(store.records);
    report := TotalLine(totalCars) + "\n\n";
    report := report + DailyHeading;
    var dailyCounts := GetDailyCarCounts(store.records);
    report := AppendDailyLines(report, dailyCounts, formatDate);
    report := report + TopHeading;
    var topThree := GetTopThreeHalfHours(store.records);
    report := AppendRecordLines(report, topThree, formatTime);
    report := report + LeastHeading;
    var leastCarsPeriod := FindLeastCarsContiguousPeriod(store);
    report := AppendRecordLines(report, leastCarsPeriod, formatTime);
  }

  /** The `forEach` over the entries sorted by date, appending one line per date. */
  method AppendDailyLines(report: string, daily: map<int, Int32>, formatDate: int -> string) returns (r: string)
    ensures r == report + Terminated(DailyLines(daily, formatDate))
  {
    var dates := SortedDates(daily);
    r := AppendDatedLines(report, dates, daily, formatDate);
  }

  method AppendDatedLines(report: string, dates: seq<int>, daily: map<int, Int32>, formatDate: int -> string)
    returns (r: string)
    requires forall i | 0 <= i < |dates| :: dates[i] in daily
    ensures r == report + Terminated(DatedLines(dates, daily, formatDate))
  {
    ghost var lines := DatedLines(dates, daily, formatDate);
    r := report;
    assert lines[..0] == [];
    var i := 0;
    while i < |dates|
      invariant 0 <= i <= |dates|
      invariant r == report + Terminated(lines[..i])
    {
      r := r + DateLine(dates[i], daily[dates[i]], formatDate) + "\n";
      AppendLine(report, lines, i);
      i := i + 1;
    }
    assert lines[..i] == lines;
  }

  /** The loop `for (TrafficData data : records)`, appending one line per record. */
  method AppendRecordLines(report: string, records: seq<TrafficData>, formatTime: int -> string) returns (r: string)
    ensures r == report + Terminated(RecordLines(records, formatTime))
  {
    ghost var lines := RecordLines(records, formatTime);
    r := report;
    assert lines[..0] == [];
    var j := 0;
    while j < |records|
      invariant 0 <= j <= |records|
      invariant r == report + Terminated(lines[..j])
    {
      r := r + RecordLine(records[j], formatTime) + "\n";
      AppendLine(report, lines, j);
      j := j + 1;
    }
    assert lines[..j] == lines;
  }

  /** One more line appended to text written line by line. */
  lemma AppendLine(report: string, lines: seq<string>, i: nat)
    requires i < |lines|
    ensures report + Terminated(lines[..i + 1]) == report + Terminated(lines[..i]) + lines[i] + "\n"
  {
    assert lines[..i + 1] == lines[..i] + [lines[i]];
    TerminatedSnoc(lines[..i], lines[i]);
  }

  // ---------------------------------------------------------------------------
  // What the report text says

  /** The report is its lines, each followed by a line feed. */
  lemma ReportTextIsLines(total: Int32, daily: map<int, Int32>, top: seq<TrafficData>, least: seq<TrafficData>,
                          formatDate: int -> string, formatTime: int -> string)
    ensures ReportText(total, daily, top, least, formatDate, formatTime)
         == Terminated(ReportLines(total, daily, top, least, formatDate, formatTime))
  {
    SectionsText(TotalLine(total), DailyHeader, DailyLines(daily, formatDate), TopHeader, RecordLines(top, formatTime),
                 LeastHeader, RecordLines(least, formatTime));
  }

  lemma SectionsText(t: string, h1: string, d: seq<string>, h2: string, tp: seq<string>, h3: string, l: seq<string>)
    ensures Terminated([t, "", h1] + d + ["", h2] + tp + ["", h3] + l)
         == t + "\n\n" + (h1 + "\n") + Terminated(d) + ("\n" + h2 + "\n") + Terminated(tp)
            + ("\n" + h3 + "\n") + Terminated(l)
  {
    var a := [t, "", h1];
    TerminatedAppend(a + d + ["", h2] + tp + ["", h3], l);
    TerminatedAppend(a + d + ["", h2] + tp, ["", h3]);
    TerminatedAppend(a + d + ["", h2], tp);
    TerminatedAppend(a + d, ["", h2]);
    TerminatedAppend(a, d);
    TotalBlock(t, h1);
    HeadingBlock(h2);
    HeadingBlock(h3);
  }

  lemma TerminatedOne(a: string)
    ensures Terminated([a]) == a + "\n"
  {
    assert [a][1..] == [];
    assert a + "\n" + [] == a + "\n";
  }

  /** `append(total).append("\n\n")` then the daily header: three lines. */
  lemma TotalBlock(t: string, h: string)
    ensures Terminated([t, "", h]) == t + "\n\n" + (h + "\n")
  {
    assert [t, "", h] == [t] + [""] + [h];
    TerminatedAppend([t] + [""], [h]);
    TerminatedAppend([t], [""]);
    TerminatedOne(t);
    TerminatedOne("");
    TerminatedOne(h);
    assert "" + "\n" == "\n";
    assert t + "\n" + "\n" == t + "\n\n";
  }

  /** A blank line then a header. */
  lemma HeadingBlock(h: string)
    ensures Terminated(["", h]) == "\n" + h + "\n"
  {
    assert ["", h] == [""] + [h];
    TerminatedAppend([""], [h]);
    TerminatedOne("");
    TerminatedOne(h);
    assert "" + "\n" == "\n";
  }

  /**
    Where each part sits among the report's lines: three lines before the daily
    lines, two before the top records' lines and two before the least-cars period's
    lines, each part kept whole and in order.
   */
  lemma SectionedLayout(t: string, d: seq<string>, tp: seq<string>, l: seq<string>)
    ensures var s := Sectioned(t, d, tp, l);
      && |s| == 7 + |d| + |tp| + |l|
      && s[..3] == [t, "", DailyHeader] && s[3..3 + |d|] == d
      && s[3 + |d|..5 + |d|] == ["", TopHeader] && s[5 + |d|..5 + |d| + |tp|] == tp
      && s[5 + |d| + |tp|..7 + |d| + |tp|] == ["", LeastHeader] && s[7 + |d| + |tp|..] == l
  {
    Sections([t, "", DailyHeader], d, ["", TopHeader], tp, ["", LeastHeader], l);
  }

  lemma Sections<T>(a: seq<T>, d: seq<T>, b: seq<T>, tp: seq<T>, c: seq<T>, l: seq<T>)
    requires |a| == 3 && |b| == 2 && |c| == 2
    ensures var s := a + d + b + tp + c + l;
      && |s| == 7 + |d| + |tp| + |l|
      && s[..3] == a && s[3..3 + |d|] == d
      && s[3 + |d|..5 + |d|] == b && s[5 + |d|..5 + |d| + |tp|] == tp
      && s[5 + |d| + |tp|..7 + |d| + |tp|] == c && s[7 + |d| + |tp|..] == l
  {
  }

  /** No formatted date-time holds a line feed. */
  ghost predicate SingleLine(format: int -> string) {
    forall x :: '\n' !in format(x)
  }

  predicate PlainLines(ls: seq<string>) {
    forall i | 0 <= i < |ls| :: PlainLine(ls[i])
  }

  lemma PlainConcat(a: seq<string>, b: seq<string>)
    requires PlainLines(a) && PlainLines(b)
    ensures PlainLines(a + b)
  {
    forall i | 0 <= i < |a + b| ensures PlainLine((a + b)[i]) {
      if i >= |a| {
        assert (a + b)[i] == b[i - |a|];
      }
    }
  }

  /** A formatted value, a space and an `int`: no line feed, and a digit last. */
  lemma PairLinePlain(text: string, x: int)
    requires '\n' !in text
    ensures PlainLine(text + " " + IntToString(x))
  {
    var n := IntToString(x);
    var line := text + " " + n;
    assert forall k | 0 <= k < |n| :: n[k] != '\n';
    assert line[|line| - 1] == n[|n| - 1];
  }

  lemma TotalLinePlain(total: Int32)
    ensures PlainLine(TotalLine(total))
  {
    PairLinePlain("Total cars seen:", total);
    assert TotalLine(total) == "Total cars seen:" + " " + IntToString(total);
  }

  lemma RecordLinesPlain(ds: seq<TrafficData>, formatTime: int -> string)
    requires SingleLine(formatTime)
    ensures PlainLines(RecordLines(ds, formatTime))
    ensures ds != [] ==> RecordLines(ds, formatTime)[|ds| - 1] != []
  {
    forall i | 0 <= i < |ds| ensures PlainLine(RecordLines(ds, formatTime)[i]) {
      PairLinePlain(formatTime(ds[i].timestamp), ds[i].carCount);
    }
  }

  lemma DailyLinesPlain(daily: map<int, Int32>, formatDate: int -> string)
    requires SingleLine(formatDate)
    ensures PlainLines(DailyLines(daily, formatDate))
  {
    var dates := SortedDates(daily);
    forall i | 0 <= i < |dates| ensures PlainLine(DailyLines(daily, formatDate)[i]) {
      PairLinePlain(formatDate(dates[i]), daily[dates[i]]);
    }
  }

  /**
    When no formatted date or date-time holds a line feed, `split("\\r?\\n")` of the
    report gives back exactly its lines.
   */
  lemma ReportSplitsIntoLines(total: Int32, daily: map<int, Int32>, top: seq<TrafficData>, least: seq<TrafficData>,
                              formatDate: int -> string, formatTime: int -> string)
    requires SingleLine(formatDate) && SingleLine(formatTime)
    ensures SplitLines(ReportText(total, daily, top, least, formatDate, formatTime))
         == ReportLines(total, daily, top, least, formatDate, formatTime)
  {
    ReportTextIsLines(total, daily, top, least, formatDate, formatTime);
    TotalLinePlain(total);
    DailyLinesPlain(daily, formatDate);
    RecordLinesPlain(top, formatTime);
    RecordLinesPlain(least, formatTime);
    SplitSectioned(TotalLine(total), DailyLines(daily, formatDate), RecordLines(top, formatTime),
                   RecordLines(least, formatTime));
  }

  /** Plain lines laid out with the headers split back into the same lines. */
  lemma SplitSectioned(t: string, d: seq<string>, tp: seq<string>, l: seq<string>)
    requires PlainLine(t) && PlainLines(d) && PlainLines(tp) && PlainLines(l)
    requires l != [] ==> l[|l| - 1] != []
    ensures SplitLines(Terminated(Sectioned(t, d, tp, l))) == Sectioned(t, d, tp, l)
  {
    HeadersPlain();
    var a := [t, "", DailyHeader];
    var b := ["", TopHeader];
    var c := ["", LeastHeader];
    assert PlainLines(a) && PlainLines(b) && PlainLines(c);
    SplitSections(a, d, b, tp, c, l);
  }

  lemma SplitSections(a: seq<string>, d: seq<string>, b: seq<string>, tp: seq<string>, c: seq<string>, l: seq<string>)
    requires PlainLines(a) && PlainLines(d) && PlainLines(b) && PlainLines(tp) && PlainLines(c) && PlainLines(l)
    requires c != [] && c[|c| - 1] != []
    requires l != [] ==> l[|l| - 1] != []
    ensures SplitLines(Terminated(a + d + b + tp + c + l)) == a + d + b + tp + c + l
  {
    PlainSix(a, d, b, tp, c, l);
    LastOfSix(a, d, b, tp, c, l);
    SplitTerminated(a + d + b + tp + c + l);
  }

  lemma PlainSix(a: seq<string>, d: seq<string>, b: seq<string>, tp: seq<string>, c: seq<string>, l: seq<string>)
    requires PlainLines(a) && PlainLines(d) && PlainLines(b) && PlainLines(tp) && PlainLines(c) && PlainLines(l)
    ensures PlainLines(a + d + b + tp + c + l)
  {
    PlainConcat(a, d);
    PlainConcat(a + d, b);
    PlainConcat(a + d + b, tp);
    PlainConcat(a + d + b + tp, c);
    PlainConcat(a + d + b + tp + c, l);
  }

  lemma LastOfSix<T>(a: seq<T>, d: seq<T>, b: seq<T>, tp: seq<T>, c: seq<T>, l: seq<T>)
    requires c != []
    ensures var s := a + d + b + tp + c + l;
      s != [] && s[|s| - 1] == if l == [] then c[|c| - 1] else l[|l| - 1]
  {
  }

  lemma HeadersPlain()
    ensures PlainLine(DailyHeader)
    ensures PlainLine(TopHeader)
    ensures PlainLine(LeastHeader) && LeastHeader != []
  {
    DailyHeaderPlain();
    TopHeaderPlain();
    LeastHeaderPlain();
  }

  lemma DailyHeaderPlain()
    ensures PlainLine(DailyHeader)
  {
  }

  lemma TopHeaderPlain()
    ensures PlainLine(TopHeader)
  {
  }

  lemma LeastHeaderPlain()
    ensures PlainLine(LeastHeader) && LeastHeader != []
  {
  }

  // ---------------------------------------------------------------------------
  // Reading the report back

  /**
    A record's line reads back as that record through the file format of
    `processTrafficDataFile`, when the printed date-time is one token that parses
    back to the same instant.
   */
  lemma RecordLineReadBack(d: TrafficData, formatTime: int -> string, parseTime: string -> Option<int>)
    requires formatTime(d.timestamp) != [] && NoSpace(formatTime(d.timestamp)) && formatTime(d.timestamp)[0] > ' '
    requires parseTime(formatTime(d.timestamp)) == Some(d.timestamp)
    ensures ParseLine(RecordLine(d, formatTime), parseTime) == Parsed(d.timestamp, d.carCount)
  {
    var n := IntToString(d.carCount);
    assert NoSpace(n) && n[|n| - 1] > ' ';
    ParseLineOfPair(formatTime(d.timestamp), n, parseTime);
    ParseIntRoundTrip(d.carCount);
  }

  // ---------------------------------------------------------------------------
  // getReportAsJson

  /** The values the JSON map holds: numbers, strings, the daily map, lists and objects. */
  datatype JsonValue =
    | JInt(n: int)
    | JString(s: string)
    | JDateCounts(counts: map<int, Int32>)
    | JList(items: seq<JsonValue>)
    | JObject(fields: map<string, JsonValue>)

  /** The `HashMap` built for one record: its date-time as text and its count. */
  function RecordObject(d: TrafficData, formatTime: int -> string): (o: JsonValue)
    ensures o.JObject? && o.fields.Keys == {"timestamp", "carCount"}
    ensures o.fields["timestamp"] == JString(formatTime(d.timestamp))
    ensures o.fields["carCount"] == JInt(d.carCount)
  {
    JObject(map["timestamp" := JString(formatTime(d.timestamp)), "carCount" := JInt(d.carCount)])
  }

  /** The records mapped one by one, in order, and collected to a list. */
  function RecordObjects(ds: seq<TrafficData>, formatTime: int -> string): (os: seq<JsonValue>)
    ensures |os| == |ds|
    ensures forall i | 0 <= i < |ds| :: os[i] == RecordObject(ds[i], formatTime)
  {
    seq(|ds|, i requires 0 <= i < |ds| => RecordObject(ds[i], formatTime))
  }

  /** The JSON report: the four entries `getReportAsJson` puts, under their keys. */
  function ReportJson(total: Int32, daily: map<int, Int32>, top: seq<TrafficData>, least: seq<TrafficData>,
                      formatTime: int -> string): (m: map<string, JsonValue>)
    ensures m.Keys == {"totalCars", "dailyCounts", "topThreeHalfHours", "leastCarsPeriod"}
  {
    map["totalCars" := JInt(total),
        "dailyCounts" := JDateCounts(daily),
        "topThreeHalfHours" := JList(RecordObjects(top, formatTime)),
        "leastCarsPeriod" := JList(RecordObjects(least, formatTime))]
  }

  /**
    `getReportAsJson()` on the store: the same four service results as the text
    report, put one after another into a map.
   */
  method GetReportAsJson(store: TrafficStore, formatTime: int -> string) returns (report: map<string, JsonValue>)
    ensures report == ReportJson(GetTotalCars(store.records), GetDailyCarCounts(store.records),
                                 GetTopThreeHalfHours(store.records), LeastCarsPeriod(store.records), formatTime)
  {
    report := map[];
    report := report["totalCars" := JInt(GetTotalCars(store.records))];
    var dailyCounts := GetDailyCarCounts(store.records);
    report := report["dailyCounts" := JDateCounts(dailyCounts)];
    var topThree := RecordObjects(GetTopThreeHalfHours(store.records), formatTime);
    report := report["topThreeHalfHours" := JList(topThree)];
    var leastCarsPeriod := FindLeastCarsContiguousPeriod(store);
    report := report["leastCarsPeriod" := JList(RecordObjects(leastCarsPeriod, formatTime))];
  }

  /**
    Each record object of the JSON report holds what the text report prints on
    that record's line: the date-time text, then the count.
   */
  lemma JsonRecordMatchesLine(ds: seq<TrafficData>, formatTime: int -> string, i: nat)
    requires i < |ds|
    ensures var o := RecordObjects(ds, formatTime)[i];
      && o.fields["timestamp"].JString? && o.fields["carCount"].JInt?
      && RecordLines(ds, formatTime)[i] == o.fields["timestamp"].s + " " + IntToString(o.fields["carCount"].n)
  {
  }

  /** `String.compareTo` as an order: the first differing character decides, else the shorter string is less. */
  predicate StringLess(a: string, b: string) {
    exists k: nat | k <= |a| && k < |b| :: a[..k] == b[..k] && (k == |a| || a[k] < b[k])
  }

  /**
    The order a `TreeMap` keeps the JSON report's keys in: dailyCounts,
    leastCarsPeriod, topThreeHalfHours, totalCars.
   */
  lemma JsonKeyOrder(total: Int32, daily: map<int, Int32>, top: seq<TrafficData>, least: seq<TrafficData>,
                     formatTime: int -> string)
    ensures var keys := ["dailyCounts", "leastCarsPeriod", "topThreeHalfHours", "totalCars"];
      && (forall k :: k in keys <==> k in ReportJson(total, daily, top, least, formatTime))
      && StringLess(keys[0], keys[1]) && StringLess(keys[1], keys[2]) && StringLess(keys[2], keys[3])
  {
    var keys := ["dailyCounts", "leastCarsPeriod", "topThreeHalfHours", "totalCars"];
    assert keys[0][..0] == keys[1][..0] && keys[0][0] < keys[1][0];
    assert keys[1][..0] == keys[2][..0] && keys[1][0] < keys[2][0];
    assert keys[2][..2] == keys[3][..2] && keys[2][2] < keys[3][2];
  }
}
