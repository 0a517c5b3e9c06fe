/**
  `processTrafficDataFile` in TrafficDataService.java: the strict, all-or-nothing
  ingestion of "timestamp count" lines. The line reading it shares with the lenient
  loader in DataInitializer.java is `ParseLine`.

  `LocalDateTime.parse` is the parameter `parseTime`: the seconds of the date-time the
  text denotes, or `None` where it throws DateTimeParseException.
 */
module TrafficDataIngestion {
  import opened Wrappers
  import opened JavaText
  import opened TrafficModel
  import opened TrafficDataRepository
  import opened TrafficDataService

  // ---------------------------------------------------------------------------
  // One line

  /** What reading one line gives before anything is saved. */
  datatype LineParse =
    | Blank                                  // `line.trim().isEmpty()`: skipped
    | WrongTokenCount                        // `parts.length != 2`
    | Unparsable(error: Error)               // `LocalDateTime.parse` or `Integer.parseInt` threw
    | Parsed(timestamp: int, carCount: Int32)

  /**
    `line.trim()`, `split("\\s+")`, then the timestamp and the count parsed in that
    order, so an unparsable timestamp is reported before an unparsable count.
   */
  function ParseLine(line: string, parseTime: string -> Option<int>): (p: LineParse)
    ensures p.Blank? <==> IsBlank(line)
    ensures p.WrongTokenCount? <==> !IsBlank(line) && |Tokens(Trim(line))| != 2
    ensures p.Parsed? ==>
              var parts := Tokens(Trim(line));
              && |parts| == 2
              && parseTime(parts[0]) == Some(p.timestamp)
              && ParseInt(parts[1]) == Some(p.carCount)
  {
    var trimmed := Trim(line);
    if trimmed == [] then Blank
    else
      var parts := Tokens(trimmed);
      if |parts| != 2 then WrongTokenCount
      else
        match parseTime(parts[0])
        case None => Unparsable(UnparsableTimestamp(parts[0]))
        case Some(t) =>
          match ParseInt(parts[1])
          case None => Unparsable(NumberFormat(parts[1]))
          case Some(c) => Parsed(t, c)
  }

  /** "timestamp count" with single-token parts is read as the two tokens. */
  lemma ParseLineOfPair(ts: string, count: string, parseTime: string -> Option<int>)
    requires ts != [] && NoSpace(ts) && ts[0] > ' '
    requires count != [] && NoSpace(count) && count[|count| - 1] > ' '
    ensures var p := ParseLine(ts + " " + count, parseTime);
      match parseTime(ts)
      case None => p == Unparsable(UnparsableTimestamp(ts))
      case Some(t) =>
        match ParseInt(count)
        case None => p == Unparsable(NumberFormat(count))
        case Some(c) => p == Parsed(t, c)
  {
    var line := ts + " " + count;
    assert line[0] == ts[0] && line[|line| - 1] == count[|count| - 1];
    TrimOfTrimmed(line);
    TokensOfPair(ts, count);
  }

  // ---------------------------------------------------------------------------
  // The strict file

  /** Each line read on its own; reading has no effects, so reading them all first changes nothing. */
  function LineParses(lines: seq<string>, parseTime: string -> Option<int>): (ps: seq<LineParse>)
    ensures |ps| == |lines|
    ensures forall i | 0 <= i < |lines| :: ps[i] == ParseLine(lines[i], parseTime)
  {
    seq(|lines|, i requires 0 <= i < |lines| => ParseLine(lines[i], parseTime))
  }

  /**
    The loop over `lines`, read as `ps`, from store `rs`: a blank line is skipped, a
    line with other than two tokens throws with the line, a parse failure throws, and
    a parsed line goes through `saveTrafficData`, whose failures throw too. The result
    is the records after the last line, or the first exception.
   */
  function IngestParsed(rs: seq<TrafficData>, lines: seq<string>, ps: seq<LineParse>): Result<seq<TrafficData>, Error>
    requires |ps| == |lines|
    decreases |lines|
  {
    if lines == [] then Success(rs)
    else
      match ps[0]
      case Blank => IngestParsed(rs, lines[1..], ps[1..])
      case WrongTokenCount => Failure(InvalidLineFormat(lines[0]))
      case Unparsable(e) => Failure(e)
      case Parsed(t, c) =>
        match SaveOutcome(rs, Some(t), c)
        case Failure(e) => Failure(e)
        case Success(d) => IngestParsed(rs + [d], lines[1..], ps[1..])
  }

  function IngestLines(rs: seq<TrafficData>, lines: seq<string>, parseTime: string -> Option<int>)
    : Result<seq<TrafficData>, Error>
  {
    IngestParsed(rs, lines, LineParses(lines, parseTime))
  }

  /** `processTrafficDataFile(fileContent)` on a store holding `rs`. */
  function ProcessFile(rs: seq<TrafficData>, content: string, parseTime: string -> Option<int>)
    : Result<seq<TrafficData>, Error>
  {
    IngestLines(rs, SplitLines(content), parseTime)
  }

  /** The records the parsed lines denote, in line order. */
  function ParsedRecords(ps: seq<LineParse>): seq<TrafficData>
    decreases |ps|
  {
    if ps == [] then []
    else
      var rest := ParsedRecords(ps[1..]);
      if ps[0].Parsed? then [TrafficData(ps[0].timestamp, ps[0].carCount)] + rest else rest
  }

  /** A line read as blank, or as a record with a non-negative count. */
  predicate Acceptable(p: LineParse) {
    p.Blank? || (p.Parsed? && p.carCount >= 0)
  }

  /** Every line is blank or parses to a record with a non-negative count. */
  predicate AllAcceptable(ps: seq<LineParse>) {
    forall i | 0 <= i < |ps| :: Acceptable(ps[i])
  }

  /**
    The lines are taken exactly when every one is acceptable and the new timestamps
    are distinct from each other and from the stored ones; the store then gains the
    parsed records in line order.
   */
  lemma {:induction false} IngestCharacterised(rs: seq<TrafficData>, lines: seq<string>, ps: seq<LineParse>)
    requires |ps| == |lines| && UniqueTimestamps(rs)
    ensures IngestParsed(rs, lines, ps).Success? <==> AllAcceptable(ps) && UniqueTimestamps(rs + ParsedRecords(ps))
    ensures IngestParsed(rs, lines, ps).Success? ==> IngestParsed(rs, lines, ps).value == rs + ParsedRecords(ps)
    decreases |lines|
  {
    if lines != [] {
      AcceptableSplit(ps);
      match ps[0]
      case Blank =>
        IngestCharacterised(rs, lines[1..], ps[1..]);
      case WrongTokenCount =>
      case Unparsable(e) =>
      case Parsed(t, c) =>
        var o := SaveOutcome(rs, Some(t), c);
        var d := TrafficData(t, c);
        var tail := ParsedRecords(ps[1..]);
        assert rs + ParsedRecords(ps) == (rs + [d]) + tail;
        if o.Success? {
          SaveKeepsUnique(rs, Some(t), c);
          IngestCharacterised(rs + [d], lines[1..], ps[1..]);
        } else if c >= 0 {
          assert HasTimestamp(rs, t);
          var i :| 0 <= i < |rs| && rs[i].timestamp == t;
          RepeatedTimestamp(rs + [d] + tail, i, |rs|);
        }
    }
  }

  lemma AcceptableSplit(ps: seq<LineParse>)
    requires ps != []
    ensures AllAcceptable(ps) <==> Acceptable(ps[0]) && AllAcceptable(ps[1..])
  {
    if AllAcceptable(ps[1..]) {
      forall i | 1 <= i < |ps| ensures Acceptable(ps[i]) {
        assert ps[i] == ps[1..][i - 1];
      }
    }
  }

  lemma RepeatedTimestamp(s: seq<TrafficData>, i: nat, j: nat)
    requires i < j < |s| && s[i].timestamp == s[j].timestamp
    ensures !UniqueTimestamps(s)
  {
  }

  /** Success keeps the store free of repeated timestamps and keeps every record it had, in place. */
  lemma IngestExtends(rs: seq<TrafficData>, lines: seq<string>, parseTime: string -> Option<int>)
    requires UniqueTimestamps(rs)
    requires IngestLines(rs, lines, parseTime).Success?
    ensures var after := IngestLines(rs, lines, parseTime).value;
      UniqueTimestamps(after) && |rs| <= |after| && after[..|rs|] == rs
  {
    var ps := LineParses(lines, parseTime);
    IngestCharacterised(rs, lines, ps);
    var after := IngestLines(rs, lines, parseTime).value;
    assert after[..|rs|] == rs;
  }

  /**
    A file imports exactly when each of its lines is blank or a valid record and the
    timestamps stay distinct, the store then gaining those records in line order.
   */
  lemma ProcessFileCharacterised(rs: seq<TrafficData>, content: string, parseTime: string -> Option<int>)
    requires UniqueTimestamps(rs)
    ensures var ps := LineParses(SplitLines(content), parseTime);
      && (ProcessFile(rs, content, parseTime).Success? <==> AllAcceptable(ps) && UniqueTimestamps(rs + ParsedRecords(ps)))
      && (ProcessFile(rs, content, parseTime).Success? ==> ProcessFile(rs, content, parseTime).value == rs + ParsedRecords(ps))
  {
    var lines := SplitLines(content);
    IngestCharacterised(rs, lines, LineParses(lines, parseTime));
  }

  /** A line that is neither blank nor two tokens makes the whole file fail. */
  lemma MalformedLineFails(rs: seq<TrafficData>, lines: seq<string>, parseTime: string -> Option<int>, i: nat)
    requires UniqueTimestamps(rs)
    requires i < |lines| && !IsBlank(lines[i]) && |Tokens(Trim(lines[i]))| != 2
    ensures IngestLines(rs, lines, parseTime).Failure?
  {
    var ps := LineParses(lines, parseTime);
    assert !Acceptable(ps[i]);
    IngestCharacterised(rs, lines, ps);
  }

  /** Two lines of one file with the same timestamp make the whole file fail. */
  lemma DuplicateLinesFail(rs: seq<TrafficData>, lines: seq<string>, parseTime: string -> Option<int>, i: nat, j: nat)
    requires UniqueTimestamps(rs)
    requires i < j < |lines|
    requires ParseLine(lines[i], parseTime).Parsed? && ParseLine(lines[j], parseTime).Parsed?
    requires ParseLine(lines[i], parseTime).timestamp == ParseLine(lines[j], parseTime).timestamp
    ensures IngestLines(rs, lines, parseTime).Failure?
  {
    var ps := LineParses(lines, parseTime);
    IngestCharacterised(rs, lines, ps);
    DuplicateParsesFail(rs, ps, i, j);
  }

  lemma DuplicateParsesFail(rs: seq<TrafficData>, ps: seq<LineParse>, i: nat, j: nat)
    requires i < j < |ps| && ps[i].Parsed? && ps[j].Parsed? && ps[i].timestamp == ps[j].timestamp
    ensures !UniqueTimestamps(rs + ParsedRecords(ps))
  {
    ParsedTwice(ps, i, j);
    var qs := ParsedRecords(ps);
    var a, b :| 0 <= a < b < |qs| && qs[a].timestamp == qs[b].timestamp;
    var s := rs + qs;
    assert s[|rs| + a] == qs[a] && s[|rs| + b] == qs[b];
    RepeatedTimestamp(s, |rs| + a, |rs| + b);
  }

  /** Two parsed lines with one timestamp give two records with it. */
  lemma {:induction false} ParsedTwice(ps: seq<LineParse>, i: nat, j: nat)
    requires i < j < |ps| && ps[i].Parsed? && ps[j].Parsed? && ps[i].timestamp == ps[j].timestamp
    ensures exists a, b | 0 <= a < b < |ParsedRecords(ps)| ::
              ParsedRecords(ps)[a].timestamp == ParsedRecords(ps)[b].timestamp
    decreases |ps|
  {
    var qs := ParsedRecords(ps);
    var rest := ParsedRecords(ps[1..]);
    if i == 0 {
      ParsedHas(ps[1..], j - 1);
      var b :| 0 <= b < |rest| && rest[b].timestamp == ps[1..][j - 1].timestamp;
      assert qs == [TrafficData(ps[0].timestamp, ps[0].carCount)] + rest;
      assert qs[b + 1] == rest[b];
      assert qs[0].timestamp == qs[b + 1].timestamp;
    } else {
      ParsedTwice(ps[1..], i - 1, j - 1);
      var a, b :| 0 <= a < b < |rest| && rest[a].timestamp == rest[b].timestamp;
      var k := |qs| - |rest|;
      assert qs[k..] == rest;
      assert qs[k + a] == rest[a] && qs[k + b] == rest[b];
      assert 0 <= k + a < k + b < |qs| && qs[k + a].timestamp == qs[k + b].timestamp;
    }
  }

  /** A parsed line's record is among the parsed records. */
  lemma {:induction false} ParsedHas(ps: seq<LineParse>, j: nat)
    requires j < |ps| && ps[j].Parsed?
    ensures exists b | 0 <= b < |ParsedRecords(ps)| :: ParsedRecords(ps)[b].timestamp == ps[j].timestamp
    decreases |ps|
  {
    var qs := ParsedRecords(ps);
    var rest := ParsedRecords(ps[1..]);
    var k := |qs| - |rest|;
    assert qs[k..] == rest;
    if j == 0 {
      assert qs == [TrafficData(ps[0].timestamp, ps[0].carCount)] + rest;
      assert qs[0].timestamp == ps[0].timestamp;
    } else {
      ParsedHas(ps[1..], j - 1);
      var b :| 0 <= b < |rest| && rest[b].timestamp == ps[1..][j - 1].timestamp;
      assert ps[1..][j - 1] == ps[j];
      assert qs[k + b] == rest[b];
      assert 0 <= k + b < |qs| && qs[k + b].timestamp == ps[j].timestamp;
    }
  }

  /**
    The two-line file of the service's own test is taken whole: both lines are
    saved, in order, when the two timestamps parse to distinct instants.
   */
  lemma TwoLineFileSaved(content: string, parseTime: string -> Option<int>, t1: int, t2: int)
    requires content == "2023-01-01T12:00:00 10\n2023-01-01T12:30:00 20"
    requires parseTime("2023-01-01T12:00:00") == Some(t1)
    requires parseTime("2023-01-01T12:30:00") == Some(t2)
    requires t1 != t2
    ensures ProcessFile([], content, parseTime) == Success([TrafficData(t1, 10), TrafficData(t2, 20)])
  {
    var l1, l2 := "2023-01-01T12:00:00 10", "2023-01-01T12:30:00 20";
    var ts1, ts2 := "2023-01-01T12:00:00", "2023-01-01T12:30:00";
    TestFileText(content, l1, l2);
    TestFileLines(content, l1, l2);
    TestLines(l1, l2, ts1, ts2, parseTime, t1, t2);
    TwoLineFile(content, l1, l2, parseTime, t1, t2);
  }

  lemma TestFileText(content: string, l1: string, l2: string)
    requires content == "2023-01-01T12:00:00 10\n2023-01-01T12:30:00 20"
    requires l1 == "2023-01-01T12:00:00 10" && l2 == "2023-01-01T12:30:00 20"
    ensures content == l1 + "\n" + l2
  {
  }

  lemma TwoLineFile(content: string, l1: string, l2: string, parseTime: string -> Option<int>, t1: int, t2: int)
    requires SplitLines(content) == [l1, l2]
    requires ParseLine(l1, parseTime) == Parsed(t1, 10) && ParseLine(l2, parseTime) == Parsed(t2, 20)
    requires t1 != t2
    ensures ProcessFile([], content, parseTime) == Success([TrafficData(t1, 10), TrafficData(t2, 20)])
  {
    var lines := SplitLines(content);
    var ps := LineParses(lines, parseTime);
    TwoParses(lines, l1, l2, ps, parseTime, t1, t2);
    TwoRecordsSaved(lines, ps, t1, t2);
    assert ProcessFile([], content, parseTime) == IngestParsed([], lines, ps);
  }

  lemma TwoParses(lines: seq<string>, l1: string, l2: string, ps: seq<LineParse>,
                  parseTime: string -> Option<int>, t1: int, t2: int)
    requires lines == [l1, l2] && ps == LineParses(lines, parseTime)
    requires ParseLine(l1, parseTime) == Parsed(t1, 10) && ParseLine(l2, parseTime) == Parsed(t2, 20)
    ensures ps == [Parsed(t1, 10), Parsed(t2, 20)]
  {
    assert ps[0] == ParseLine(l1, parseTime) && ps[1] == ParseLine(l2, parseTime);
  }

  lemma TestLines(l1: string, l2: string, ts1: string, ts2: string,
                  parseTime: string -> Option<int>, t1: int, t2: int)
    requires l1 == "2023-01-01T12:00:00 10" && l2 == "2023-01-01T12:30:00 20"
    requires ts1 == "2023-01-01T12:00:00" && ts2 == "2023-01-01T12:30:00"
    requires parseTime(ts1) == Some(t1) && parseTime(ts2) == Some(t2)
    ensures ParseLine(l1, parseTime) == Parsed(t1, 10) && ParseLine(l2, parseTime) == Parsed(t2, 20)
  {
    var c1, c2 := "10", "20";
    TestTimestampToken(ts1);
    TestTimestampToken(ts2);
    TestCountToken(c1, 10);
    TestCountToken(c2, 20);
    TestLine(l1, ts1, c1, 10, parseTime, t1);
    TestLine(l2, ts2, c2, 20, parseTime, t2);
  }

  lemma TestFileLines(content: string, l1: string, l2: string)
    requires l1 == "2023-01-01T12:00:00 10" && l2 == "2023-01-01T12:30:00 20"
    requires content == l1 + "\n" + l2
    ensures SplitLines(content) == [l1, l2]
  {
    var lines := [l1, l2];
    assert JoinLines(lines[1..]) == l2;
    assert JoinLines(lines) == content;
    assert '\n' !in l1 && '\n' !in l2;
    SplitJoinRoundTrip(lines);
  }

  lemma TestLine(line: string, ts: string, count: string, n: Int32, parseTime: string -> Option<int>, t: int)
    requires ts != [] && NoSpace(ts) && ts[0] > ' '
    requires count != [] && NoSpace(count) && count[|count| - 1] > ' ' && ParseInt(count) == Some(n)
    requires line == ts + " " + count && parseTime(ts) == Some(t)
    ensures ParseLine(line, parseTime) == Parsed(t, n)
  {
    ParseLineOfPair(ts, count, parseTime);
  }

  lemma TestTimestampToken(ts: string)
    requires ts == "2023-01-01T12:00:00" || ts == "2023-01-01T12:30:00"
    ensures ts != [] && NoSpace(ts) && ts[0] > ' '
  {
  }

  lemma TestCountToken(count: string, n: Int32)
    requires (count == "10" && n == 10) || (count == "20" && n == 20)
    ensures count != [] && NoSpace(count) && count[|count| - 1] > ' ' && ParseInt(count) == Some(n)
  {
    ReadsCount(count, n);
  }

  lemma TwoRecordsSaved(lines: seq<string>, ps: seq<LineParse>, t1: int, t2: int)
    requires |lines| == 2 && ps == [Parsed(t1, 10), Parsed(t2, 20)] && t1 != t2
    ensures IngestParsed([], lines, ps) == Success([TrafficData(t1, 10), TrafficData(t2, 20)])
  {
    var d1, d2 := TrafficData(t1, 10), TrafficData(t2, 20);
    assert SaveOutcome([], Some(t1), 10) == Success(d1);
    assert !HasTimestamp([d1], t2);
    assert SaveOutcome([d1], Some(t2), 20) == Success(d2);
    assert [] + [d1] == [d1] && [d1] + [d2] == [d1, d2];
    assert IngestParsed([d1, d2], lines[1..][1..], ps[1..][1..]) == Success([d1, d2]);
    assert IngestParsed([d1], lines[1..], ps[1..]) == Success([d1, d2]);
  }

  lemma ReadsCount(text: string, n: Int32)
    requires n >= 0 && text == IntToString(n)
    ensures ParseInt(text) == Some(n)
  {
    ParseIntRoundTrip(n);
  }

  /** One turn of the loop: the line at `i` decides how the rest is ingested. */
  lemma IngestStep(rs: seq<TrafficData>, lines: seq<string>, ps: seq<LineParse>, i: nat)
    requires |ps| == |lines| && i < |lines|
    ensures ps[i].Blank? ==> IngestParsed(rs, lines[i..], ps[i..]) == IngestParsed(rs, lines[i + 1..], ps[i + 1..])
    ensures ps[i].WrongTokenCount? ==> IngestParsed(rs, lines[i..], ps[i..]) == Failure(InvalidLineFormat(lines[i]))
    ensures ps[i].Unparsable? ==> IngestParsed(rs, lines[i..], ps[i..]) == Failure(ps[i].error)
    ensures ps[i].Parsed? && SaveOutcome(rs, Some(ps[i].timestamp), ps[i].carCount).Failure? ==>
              IngestParsed(rs, lines[i..], ps[i..]) == Failure(SaveOutcome(rs, Some(ps[i].timestamp), ps[i].carCount).error)
    ensures ps[i].Parsed? && SaveOutcome(rs, Some(ps[i].timestamp), ps[i].carCount).Success? ==>
              IngestParsed(rs, lines[i..], ps[i..])
              == IngestParsed(rs + [SaveOutcome(rs, Some(ps[i].timestamp), ps[i].carCount).value], lines[i + 1..], ps[i + 1..])
  {
    assert lines[i..][1..] == lines[i + 1..] && ps[i..][1..] == ps[i + 1..];
    assert lines[i..][0] == lines[i] && ps[i..][0] == ps[i];
  }

  /**
    `processTrafficDataFile`: the lines in order, each through `saveTrafficData`; the
    transaction rolls the store back when any line throws.
   */
  method ProcessTrafficDataFile(store: TrafficStore, content: string, parseTime: string -> Option<int>)
    returns (r: Outcome<Error>)
    requires store.Valid()
    modifies store
    ensures store.Valid()
    ensures var res := ProcessFile(old(store.records), content, parseTime);
      && (res.Success? ==> r == Pass && store.records == res.value)
      && (res.Failure? ==> r == Fail(res.error) && store.records == old(store.records))
  {
    var snapshot := store.records;
    var lines := SplitLines(content);
    var ps := LineParses(lines, parseTime);
    var i := 0;
    while i < |lines|
      invariant 0 <= i <= |lines|
      invariant store.Valid()
      invariant IngestParsed(snapshot, lines, ps) == IngestParsed(store.records, lines[i..], ps[i..])
    {
      var p := ParseLine(lines[i], parseTime);
      assert ps[i] == p;
      IngestStep(store.records, lines, ps, i);
      match p {
        case Blank =>
        case WrongTokenCount =>
          store.Rollback(snapshot);
          return Fail(InvalidLineFormat(lines[i]));
        case Unparsable(e) =>
          store.Rollback(snapshot);
          return Fail(e);
        case Parsed(t, c) =>
          var saved := SaveTrafficData(store, Some(t), c);
          if saved.Failure? {
            store.Rollback(snapshot);
            return Fail(saved.error);
          }
      }
      i := i + 1;
    }
    assert lines[i..] == [];
    r := Pass;
  }
}
