/**
  The sample-data runner `initSampleData` in DataInitializer.java: on an empty
  table it reads "timestamp count" lines and saves each well-formed one straight
  through the repository. It is lenient where `processTrafficDataFile` is strict:
  lines without exactly two tokens are skipped, no count is checked for sign, and
  there is no transaction, so rows saved before a failure stay.

  Reading the `sample-data.txt` resource is the parameter `resource`: its text, or
  `None` where reading throws IOException.
 */
module SampleDataLoader {
  import opened Wrappers
  import opened JavaText
  import opened TrafficModel
  import opened TrafficDataRepository
  import opened TrafficDataService
  import opened TrafficDataIngestion

  /** The rows when the runner ends, and whether it ended normally or with an exception. */
  datatype Loaded = Loaded(records: seq<TrafficData>, outcome: Outcome<Error>)

  /**
    The loop over the lines, read as `ps`, from a table holding `rs`: blank lines
    and lines with other than two tokens are skipped, a parse failure escapes, and
    a parsed line is saved, the unique constraint refusing a stored timestamp.
   */
  function LoadParsed(rs: seq<TrafficData>, ps: seq<LineParse>): (l: Loaded)
    ensures |rs| <= |l.records| && l.records[..|rs|] == rs
    ensures UniqueTimestamps(rs) ==> UniqueTimestamps(l.records)
    decreases |ps|
  {
    if ps == [] then Loaded(rs, Pass)
    else
      match ps[0]
      case Blank => LoadParsed(rs, ps[1..])
      case WrongTokenCount => LoadParsed(rs, ps[1..])
      case Unparsable(e) => Loaded(rs, Fail(e))
      case Parsed(t, c) =>
        if HasTimestamp(rs, t) then Loaded(rs, Fail(UniqueConstraintViolation(t)))
        else
          var l := LoadParsed(rs + [TrafficData(t, c)], ps[1..]);
          assert l.records[..|rs|] == (l.records[..|rs| + 1])[..|rs|];
          l
  }

  /**
    The runner on a table holding `rs`: nothing happens unless the table is empty;
    an unreadable resource is logged and the runner ends normally.
   */
  function LoadedSampleData(rs: seq<TrafficData>, resource: Option<string>, parseTime: string -> Option<int>)
    : (l: Loaded)
    ensures |rs| != 0 || resource.None? ==> l == Loaded(rs, Pass)
    ensures |rs| == 0 && resource.Some? ==>
              l == LoadParsed([], LineParses(SplitLines(resource.value), parseTime))
  {
    if |rs| != 0 || resource.None? then Loaded(rs, Pass)
    else LoadParsed(rs, LineParses(SplitLines(resource.value), parseTime))
  }

  /** No line escapes as a parse failure. */
  predicate NoUnparsable(ps: seq<LineParse>) {
    forall i | 0 <= i < |ps| :: !ps[i].Unparsable?
  }

  /**
    The loop ends normally exactly when no line fails to parse and the parsed
    timestamps are new and distinct; the table then gains every parsed record, in
    line order, whatever its count.
   */
  lemma {:induction false} LoadCharacterised(rs: seq<TrafficData>, ps: seq<LineParse>)
    requires UniqueTimestamps(rs)
    ensures LoadParsed(rs, ps).outcome.Pass? <==> NoUnparsable(ps) && UniqueTimestamps(rs + ParsedRecords(ps))
    ensures LoadParsed(rs, ps).outcome.Pass? ==> LoadParsed(rs, ps).records == rs + ParsedRecords(ps)
    decreases |ps|
  {
    if ps != [] {
      var rest := ps[1..];
      assert forall i | 0 <= i < |rest| :: rest[i] == ps[i + 1];
      match ps[0]
      case Blank =>
        LoadCharacterised(rs, rest);
      case WrongTokenCount =>
        LoadCharacterised(rs, rest);
      case Unparsable(e) =>
        assert !NoUnparsable(ps);
      case Parsed(t, c) =>
        var d := TrafficData(t, c);
        assert ParsedRecords(ps) == [d] + ParsedRecords(rest);
        assert rs + ParsedRecords(ps) == (rs + [d]) + ParsedRecords(rest);
        if HasTimestamp(rs, t) {
          var k :| 0 <= k < |rs| && rs[k].timestamp == t;
          RepeatedTimestamp(rs + ParsedRecords(ps), k, |rs|);
        } else {
          assert UniqueTimestamps(rs + [d]);
          LoadCharacterised(rs + [d], rest);
          if UniqueTimestamps(rs + ParsedRecords(ps)) {
            assert (rs + ParsedRecords(ps))[..|rs| + 1] == rs + [d];
          }
        }
    }
  }

  /**
    Rows saved before a line that fails to parse stay saved: with no transaction
    around the loop, the exception leaves them in the table.
   */
  lemma {:induction false} SavesBeforeFailureKept(rs: seq<TrafficData>, ps: seq<LineParse>, e: Error, qs: seq<LineParse>)
    requires NoUnparsable(ps) && UniqueTimestamps(rs + ParsedRecords(ps))
    ensures LoadParsed(rs, ps + [Unparsable(e)] + qs) == Loaded(rs + ParsedRecords(ps), Fail(e))
    decreases |ps|
  {
    if ps == [] {
      assert ps + [Unparsable(e)] + qs == [Unparsable(e)] + qs;
    } else {
      var rest := ps[1..];
      assert (ps + [Unparsable(e)] + qs)[1..] == rest + [Unparsable(e)] + qs;
      assert forall i | 0 <= i < |rest| :: rest[i] == ps[i + 1];
      assert !ps[0].Unparsable?;
      if ps[0].Parsed? {
        var d := TrafficData(ps[0].timestamp, ps[0].carCount);
        assert rs + ParsedRecords(ps) == (rs + [d]) + ParsedRecords(rest);
        assert !HasTimestamp(rs, d.timestamp) by {
          if k :| 0 <= k < |rs| && rs[k].timestamp == d.timestamp {
            RepeatedTimestamp(rs + ParsedRecords(ps), k, |rs|);
          }
        }
        assert (rs + ParsedRecords(ps))[..|rs| + 1] == rs + [d];
        SavesBeforeFailureKept(rs + [d], rest, e, qs);
      } else {
        SavesBeforeFailureKept(rs, rest, e, qs);
      }
    }
  }

  /**
    A line with other than two tokens is passed over by the loader, where
    `processTrafficDataFile` throws with the line.
   */
  lemma LenientOnTokenCount(rs: seq<TrafficData>, line: string, lines: seq<string>, ps: seq<LineParse>)
    requires |ps| == |lines|
    ensures LoadParsed(rs, [WrongTokenCount] + ps) == LoadParsed(rs, ps)
    ensures IngestParsed(rs, [line] + lines, [WrongTokenCount] + ps) == Failure(InvalidLineFormat(line))
  {
    assert ([WrongTokenCount] + ps)[1..] == ps;
  }

  /**
    A record with a negative count is saved by the loader, where
    `processTrafficDataFile` refuses it.
   */
  lemma LenientOnNegativeCount(rs: seq<TrafficData>, t: int, c: Int32, line: string)
    requires c < 0 && UniqueTimestamps(rs) && !HasTimestamp(rs, t)
    ensures LoadParsed(rs, [Parsed(t, c)]) == Loaded(rs + [TrafficData(t, c)], Pass)
    ensures IngestParsed(rs, [line], [Parsed(t, c)]) == Failure(NegativeCarCount)
  {
    assert [Parsed(t, c)][1..] == [];
  }

  /** One turn of the loop: the line at `i` decides how the rest is loaded. */
  lemma LoadStep(rs: seq<TrafficData>, ps: seq<LineParse>, i: nat)
    requires i < |ps|
    ensures ps[i].Blank? || ps[i].WrongTokenCount? ==> LoadParsed(rs, ps[i..]) == LoadParsed(rs, ps[i + 1..])
    ensures ps[i].Unparsable? ==> LoadParsed(rs, ps[i..]) == Loaded(rs, Fail(ps[i].error))
    ensures ps[i].Parsed? && HasTimestamp(rs, ps[i].timestamp) ==>
              LoadParsed(rs, ps[i..]) == Loaded(rs, Fail(UniqueConstraintViolation(ps[i].timestamp)))
    ensures ps[i].Parsed? && !HasTimestamp(rs, ps[i].timestamp) ==>
              LoadParsed(rs, ps[i..]) == LoadParsed(rs + [TrafficData(ps[i].timestamp, ps[i].carCount)], ps[i + 1..])
  {
    assert ps[i..][1..] == ps[i + 1..];
  }

  /**
    `initSampleData`'s runner on the table `store`: `count() == 0` first, then the
    lines of the resource each handed to `save`.
   */
  method InitSampleData(store: TrafficStore, resource: Option<string>, parseTime: string -> Option<int>)
    returns (r: Outcome<Error>)
    requires store.Valid()
    modifies store
    ensures store.Valid()
    ensures var l := LoadedSampleData(old(store.records), resource, parseTime);
      store.records == l.records && r == l.outcome
  {
    var n := store.Count();
    if n != 0 || resource.None? {
      return Pass;
    }
    var lines := SplitLines(resource.value);
    ghost var ps := LineParses(lines, parseTime);
    var i := 0;
    while i < |lines|
      invariant 0 <= i <= |lines|
      invariant store.Valid()
      invariant LoadParsed(store.records, ps[i..]) == LoadParsed([], ps)
    {
      var p := ParseLine(lines[i], parseTime);
      LoadStep(store.records, ps, i);
      match p {
        case Blank =>
        case WrongTokenCount =>
        case Unparsable(e) =>
          return Fail(e);
        case Parsed(t, c) =>
          var saved := store.Save(TrafficData(t, c));
          if saved.Failure? {
            return Fail(saved.error);
          }
      }
      i := i + 1;
    }
    assert ps[i..] == [];
    r := Pass;
  }
}
