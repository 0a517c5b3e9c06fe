/**
  ApiVersionRequestCondition.java: the request condition that routes a request by
  the version written in its path as `v<digits>`. The request is its URI string.
 */
module ApiVersioning {
  import opened Wrappers
  import opened JavaText
  import opened TrafficModel

  /** A condition holding the versions given to its constructor, in order. */
  datatype ApiVersionRequestCondition = ApiVersionRequestCondition(apiVersions: seq<Int32>)

  /** `getApiVersions`: the versions the condition was built with. */
  function GetApiVersions(c: ApiVersionRequestCondition): seq<Int32> {
    c.apiVersions
  }

  /** `combine(other)`: the method-level condition replaces the type-level one. */
  function Combine(c: ApiVersionRequestCondition, other: ApiVersionRequestCondition): ApiVersionRequestCondition {
    other
  }

  // ---------------------------------------------------------------------------
  // The pattern `v(\d+)`

  /** The pattern can start matching at `i`: a `v` then an ASCII digit (`\d` without UNICODE_CHARACTER_CLASS). */
  predicate VersionAt(s: string, i: nat) {
    i + 1 < |s| && s[i] == 'v' && IsDigit(s[i + 1])
  }

  /** The greedy `\d+`: the length of the longest digit run starting at `j`. */
  function DigitRun(s: string, j: nat): (n: nat)
    requires j <= |s|
    ensures j + n <= |s|
    ensures forall k | j <= k < j + n :: IsDigit(s[k])
    ensures j + n == |s| || !IsDigit(s[j + n])
    decreases |s| - j
  {
    if j < |s| && IsDigit(s[j]) then 1 + DigitRun(s, j + 1) else 0
  }

  /** `Matcher.find` from `from`: the leftmost position at or after it where the pattern matches. */
  function FindVersion(s: string, from: nat): (r: Option<nat>)
    requires from <= |s|
    ensures r.Some? ==> from <= r.value && VersionAt(s, r.value)
    ensures r.Some? ==> forall k | from <= k < r.value :: !VersionAt(s, k)
    ensures r.None? ==> forall k | from <= k < |s| :: !VersionAt(s, k)
    decreases |s| - from
  {
    if from == |s| then None
    else if VersionAt(s, from) then Some(from)
    else FindVersion(s, from + 1)
  }

  /** `m.group(1)` after a successful `m.find()`: the digits of the leftmost match. */
  function VersionText(uri: string): (r: Option<string>)
    ensures r.None? <==> forall k | 0 <= k < |uri| :: !VersionAt(uri, k)
    ensures r.Some? ==> r.value != [] && AllDigits(r.value)
  {
    match FindVersion(uri, 0)
    case None => None
    case Some(i) => Some(uri[i + 1..i + 1 + DigitRun(uri, i + 1)])
  }

  /**
    `getMatchingCondition` on a request for `uri`: the condition itself when the
    leftmost version is one of its versions, null (`None`) when it is not or there
    is none, and the NumberFormatException of a version too large for an `int`.
   */
  function GetMatchingCondition(c: ApiVersionRequestCondition, uri: string): (r: Result<Option<ApiVersionRequestCondition>, Error>)
    ensures VersionText(uri).None? ==> r == Success(None)
    ensures r.Success? && r.value.Some? ==> r.value.value == c
    ensures VersionText(uri).Some? ==>
              var text := VersionText(uri).value;
              var v := DigitsValue(text);
              && (v > MaxInt32 ==> r == Failure(NumberFormat(text)))
              && (v <= MaxInt32 ==> (r == Success(Some(c)) <==> v in c.apiVersions))
              && (v <= MaxInt32 ==> r.Success?)
  {
    match VersionText(uri)
    case None => Success(None)
    case Some(text) =>
      match ParseInt(text)
      case None => Failure(NumberFormat(text))
      case Some(v) => if v in c.apiVersions then Success(Some(c)) else Success(None)
  }

  /** `Integer.compare(x, y)`. */
  function IntegerCompare(x: int, y: int): (r: int)
    ensures r < 0 <==> x < y
    ensures r == 0 <==> x == y
    ensures r > 0 <==> x > y
  {
    if x < y then -1 else if x == y then 0 else 1
  }

  /**
    `compareTo(other, request)`: by first version, highest first. An empty version
    array throws when its element 0 is read, `other`'s being read first.
   */
  function CompareTo(c: ApiVersionRequestCondition, other: ApiVersionRequestCondition): (r: Result<int, Error>)
    ensures r.Failure? <==> c.apiVersions == [] || other.apiVersions == []
    ensures r.Failure? ==> r.error == ArrayIndexOutOfBounds(0)
    ensures r.Success? ==> (r.value < 0 <==> c.apiVersions[0] > other.apiVersions[0])
    ensures r.Success? ==> (r.value == 0 <==> c.apiVersions[0] == other.apiVersions[0])
  {
    if other.apiVersions == [] || c.apiVersions == [] then Failure(ArrayIndexOutOfBounds(0))
    else Success(IntegerCompare(other.apiVersions[0], c.apiVersions[0]))
  }

  // ---------------------------------------------------------------------------
  // Properties

  /** The versions read back are those the condition was built with, in order. */
  lemma VersionsKept(versions: seq<Int32>)
    ensures GetApiVersions(ApiVersionRequestCondition(versions)) == versions
  {
  }

  /** A combined condition matches exactly as `other` does, whatever it was combined into. */
  lemma CombineIgnoresReceiver(c: ApiVersionRequestCondition, d: ApiVersionRequestCondition,
                               other: ApiVersionRequestCondition, uri: string)
    ensures Combine(c, other) == Combine(d, other) == other
    ensures GetMatchingCondition(Combine(c, other), uri) == GetMatchingCondition(other, uri)
  {
  }

  /** Swapping the two conditions negates the comparison. */
  lemma CompareAntisymmetric(a: ApiVersionRequestCondition, b: ApiVersionRequestCondition)
    requires a.apiVersions != [] && b.apiVersions != []
    ensures CompareTo(a, b).value == -CompareTo(b, a).value
  {
  }

  /** The order is transitive. */
  lemma CompareTransitive(a: ApiVersionRequestCondition, b: ApiVersionRequestCondition, c: ApiVersionRequestCondition)
    requires a.apiVersions != [] && b.apiVersions != [] && c.apiVersions != []
    requires CompareTo(a, b).value <= 0 && CompareTo(b, c).value <= 0
    ensures CompareTo(a, c).value <= 0
  {
  }

  /** A path without any `v<digit>` matches no condition. */
  lemma NoVersionNoMatch(c: ApiVersionRequestCondition, uri: string)
    requires 'v' !in uri
    ensures GetMatchingCondition(c, uri) == Success(None)
  {
    forall k | 0 <= k < |uri| ensures !VersionAt(uri, k) {
      assert uri[k] in uri;
    }
  }

  /** The unversioned upload path is matched by no condition. */
  lemma UnversionedUploadPath(c: ApiVersionRequestCondition, uri: string)
    requires uri == "/api/traffic/upload"
    ensures GetMatchingCondition(c, uri) == Success(None)
  {
    assert 'v' !in uri;
    NoVersionNoMatch(c, uri);
  }

  /**
    A path whose first `v<digit>` follows a version-free prefix reads the whole digit
    run there: `/v12/...` is version 12, not 1.
   */
  lemma {:induction false} FirstVersionRead(prefix: string, digits: string, rest: string)
    requires 'v' !in prefix
    requires digits != [] && AllDigits(digits)
    requires rest == [] || !IsDigit(rest[0])
    ensures VersionText(prefix + "v" + digits + rest) == Some(digits)
  {
    var s := prefix + "v" + digits + rest;
    var i := |prefix|;
    assert VersionAt(s, i) by {
      assert s[i] == 'v' && s[i + 1] == digits[0];
    }
    forall k | 0 <= k < i ensures !VersionAt(s, k) {
      assert s[k] == prefix[k] && prefix[k] in prefix;
    }
    FoundAt(s, 0, i);
    assert forall k | i + 1 <= k < i + 1 + |digits| :: s[k] == digits[k - i - 1];
    DigitRunOf(s, i + 1, |digits|);
    assert s[i + 1..i + 1 + |digits|] == digits;
  }

  /** With no match before `i` and one at `i`, the scan from `from` stops at `i`. */
  lemma {:induction false} FoundAt(s: string, from: nat, i: nat)
    requires from <= i < |s| && VersionAt(s, i)
    requires forall k | from <= k < i :: !VersionAt(s, k)
    ensures FindVersion(s, from) == Some(i)
    decreases i - from
  {
    if from < i {
      FoundAt(s, from + 1, i);
    }
  }

  /** A run of `n` digits followed by a non-digit or the end has length `n`. */
  lemma {:induction false} DigitRunOf(s: string, j: nat, n: nat)
    requires j + n <= |s|
    requires forall k | j <= k < j + n :: IsDigit(s[k])
    requires j + n == |s| || !IsDigit(s[j + n])
    ensures DigitRun(s, j) == n
    decreases n
  {
    if n > 0 {
      DigitRunOf(s, j + 1, n - 1);
    }
  }

  /** The versioned upload path `/v1/traffic/upload` selects a condition declared for version 1. */
  lemma VersionOneUploadPath(uri: string, c: ApiVersionRequestCondition, digits: string)
    requires uri == "/v1/traffic/upload" && digits == "1"
    requires 1 in c.apiVersions
    ensures GetMatchingCondition(c, uri) == Success(Some(c))
  {
    assert uri == "/" + "v" + digits + "/traffic/upload";
    FirstVersionRead("/", digits, "/traffic/upload");
    assert DigitsValue(digits) == 1;
  }
}
