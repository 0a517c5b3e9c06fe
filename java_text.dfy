/**
  The pieces of Java's `int` and `String` behaviour the traffic system relies on:
  32-bit integers, `String.trim`, `split("\\s+")`, `split("\\r?\\n")`,
  `Integer.toString` and `Integer.parseInt` (ASCII digits).
 */
module JavaText {
  import opened Wrappers

  /** Java's `int`. */
  type Int32 = x: int | -0x8000_0000 <= x < 0x8000_0000

  const MinInt32: Int32 := -0x8000_0000
  const MaxInt32: Int32 := 0x7fff_ffff

  /** The value 32-bit `int` arithmetic produces when the exact result is `x` (two's-complement wrap-around). */
  function Wrap32(x: int): (r: Int32)
    ensures MinInt32 <= x <= MaxInt32 ==> r == x
  {
    (x + 0x8000_0000) % 0x1_0000_0000 - 0x8000_0000
  }

  /** Wrapping an intermediate `int` result first does not change the wrapped sum. */
  lemma WrapAdd(x: int, c: int)
    ensures Wrap32(Wrap32(x) + c) == Wrap32(x + c)
  {
    var q := (x + 0x8000_0000) / 0x1_0000_0000;
    assert Wrap32(x) == x - 0x1_0000_0000 * q;
    ModShift(x + c + 0x8000_0000, q);
  }

  /** Subtracting a multiple of 2^32 keeps the remainder modulo 2^32. */
  lemma ModShift(a: int, q: int)
    ensures (a - 0x1_0000_0000 * q) % 0x1_0000_0000 == a % 0x1_0000_0000
  {
    var r := a % 0x1_0000_0000;
    var d := a / 0x1_0000_0000;
    assert a == 0x1_0000_0000 * d + r;
    assert a - 0x1_0000_0000 * q == 0x1_0000_0000 * (d - q) + r;
  }

  // ---------------------------------------------------------------------------
  // String.trim and blank lines

  /** `line.trim().isEmpty()`: every code unit is at most U+0020. */
  predicate IsBlank(s: string) {
    forall i | 0 <= i < |s| :: s[i] <= ' '
  }

  /** Number of leading code units `String.trim` removes. */
  function LeadingTrim(s: string): (n: nat)
    ensures n <= |s|
    ensures forall i | 0 <= i < n :: s[i] <= ' '
    ensures n < |s| ==> s[n] > ' '
  {
    if s == [] || s[0] > ' ' then 0 else 1 + LeadingTrim(s[1..])
  }

  /** Number of trailing code units `String.trim` removes. */
  function TrailingTrim(s: string): (n: nat)
    ensures n <= |s|
    ensures forall i | |s| - n <= i < |s| :: s[i] <= ' '
    ensures n < |s| ==> s[|s| - 1 - n] > ' '
  {
    if s == [] || s[|s| - 1] > ' ' then 0 else 1 + TrailingTrim(s[..|s| - 1])
  }

  /** `s.trim()`: the slice of `s` left after removing code units up to U+0020 at both ends. */
  function Trim(s: string): (r: string)
    ensures |r| <= |s|
    ensures r == [] <==> IsBlank(s)
    ensures r != [] ==> r[0] > ' ' && r[|r| - 1] > ' '
  {
    var a := LeadingTrim(s);
    var b := TrailingTrim(s[a..]);
    s[a..|s| - b]
  }

  /** `trim` leaves alone a string that neither starts nor ends with a code unit up to U+0020. */
  lemma TrimOfTrimmed(s: string)
    requires s != [] && s[0] > ' ' && s[|s| - 1] > ' '
    ensures Trim(s) == s
  {
    assert LeadingTrim(s) == 0;
    assert s[0..] == s;
    assert TrailingTrim(s) == 0;
  }

  // ---------------------------------------------------------------------------
  // split("\\s+")

  /** The regular-expression class `\s`: space, tab, line feed, vertical tab, form feed, carriage return. */
  predicate IsSpace(c: char) {
    c == ' ' || c == '\t' || c == '\n' || c == '\r' || c as int == 0x0B || c as int == 0x0C
  }

  predicate NoSpace(s: string) {
    forall i | 0 <= i < |s| :: !IsSpace(s[i])
  }

  /** Length of the run of non-`\s` characters that starts `s`. */
  function TokenLength(s: string): (n: nat)
    ensures n <= |s|
    ensures NoSpace(s[..n])
    ensures n < |s| ==> IsSpace(s[n])
  {
    if s == [] || IsSpace(s[0]) then 0
    else
      var n := 1 + TokenLength(s[1..]);
      assert s[..n] == [s[0]] + s[1..][..n - 1];
      n
  }

  /**
    The maximal runs of non-`\s` characters of `s`, left to right. For a string that
    `trim` has left non-empty (so it neither starts nor ends with `\s`) this is exactly
    what `s.split("\\s+")` returns.
   */
  function Tokens(s: string): (ws: seq<string>)
    ensures forall i | 0 <= i < |ws| :: ws[i] != [] && NoSpace(ws[i])
    decreases |s|
  {
    if s == [] then []
    else if IsSpace(s[0]) then Tokens(s[1..])
    else
      var n := TokenLength(s);
      [s[..n]] + Tokens(s[n..])
  }

  lemma {:induction false} TokenLengthOfPrefix(a: string, t: string)
    requires NoSpace(a)
    requires t == [] || IsSpace(t[0])
    ensures TokenLength(a + t) == |a|
  {
    if a != [] {
      assert (a + t)[1..] == a[1..] + t;
      TokenLengthOfPrefix(a[1..], t);
    }
  }

  lemma {:induction false} TokensOfWord(a: string, t: string)
    requires a != [] && NoSpace(a)
    requires t == [] || IsSpace(t[0])
    ensures Tokens(a + t) == [a] + Tokens(t)
  {
    var s := a + t;
    TokenLengthOfPrefix(a, t);
    assert s[..|a|] == a;
    assert s[|a|..] == t;
  }

  /** Two space-free tokens joined by one space split back into exactly those two tokens. */
  lemma TokensOfPair(a: string, b: string)
    requires a != [] && NoSpace(a)
    requires b != [] && NoSpace(b)
    ensures Tokens(a + " " + b) == [a, b]
  {
    assert a + " " + b == a + (" " + b);
    TokensOfWord(a, " " + b);
    assert (" " + b)[1..] == b;
    assert Tokens(" " + b) == Tokens(b);
    TokensOfWord(b, []);
    assert b + [] == b;
  }

  // ---------------------------------------------------------------------------
  // split("\\r?\\n")

  /** Index of the first line feed in `s`, or `|s|` when there is none. */
  function LineEnd(s: string): (n: nat)
    ensures n <= |s|
    ensures forall i | 0 <= i < n :: s[i] != '\n'
    ensures n < |s| ==> s[n] == '\n'
  {
    if s == [] || s[0] == '\n' then 0 else 1 + LineEnd(s[1..])
  }

  /** A piece before a `\r?\n` terminator: the optional carriage return belongs to the terminator. */
  function DropCarriageReturn(line: string): string {
    if line != [] && line[|line| - 1] == '\r' then line[..|line| - 1] else line
  }

  /** The pieces between `\r?\n` terminators, before Java's removal of trailing empty pieces. */
  function LinePieces(s: string): (ps: seq<string>)
    ensures ps != []
    ensures forall i | 0 <= i < |ps| :: '\n' !in ps[i]
    decreases |s|
  {
    var n := LineEnd(s);
    if n == |s| then [s]
    else [DropCarriageReturn(s[..n])] + LinePieces(s[n + 1..])
  }

  function DropTrailingEmpty(ps: seq<string>): (r: seq<string>)
    ensures |r| <= |ps| && r == ps[..|r|]
    ensures r == [] || r[|r| - 1] != []
  {
    if ps != [] && ps[|ps| - 1] == [] then DropTrailingEmpty(ps[..|ps| - 1]) else ps
  }

  /**
    `s.split("\\r?\\n")`: a string without a terminator comes back whole (even when
    empty); otherwise the pieces between terminators, with trailing empty pieces removed.
   */
  function SplitLines(s: string): (lines: seq<string>)
    ensures forall i | 0 <= i < |lines| :: '\n' !in lines[i]
  {
    if LineEnd(s) == |s| then [s] else DropTrailingEmpty(LinePieces(s))
  }

  /** The lines joined with line feeds: the inverse of `SplitLines` on well-behaved lines. */
  function JoinLines(lines: seq<string>): string
    decreases |lines|
  {
    if lines == [] then []
    else if |lines| == 1 then lines[0]
    else lines[0] + ("\n" + JoinLines(lines[1..]))
  }

  predicate PlainLine(line: string) {
    '\n' !in line && (line == [] || line[|line| - 1] != '\r')
  }

  lemma {:induction false} LineEndOfPrefix(a: string, t: string)
    requires '\n' !in a
    requires t == [] || t[0] == '\n'
    ensures LineEnd(a + t) == |a|
  {
    if a != [] {
      assert (a + t)[1..] == a[1..] + t;
      LineEndOfPrefix(a[1..], t);
    }
  }

  lemma {:induction false} LinePiecesOfJoin(lines: seq<string>)
    requires lines != []
    requires forall i | 0 <= i < |lines| :: PlainLine(lines[i])
    ensures LinePieces(JoinLines(lines)) == lines
    decreases |lines|
  {
    var s := JoinLines(lines);
    if |lines| == 1 {
      LineEndOfPrefix(lines[0], []);
      assert lines[0] + [] == lines[0];
    } else {
      var head, rest := lines[0], JoinLines(lines[1..]);
      assert s == head + ("\n" + rest);
      LineEndOfPrefix(head, "\n" + rest);
      assert LineEnd(s) == |head|;
      assert s[..|head|] == head;
      assert s[|head| + 1..] == rest;
      assert DropCarriageReturn(head) == head;
      assert LinePieces(s) == [head] + LinePieces(rest);
      LinePiecesOfJoin(lines[1..]);
      assert lines == [head] + lines[1..];
    }
  }

  /**
    Splitting undoes joining: lines without line feeds, without a trailing carriage return,
    and whose last line is not empty, come back unchanged.
   */
  lemma SplitJoinRoundTrip(lines: seq<string>)
    requires lines != []
    requires forall i | 0 <= i < |lines| :: PlainLine(lines[i])
    requires |lines| > 1 ==> lines[|lines| - 1] != []
    ensures SplitLines(JoinLines(lines)) == lines
  {
    var s := JoinLines(lines);
    if |lines| == 1 {
      LineEndOfPrefix(lines[0], []);
      assert lines[0] + [] == lines[0];
      assert LineEnd(s) == |s|;
    } else {
      var rest := JoinLines(lines[1..]);
      LineEndOfPrefix(lines[0], "\n" + rest);
      assert LineEnd(s) < |s|;
      LinePiecesOfJoin(lines);
      assert DropTrailingEmpty(lines) == lines;
    }
  }

  /** Each line followed by a line feed, as a `StringBuilder` writes it with `append(line).append("\n")`. */
  function Terminated(lines: seq<string>): string
    decreases |lines|
  {
    if lines == [] then [] else lines[0] + "\n" + Terminated(lines[1..])
  }

  lemma {:induction false} TerminatedSnoc(lines: seq<string>, line: string)
    ensures Terminated(lines + [line]) == Terminated(lines) + line + "\n"
    decreases |lines|
  {
    if lines == [] {
      assert [] + [line] == [line];
      assert [line][1..] == [];
    } else {
      assert (lines + [line])[1..] == lines[1..] + [line];
      TerminatedSnoc(lines[1..], line);
    }
  }

  lemma {:induction false} TerminatedAppend(a: seq<string>, b: seq<string>)
    ensures Terminated(a + b) == Terminated(a) + Terminated(b)
    decreases |a|
  {
    if a == [] {
      assert a + b == b;
    } else {
      assert (a + b)[1..] == a[1..] + b;
      TerminatedAppend(a[1..], b);
    }
  }

  lemma {:induction false} TerminatedIsJoin(lines: seq<string>)
    ensures Terminated(lines) == JoinLines(lines + [[]])
    decreases |lines|
  {
    if lines == [] {
      assert lines + [[]] == [[]];
    } else {
      assert (lines + [[]])[1..] == lines[1..] + [[]];
      TerminatedIsJoin(lines[1..]);
    }
  }

  /**
    Splitting text written line by line gives the lines back, when none holds a line
    feed or ends in a carriage return and the last is not empty.
   */
  lemma SplitTerminated(lines: seq<string>)
    requires lines != [] && lines[|lines| - 1] != []
    requires forall i | 0 <= i < |lines| :: PlainLine(lines[i])
    ensures SplitLines(Terminated(lines)) == lines
  {
    var all := lines + [[]];
    PlainWithEmpty(lines);
    TerminatedIsJoin(lines);
    LinePiecesOfJoin(all);
    TerminatedBreaks(lines);
    SplitOfPieces(Terminated(lines), all);
    DropLastEmpty(lines);
  }

  lemma PlainWithEmpty(lines: seq<string>)
    requires forall i | 0 <= i < |lines| :: PlainLine(lines[i])
    ensures forall i | 0 <= i < |lines + [[]]| :: PlainLine((lines + [[]])[i])
  {
    var all := lines + [[]];
    forall i | 0 <= i < |all| ensures PlainLine(all[i]) {
      if i < |lines| {
        assert all[i] == lines[i];
      }
    }
  }

  lemma SplitOfPieces(s: string, pieces: seq<string>)
    requires LineEnd(s) < |s| && LinePieces(s) == pieces
    ensures SplitLines(s) == DropTrailingEmpty(pieces)
  {
  }

  lemma TerminatedBreaks(lines: seq<string>)
    requires lines != [] && '\n' !in lines[0]
    ensures LineEnd(Terminated(lines)) < |Terminated(lines)|
  {
    LineEndOfPrefix(lines[0], "\n" + Terminated(lines[1..]));
    assert Terminated(lines) == lines[0] + ("\n" + Terminated(lines[1..]));
  }

  lemma DropLastEmpty(lines: seq<string>)
    requires lines != [] && lines[|lines| - 1] != []
    ensures DropTrailingEmpty(lines + [[]]) == lines
  {
    var all := lines + [[]];
    assert all[|all| - 1] == [];
    assert all[..|all| - 1] == lines;
  }

  // ---------------------------------------------------------------------------
  // Integer.toString and Integer.parseInt

  predicate IsDigit(c: char) {
    '0' <= c <= '9'
  }

  predicate AllDigits(s: string) {
    forall i | 0 <= i < |s| :: IsDigit(s[i])
  }

  function DigitChar(d: nat): (c: char)
    requires d < 10
    ensures IsDigit(c) && c as int - '0' as int == d
  {
    ('0' as int + d) as char
  }

  /** The value of a run of decimal digits, most significant first; leading zeros allowed. */
  function DigitsValue(s: string): nat
    requires AllDigits(s)
  {
    if s == [] then 0 else DigitsValue(s[..|s| - 1]) * 10 + (s[|s| - 1] as int - '0' as int)
  }

  /** Decimal digits of `n` without leading zeros, as `Integer.toString` writes them. */
  function NatToString(n: nat): (s: string)
    ensures s != [] && AllDigits(s)
  {
    if n < 10 then [DigitChar(n)] else NatToString(n / 10) + [DigitChar(n % 10)]
  }

  /** `Integer.toString` / `StringBuilder.append(int)`. */
  function IntToString(x: int): (s: string)
    ensures s != [] && NoSpace(s) && IsDigit(s[|s| - 1])
  {
    if x < 0 then "-" + NatToString(-x) else NatToString(x)
  }

  lemma {:induction false} NatToStringValue(n: nat)
    ensures DigitsValue(NatToString(n)) == n
  {
    if n >= 10 {
      var s := NatToString(n);
      assert s[..|s| - 1] == NatToString(n / 10);
      NatToStringValue(n / 10);
    }
  }

  /** `s` is a decimal numeral of value `v`: an optional `-` or `+`, then one or more ASCII digits. */
  predicate SignedDecimal(s: string, v: int) {
    || (|s| > 1 && s[0] == '-' && AllDigits(s[1..]) && v == -(DigitsValue(s[1..]) as int))
    || (|s| > 1 && s[0] == '+' && AllDigits(s[1..]) && v == DigitsValue(s[1..]))
    || (s != [] && AllDigits(s) && v == DigitsValue(s))
  }

  /**
    `Integer.parseInt(s)`: an optional `-` or `+`, then one or more digits, and the value
    must fit in an `int`; `None` stands for the NumberFormatException.
   */
  function ParseInt(s: string): (r: Option<Int32>)
    ensures r.Some? ==> s != [] && SignedDecimal(s, r.value)
    ensures forall v :: SignedDecimal(s, v) ==> (MinInt32 <= v <= MaxInt32 <==> r == Some(v))
  {
    if s == [] then None
    else
      var signed := s[0] == '-' || s[0] == '+';
      var digits := if signed then s[1..] else s;
      if digits == [] || !AllDigits(digits) then None
      else
        var magnitude: int := DigitsValue(digits);
        var v := if s[0] == '-' then -magnitude else magnitude;
        if MinInt32 <= v <= MaxInt32 then Some(v) else None
  }

  /** What `Integer.toString` writes, `Integer.parseInt` reads back. */
  lemma ParseIntRoundTrip(x: Int32)
    ensures ParseInt(IntToString(x)) == Some(x)
  {
    var s := IntToString(x);
    if x < 0 {
      var m: int := x;
      var d := NatToString(-m);
      NatToStringValue(-m);
      assert s == "-" + d;
      assert s[0] == '-' && s[1..] == d;
      assert DigitsValue(s[1..]) == -m;
    } else {
      var d := NatToString(x);
      NatToStringValue(x);
      assert s == d;
      assert IsDigit(s[0]);
      assert DigitsValue(s) == x;
    }
  }
}
