/**
  The `Failure` record and the two strings the assertion engine builds:
  the condition text `v1 op v2` (`foo::condStr`) and the failure message
  `Expected:<cond>, Actual:<actual>`.
 */
module Failures {

  /** One recorded mismatch: where it was raised and the rendered message. */
  datatype Failure = Failure(file: string, line: int, message: string)

  /** The message a failure carries. */
  function FailureMessage(expected: string, actual: string): string {
    "Expected:" + expected + ", Actual:" + actual
  }

  /**
    The parts of a message, each at its own position: `Expected:`, the
    expected text, `, Actual:`, the actual text.
   */
  lemma FailureMessageLayout(expected: string, actual: string)
    ensures var m := FailureMessage(expected, actual);
            && |m| == 9 + |expected| + 9 + |actual|
            && m[..9] == "Expected:"
            && m[9..9 + |expected|] == expected
            && m[9 + |expected|..18 + |expected|] == ", Actual:"
            && m[|m| - |actual|..] == actual
  {
  }

  /** `Failure(file, line, expected, actual)`: the constructor builds the message once. */
  function MakeFailure(file: string, line: int, expected: string, actual: string): (f: Failure)
    ensures f.file == file && f.line == line
    ensures f.message == FailureMessage(expected, actual)
  {
    Failure(file, line, FailureMessage(expected, actual))
  }

  /**
    `condStr(v1, v2, op)`: the two rendered operands joined by the
    comparator's symbol, one space on each side.
   */
  function CondStr(v1: string, symbol: string, v2: string): (r: string)
    ensures |r| == |v1| + 1 + |symbol| + 1 + |v2|
    ensures r[..|v1|] == v1 && r[|v1|] == ' '
    ensures r[|v1| + 1..|v1| + 1 + |symbol|] == symbol && r[|v1| + 1 + |symbol|] == ' '
    ensures r[|v1| + |symbol| + 2..] == v2
  {
    v1 + " " + symbol + " " + v2
  }

  /** Position of the first occurrence of `c` in `s`, or `|s|` when there is none. */
  function IndexOf(s: string, c: char): (i: nat)
    ensures i <= |s|
    ensures i < |s| ==> s[i] == c
    ensures forall k :: 0 <= k < i ==> s[k] != c
  {
    if |s| == 0 then 0
    else if s[0] == c then 0
    else 1 + IndexOf(s[1..], c)
  }

  predicate NoSpace(s: string) {
    forall k :: 0 <= k < |s| ==> s[k] != ' '
  }

  /** Splits a condition text at its first two spaces (reference reader). */
  function SplitCond(s: string): (string, string, string) {
    var i := IndexOf(s, ' ');
    if i == |s| then (s, "", "")
    else
      var rest := s[i + 1..];
      var j := IndexOf(rest, ' ');
      if j == |rest| then (s[..i], rest, "")
      else (s[..i], rest[..j], rest[j + 1..])
  }

  /**
    A condition text can be taken apart again when the left operand and the
    symbol contain no space, as is the case for every rendered integer and
    every comparator symbol.
   */
  lemma CondStrRoundTrip(v1: string, symbol: string, v2: string)
    requires NoSpace(v1) && NoSpace(symbol)
    ensures SplitCond(CondStr(v1, symbol, v2)) == (v1, symbol, v2)
  {
    var s := CondStr(v1, symbol, v2);
    assert s[|v1|] == ' ';
    assert IndexOf(s, ' ') == |v1| by {
      IndexOfFirst(s, ' ', |v1|);
    }
    var rest := s[|v1| + 1..];
    assert rest == symbol + " " + v2;
    assert rest[|symbol|] == ' ';
    IndexOfFirst(rest, ' ', |symbol|);
    assert s[..|v1|] == v1;
    assert rest[..|symbol|] == symbol;
    assert rest[|symbol| + 1..] == v2;
  }

  lemma {:induction false} IndexOfFirst(s: string, c: char, i: nat)
    requires i < |s| && s[i] == c
    requires forall k :: 0 <= k < i ==> s[k] != c
    ensures IndexOf(s, c) == i
    decreases i
  {
    if i > 0 {
      IndexOfFirst(s[1..], c, i - 1);
    }
  }

  /** The text between the expected and the actual part of a message. */
  const Separator: string := ", Actual:"

  /** `p` occurs in `s` at position `j`. */
  predicate OccursAt(s: string, p: string, j: nat) {
    j + |p| <= |s| && s[j..j + |p|] == p
  }

  /**
    Position of the first occurrence of `p` in `s` at or after `i`, or `|s|`
    when there is none.
   */
  function FindFrom(s: string, p: string, i: nat): (k: nat)
    requires i <= |s|
    ensures i <= k <= |s|
    ensures k < |s| ==> OccursAt(s, p, k)
    ensures forall j :: i <= j < k ==> !OccursAt(s, p, j)
    decreases |s| - i
  {
    if i + |p| > |s| then |s|
    else if OccursAt(s, p, i) then i
    else if i == |s| then |s|
    else FindFrom(s, p, i + 1)
  }

  /**
    Reads a message back into its expected and actual texts, splitting at
    the first separator after the `Expected:` prefix (reference reader).
   */
  function SplitMessage(m: string): (string, string) {
    if |m| < 9 || m[..9] != "Expected:" then ("", m)
    else
      var k := FindFrom(m, Separator, 9);
      if k + |Separator| <= |m| then (m[9..k], m[k + |Separator|..]) else (m[9..], "")
  }

  /** The expected text holds no copy of the separator. */
  predicate NoSeparator(e: string) {
    forall j: nat :: j <= |e| ==> !OccursAt(e, Separator, j)
  }

  /**
    A message can be taken apart again into the expected and the actual
    text whenever the expected text holds no separator; the actual text
    may hold anything.
   */
  lemma FailureMessageRoundTrip(expected: string, actual: string)
    requires NoSeparator(expected)
    ensures SplitMessage(FailureMessage(expected, actual)) == (expected, actual)
  {
    var m := FailureMessage(expected, actual);
    FailureMessageLayout(expected, actual);
    var e := |expected|;
    forall j | 9 <= j < 9 + e
      ensures !OccursAt(m, Separator, j)
    {
      if j + 9 <= 9 + e {
        assert !OccursAt(expected, Separator, j - 9);
        assert m[j..j + 9] == expected[j - 9..j];
      } else if j + 9 <= |m| {
        assert m[9 + e] == ',';
        assert m[j..j + 9][9 + e - j] == ',';
        assert Separator[9 + e - j] != ',';
      }
    }
    FindFromFirst(m, Separator, 9, 9 + e);
    assert m[9..9 + e] == expected;
    assert m[18 + e..] == actual;
  }

  lemma {:induction false} FindFromFirst(s: string, p: string, i: nat, k: nat)
    requires i <= k && OccursAt(s, p, k)
    requires forall j :: i <= j < k ==> !OccursAt(s, p, j)
    ensures FindFrom(s, p, i) == k
    decreases k - i
  {
    if i < k {
      FindFromFirst(s, p, i + 1, k);
    }
  }
}
