/**
  The test tree: a `Test` (name, body, executed flag, failures), a
  `TestCase` (name, ordered tests, executed flag) and the `Registry`
  (ordered test cases), with the success predicates and the positional
  updates the harness performs through its current-test pointer.
 */
module Tests {
  import opened Failures
  import opened Steps

  datatype Option<T> = None | Some(value: T)

  datatype Test = Test(name: string, body: seq<Step>, executed: bool, failures: seq<Failure>)

  datatype TestCase = TestCase(name: string, tests: seq<Test>, executed: bool)

  datatype Registry = Registry(cases: seq<TestCase>)

  /** `Test(name, f)`: not executed, no failures. */
  function NewTest(name: string, body: seq<Step>): Test {
    Test(name, body, false, [])
  }

  /** `TestCase(name)`: not executed, no tests. */
  function NewTestCase(name: string): TestCase {
    TestCase(name, [], false)
  }

  /** The registry before any registration. */
  function EmptyRegistry(): Registry {
    Registry([])
  }

  /** `Test::success`: executed and nothing recorded. */
  predicate TestSuccess(t: Test) {
    t.executed && |t.failures| == 0
  }

  /** Reference reading of `TestCase::success`: executed, and every child successful. */
  predicate AllTestsSucceed(c: TestCase) {
    c.executed && forall j :: 0 <= j < |c.tests| ==> TestSuccess(c.tests[j])
  }

  /** Index of the first unsuccessful test, or `|tests|` (`find_if(..., not1(success))`). */
  function FirstUnsuccessful(tests: seq<Test>): (j: nat)
    ensures j <= |tests|
    ensures forall k :: 0 <= k < j ==> TestSuccess(tests[k])
    ensures j < |tests| ==> !TestSuccess(tests[j])
  {
    if |tests| == 0 then 0
    else if !TestSuccess(tests[0]) then 0
    else 1 + FirstUnsuccessful(tests[1..])
  }

  /** `TestCase::success`: false before execution, else true iff the search finds no unsuccessful test. */
  predicate CaseSuccess(c: TestCase)
    ensures CaseSuccess(c) <==> AllTestsSucceed(c)
  {
    if !c.executed then false
    else FirstUnsuccessful(c.tests) == |c.tests|
  }

  /** The case names, in registry order. */
  function Names(reg: Registry): (ns: seq<string>)
    ensures |ns| == |reg.cases|
    ensures forall i :: 0 <= i < |ns| ==> ns[i] == reg.cases[i].name
  {
    seq(|reg.cases|, i requires 0 <= i < |reg.cases| => reg.cases[i].name)
  }

  /** No two cases share a name. */
  predicate UniqueNames(reg: Registry) {
    forall i, j :: 0 <= i < j < |reg.cases| ==> reg.cases[i].name != reg.cases[j].name
  }

  /** A position in the registry: the `Test*` of the current context. */
  datatype TestRef = TestRef(caseIdx: nat, testIdx: nat)

  predicate ValidRef(reg: Registry, p: TestRef) {
    p.caseIdx < |reg.cases| && p.testIdx < |reg.cases[p.caseIdx].tests|
  }

  function TestAt(reg: Registry, p: TestRef): Test
    requires ValidRef(reg, p)
  {
    reg.cases[p.caseIdx].tests[p.testIdx]
  }

  /** Two registries with the same cases, same names and same number of tests per case. */
  predicate SameShape(a: Registry, b: Registry) {
    && |a.cases| == |b.cases|
    && forall i :: 0 <= i < |a.cases| ==>
         a.cases[i].name == b.cases[i].name && |a.cases[i].tests| == |b.cases[i].tests|
  }

  /** Replaces the test at `p` and leaves everything else alone. */
  function UpdateTest(reg: Registry, p: TestRef, t: Test): (r: Registry)
    requires ValidRef(reg, p)
    ensures SameShape(reg, r)
    ensures ValidRef(r, p) && TestAt(r, p) == t
    ensures forall i :: 0 <= i < |reg.cases| && i != p.caseIdx ==> r.cases[i] == reg.cases[i]
    ensures r.cases[p.caseIdx].name == reg.cases[p.caseIdx].name
    ensures r.cases[p.caseIdx].executed == reg.cases[p.caseIdx].executed
    ensures forall j :: 0 <= j < |reg.cases[p.caseIdx].tests| && j != p.testIdx ==>
              r.cases[p.caseIdx].tests[j] == reg.cases[p.caseIdx].tests[j]
  {
    var c := reg.cases[p.caseIdx];
    Registry(reg.cases[p.caseIdx := c.(tests := c.tests[p.testIdx := t])])
  }

  /**
    `Test::setFailure`: one failure more at the end of the list, which makes
    the test unsuccessful; the earlier failures and everything else are kept.
   */
  function SetFailure(t: Test, file: string, line: int, expected: string, actual: string): (r: Test)
    ensures r.name == t.name && r.body == t.body && r.executed == t.executed
    ensures !TestSuccess(r)
    ensures |r.failures| == |t.failures| + 1 && r.failures[..|t.failures|] == t.failures
    ensures r.failures[|t.failures|].file == file && r.failures[|t.failures|].line == line
    ensures r.failures[|t.failures|].message == FailureMessage(expected, actual)
    ensures NoSeparator(expected) ==> SplitMessage(r.failures[|t.failures|].message) == (expected, actual)
  {
    var f := MakeFailure(file, line, expected, actual);
    assert NoSeparator(expected) ==> SplitMessage(f.message) == (expected, actual) by {
      if NoSeparator(expected) {
        FailureMessageRoundTrip(expected, actual);
      }
    }
    t.(failures := t.failures + [f])
  }

  /** The test at `p` with `fs` appended to its failures, the rest of the registry unchanged. */
  function AppendFailures(reg: Registry, p: TestRef, fs: seq<Failure>): (r: Registry)
    requires ValidRef(reg, p)
    ensures SameShape(reg, r) && ValidRef(r, p)
    ensures TestAt(r, p).failures == TestAt(reg, p).failures + fs
    ensures TestAt(r, p).name == TestAt(reg, p).name && TestAt(r, p).body == TestAt(reg, p).body
    ensures TestAt(r, p).executed == TestAt(reg, p).executed
    ensures forall i :: 0 <= i < |reg.cases| && i != p.caseIdx ==> r.cases[i] == reg.cases[i]
    ensures r.cases[p.caseIdx].name == reg.cases[p.caseIdx].name
    ensures r.cases[p.caseIdx].executed == reg.cases[p.caseIdx].executed
    ensures forall j :: 0 <= j < |reg.cases[p.caseIdx].tests| && j != p.testIdx ==>
              r.cases[p.caseIdx].tests[j] == reg.cases[p.caseIdx].tests[j]
  {
    var t := TestAt(reg, p);
    UpdateTest(reg, p, t.(failures := t.failures + fs))
  }

  /** Appending in two goes is appending once. */
  lemma AppendFailuresTwice(reg: Registry, p: TestRef, a: seq<Failure>, b: seq<Failure>)
    requires ValidRef(reg, p)
    ensures AppendFailures(AppendFailures(reg, p, a), p, b) == AppendFailures(reg, p, a + b)
  {
    var t := TestAt(reg, p);
    assert (t.failures + a) + b == t.failures + (a + b);
    var c := reg.cases[p.caseIdx];
    var c1 := c.(tests := c.tests[p.testIdx := t.(failures := t.failures + a)]);
    var c2 := c1.(tests := c1.tests[p.testIdx := t.(failures := t.failures + a + b)]);
    assert c2.tests == c.tests[p.testIdx := t.(failures := t.failures + (a + b))];
  }

  lemma AppendNoFailures(reg: Registry, p: TestRef)
    requires ValidRef(reg, p)
    ensures AppendFailures(reg, p, []) == reg
  {
    var t := TestAt(reg, p);
    assert t.failures + [] == t.failures;
    var c := reg.cases[p.caseIdx];
    assert c.tests[p.testIdx := t] == c.tests;
    assert reg.cases[p.caseIdx := c] == reg.cases;
  }

  /** A second update of the same position overrides the first. */
  lemma UpdateTestTwice(reg: Registry, p: TestRef, a: Test, b: Test)
    requires ValidRef(reg, p)
    ensures UpdateTest(UpdateTest(reg, p, a), p, b) == UpdateTest(reg, p, b)
  {
    var c := reg.cases[p.caseIdx];
    assert c.tests[p.testIdx := a][p.testIdx := b] == c.tests[p.testIdx := b];
  }
}
