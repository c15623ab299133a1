/**
  The execution harness: `Test::execute`, `TestCase::execute` and
  `Registry::testRun`. Each installs itself in the current context before
  running, as the source does, and the run state records the order in which
  test functions are invoked.
 */
module Execution {
  import opened Steps
  import opened Tests
  import opened Assertions

  /** One call of a test function, named by its case and test. */
  datatype Invocation = Invocation(caseName: string, testName: string)

  datatype RunState = RunState(reg: Registry, ctx: Context, trace: seq<Invocation>)

  predicate ValidState(st: RunState) {
    ValidContext(st.reg, st.ctx)
  }

  /** Reference meaning of running a test: executed, and its body's failures appended. */
  function RanTest(t: Test): Test {
    t.(executed := true, failures := t.failures + BodyFailures(t.body))
  }

  /**
    After its run, a test succeeds exactly when it had no earlier failure
    and every assertion that ran in its body passed.
   */
  lemma RanTestSucceedsIff(t: Test)
    ensures TestSuccess(RanTest(t)) <==>
              t.failures == [] && forall k :: 0 <= k < |ExecutedSteps(t.body)| ==> Passes(ExecutedSteps(t.body)[k].check)
  {
    assert RanTest(t).failures == t.failures + BodyFailures(t.body);
  }

  function RanTests(ts: seq<Test>): (r: seq<Test>)
    ensures |r| == |ts|
    ensures forall j :: 0 <= j < |ts| ==> r[j] == RanTest(ts[j])
  {
    if |ts| == 0 then [] else [RanTest(ts[0])] + RanTests(ts[1..])
  }

  /** Reference meaning of running a case: every test run, the case executed. */
  function RanCase(c: TestCase): TestCase {
    c.(tests := RanTests(c.tests), executed := true)
  }

  function TestInvocations(caseName: string, ts: seq<Test>): (r: seq<Invocation>)
    ensures |r| == |ts|
    ensures forall j :: 0 <= j < |ts| ==> r[j] == Invocation(caseName, ts[j].name)
  {
    if |ts| == 0 then [] else [Invocation(caseName, ts[0].name)] + TestInvocations(caseName, ts[1..])
  }

  /** The invocations a case makes, in test order. */
  function CaseInvocations(c: TestCase): seq<Invocation> {
    TestInvocations(c.name, c.tests)
  }

  /** The invocations a sequence of cases makes, case after case. */
  function Invocations(cs: seq<TestCase>): seq<Invocation> {
    if |cs| == 0 then [] else CaseInvocations(cs[0]) + Invocations(cs[1..])
  }

  /** Case `c` with its test `j` run and every other test untouched. */
  function RanAt(c: TestCase, j: nat): TestCase
    requires j < |c.tests|
  {
    c.(tests := c.tests[j := RanTest(c.tests[j])])
  }

  /**
    `Test::execute`: makes the test current, runs its body, marks it
    executed. The test ends as `RanTest` says; nothing else in the registry
    changes.
   */
  function ExecuteTest(st: RunState, i: nat, j: nat): (r: RunState)
    requires ValidState(st) && ValidRef(st.reg, TestRef(i, j))
    ensures ValidState(r)
    ensures r.reg == Registry(st.reg.cases[i := RanAt(st.reg.cases[i], j)])
    ensures r.ctx == st.ctx.(test := Some(TestRef(i, j)))
    ensures r.trace == st.trace + [Invocation(st.reg.cases[i].name, st.reg.cases[i].tests[j].name)]
  {
    var p := TestRef(i, j);
    var ctx := st.ctx.(test := Some(p));
    var t := TestAt(st.reg, p);
    RunBodyRecordsBodyFailures(st.reg, ctx, t.body);
    var reg1 := RunBody(st.reg, ctx, t.body).reg;
    var reg2 := UpdateTest(reg1, p, TestAt(reg1, p).(executed := true));
    UpdateTestTwice(st.reg, p, t.(failures := t.failures + BodyFailures(t.body)), RanTest(t));
    RunState(reg2, ctx, st.trace + [Invocation(st.reg.cases[i].name, t.name)])
  }

  /** Running a test keeps its name, so the case's invocation list is unchanged. */
  lemma CaseInvocationsAfterRun(c: TestCase, j: nat)
    requires j < |c.tests|
    ensures CaseInvocations(RanAt(c, j)) == CaseInvocations(c)
    ensures CaseInvocations(c)[j..] == [Invocation(c.name, c.tests[j].name)] + CaseInvocations(c)[j + 1..]
  {
  }

  /** The tests with those from position `j` on run one after the other, the earlier ones untouched. */
  function RunFrom(ts: seq<Test>, j: nat): (r: seq<Test>)
    requires j <= |ts|
    ensures |r| == |ts|
    ensures forall m :: 0 <= m < j ==> r[m] == ts[m]
    ensures forall m :: j <= m < |ts| ==> r[m] == RanTest(ts[m])
    decreases |ts| - j
  {
    if j == |ts| then ts else RunFrom(ts[j := RanTest(ts[j])], j + 1)
  }

  /** Case `c` with its tests from position `j` on run. */
  function RanFrom(c: TestCase, j: nat): TestCase
    requires j <= |c.tests|
  {
    c.(tests := RunFrom(c.tests, j))
  }

  /** Running test `j`, then the tests after it, is running the tests from `j` on. */
  lemma RanFromStep(c: TestCase, j: nat)
    requires j < |c.tests|
    ensures RanFrom(RanAt(c, j), j + 1) == RanFrom(c, j)
  {
  }

  lemma RunTestsStepCases(cs: seq<TestCase>, i: nat, j: nat, rcs: seq<TestCase>)
    requires i < |cs| && j < |cs[i].tests|
    requires rcs == cs[i := RanAt(cs[i], j)][i := RanFrom(RanAt(cs[i], j), j + 1)]
    ensures rcs == cs[i := RanFrom(cs[i], j)]
  {
    RanFromStep(cs[i], j);
  }

  lemma RunTestsStepTrace(c: TestCase, j: nat, t: seq<Invocation>, rt: seq<Invocation>)
    requires j < |c.tests|
    requires rt == t + [Invocation(c.name, c.tests[j].name)] + CaseInvocations(RanAt(c, j))[j + 1..]
    ensures rt == t + CaseInvocations(c)[j..]
  {
    CaseInvocationsAfterRun(c, j);
  }

  /** The tests of case `i` from position `j` on, in order. */
  function RunTests(st: RunState, i: nat, j: nat): (r: RunState)
    requires ValidState(st) && i < |st.reg.cases| && j <= |st.reg.cases[i].tests|
    ensures ValidState(r)
    ensures r.reg == Registry(st.reg.cases[i := RanFrom(st.reg.cases[i], j)])
    ensures r.trace == st.trace + CaseInvocations(st.reg.cases[i])[j..]
    ensures r.ctx.testCase == st.ctx.testCase
    decreases |st.reg.cases[i].tests| - j
  {
    if j == |st.reg.cases[i].tests| then
      assert st.reg.cases[i := RanFrom(st.reg.cases[i], j)] == st.reg.cases;
      st
    else
      var st1 := ExecuteTest(st, i, j);
      var r := RunTests(st1, i, j + 1);
      RunTestsStepCases(st.reg.cases, i, j, r.reg.cases);
      RunTestsStepTrace(st.reg.cases[i], j, st.trace, r.trace);
      r
  }

  /**
    `TestCase::execute`: makes the case current, runs its tests in order,
    marks it executed. The case ends as `RanCase` says; no other case
    changes.
   */
  function ExecuteCase(st: RunState, i: nat): (r: RunState)
    requires ValidState(st) && i < |st.reg.cases|
    ensures ValidState(r) && SameShape(st.reg, r.reg)
    ensures forall k :: 0 <= k < |st.reg.cases| && k != i ==> r.reg.cases[k] == st.reg.cases[k]
    ensures r.reg.cases[i] == RanCase(st.reg.cases[i])
    ensures r.trace == st.trace + CaseInvocations(st.reg.cases[i])
    ensures r.ctx.testCase == Some(i)
  {
    var st1 := st.(ctx := st.ctx.(testCase := Some(i)));
    var st2 := RunTests(st1, i, 0);
    var c := st2.reg.cases[i];
    assert CaseInvocations(st.reg.cases[i])[0..] == CaseInvocations(st.reg.cases[i]);
    assert RunFrom(st.reg.cases[i].tests, 0) == RanTests(st.reg.cases[i].tests);
    assert c.(executed := true) == RanCase(st.reg.cases[i]);
    st2.(reg := Registry(st2.reg.cases[i := c.(executed := true)]))
  }

  lemma InvocationsCons(cs: seq<TestCase>, i: nat)
    requires i < |cs|
    ensures Invocations(cs[i..]) == CaseInvocations(cs[i]) + Invocations(cs[i + 1..])
  {
    assert cs[i..][1..] == cs[i + 1..];
  }

  /** One step of `RunCases` on the cases: case `i` run, then the cases after it. */
  lemma RunCasesStepCases(cs: seq<TestCase>, i: nat, cs1: seq<TestCase>, rs: seq<TestCase>)
    requires i < |cs| && |cs1| == |cs| && |rs| == |cs|
    requires forall k :: 0 <= k < |cs| && k != i ==> cs1[k] == cs[k]
    requires cs1[i] == RanCase(cs[i])
    requires forall k :: 0 <= k < i + 1 ==> rs[k] == cs1[k]
    requires forall k :: i + 1 <= k < |cs| ==> rs[k] == RanCase(cs1[k])
    ensures forall k :: 0 <= k < i ==> rs[k] == cs[k]
    ensures forall k :: i <= k < |cs| ==> rs[k] == RanCase(cs[k])
  {
  }

  /** One step of `RunCases` on the trace: case `i`'s invocations, then the later cases'. */
  lemma RunCasesStepTrace(cs: seq<TestCase>, i: nat, cs1: seq<TestCase>, t: seq<Invocation>)
    requires i < |cs| && |cs1| == |cs|
    requires forall k :: 0 <= k < |cs| && k != i ==> cs1[k] == cs[k]
    ensures t + CaseInvocations(cs[i]) + Invocations(cs1[i + 1..]) == t + Invocations(cs[i..])
  {
    assert cs1[i + 1..] == cs[i + 1..];
    InvocationsCons(cs, i);
  }

  /** The cases from position `i` on, in order. */
  function RunCases(st: RunState, i: nat): (r: RunState)
    requires ValidState(st) && i <= |st.reg.cases|
    ensures ValidState(r) && |r.reg.cases| == |st.reg.cases|
    ensures forall k :: 0 <= k < i ==> r.reg.cases[k] == st.reg.cases[k]
    ensures forall k :: i <= k < |st.reg.cases| ==> r.reg.cases[k] == RanCase(st.reg.cases[k])
    ensures r.trace == st.trace + Invocations(st.reg.cases[i..])
    decreases |st.reg.cases| - i
  {
    if i == |st.reg.cases| then st
    else
      var st1 := ExecuteCase(st, i);
      var r := RunCases(st1, i + 1);
      RunCasesStepCases(st.reg.cases, i, st1.reg.cases, r.reg.cases);
      RunCasesStepTrace(st.reg.cases, i, st1.reg.cases, st.trace);
      r
  }

  /**
    `Registry::testRun`: every case runs in registry order and every test
    in case order; afterwards every case and test is executed and each test
    holds exactly its earlier failures followed by its own body's failures.
   */
  function TestRun(reg: Registry, ctx: Context): (r: RunState)
    requires ValidContext(reg, ctx)
    ensures ValidState(r) && |r.reg.cases| == |reg.cases|
    ensures forall i :: 0 <= i < |reg.cases| ==> r.reg.cases[i] == RanCase(reg.cases[i])
    ensures r.trace == Invocations(reg.cases)
  {
    assert reg.cases[0..] == reg.cases;
    RunCases(RunState(reg, ctx, []), 0)
  }
}
