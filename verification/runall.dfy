/**
  `RUN_ALL_TESTS()`: run the registry, write the report, and evaluate
  `fail()`, whose value the macro discards. The properties here tie
  registration, execution, counting and reporting together.
 */
module RunAll {
  import opened Comparators
  import opened Steps
  import opened Tests
  import opened Registration
  import opened Assertions
  import opened Execution
  import opened Counting
  import opened Reporting

  /**
    What the macro's three statements produce: the registry after the run,
    the text written to the output, and the value `fail()` computes at the
    end, which the macro does not return or use.
   */
  datatype RunResult = RunResult(reg: Registry, output: string, failed: bool)

  /** Some test of the registry ends its run with at least one failure. */
  predicate SomeTestFails(reg: Registry) {
    exists i, j :: 0 <= i < |reg.cases| && 0 <= j < |reg.cases[i].tests|
                   && |RanTest(reg.cases[i].tests[j]).failures| > 0
  }

  /** A case after its run is unsuccessful exactly when one of its tests recorded a failure. */
  lemma RanCaseFails(c: TestCase)
    ensures !CaseSuccess(RanCase(c)) <==> exists j :: 0 <= j < |c.tests| && |RanTest(c.tests[j]).failures| > 0
  {
    var rc := RanCase(c);
    if !CaseSuccess(rc) {
      var j :| 0 <= j < |rc.tests| && !TestSuccess(rc.tests[j]);
      assert |RanTest(c.tests[j]).failures| > 0;
    }
  }

  /** The registry after the run fails exactly when some test recorded a failure. */
  lemma RunFailsIff(reg: Registry, r: Registry)
    requires |r.cases| == |reg.cases|
    requires forall i :: 0 <= i < |reg.cases| ==> r.cases[i] == RanCase(reg.cases[i])
    ensures Fail(r) <==> SomeTestFails(reg)
  {
    if SomeTestFails(reg) {
      var i, j :| 0 <= i < |reg.cases| && 0 <= j < |reg.cases[i].tests|
                  && |RanTest(reg.cases[i].tests[j]).failures| > 0;
      RanCaseFails(reg.cases[i]);
    }
    if Fail(r) {
      var i :| 0 <= i < |r.cases| && !CaseSuccess(r.cases[i]);
      RanCaseFails(reg.cases[i]);
    }
  }

  /**
    `testRun(); report(std::cout); fail();`: the value `fail()` computes
    after the run, which the macro then discards, holds exactly when some
    test ends the run with a failure; the output is the report of the
    registry after the run, in which every case has been run.
   */
  function RunAllTests(reg: Registry, ctx: Context): (r: RunResult)
    requires ValidContext(reg, ctx)
    ensures r.failed <==> SomeTestFails(reg)
    ensures r.output == Report(r.reg)
    ensures |r.reg.cases| == |reg.cases|
    ensures forall i :: 0 <= i < |reg.cases| ==> r.reg.cases[i] == RanCase(reg.cases[i])
  {
    var st := TestRun(reg, ctx);
    RunFailsIff(reg, st.reg);
    RunResult(st.reg, Report(st.reg), Fail(st.reg))
  }

  /** After the run every case and every test is marked executed, and names are kept. */
  lemma TestRunExecutesEverything(reg: Registry, ctx: Context)
    requires ValidContext(reg, ctx)
    ensures var r := TestRun(reg, ctx).reg;
            && Names(r) == Names(reg)
            && forall i :: 0 <= i < |r.cases| ==>
                 && r.cases[i].executed
                 && |r.cases[i].tests| == |reg.cases[i].tests|
                 && forall j :: 0 <= j < |r.cases[i].tests| ==>
                      r.cases[i].tests[j].executed && r.cases[i].tests[j].name == reg.cases[i].tests[j].name
  {
  }

  /** A test whose body issues no assertion, and which had no failure before, succeeds. */
  lemma EmptyBodySucceeds(reg: Registry, ctx: Context, i: nat, j: nat)
    requires ValidContext(reg, ctx) && ValidRef(reg, TestRef(i, j))
    requires reg.cases[i].tests[j].body == [] && reg.cases[i].tests[j].failures == []
    ensures TestSuccess(TestRun(reg, ctx).reg.cases[i].tests[j])
  {
    EmptyBodyRecordsNothing();
  }

  /** The tests of the registered cases, named case by case, in the order of `names`. */
  function GroupedInvocations(names: seq<string>, rs: seq<Registration>): seq<Invocation> {
    if |names| == 0 then []
    else TestInvocations(names[0], TestsFor(rs, names[0])) + GroupedInvocations(names[1..], rs)
  }

  lemma {:induction false} InvocationsOfGrouped(cs: seq<TestCase>, names: seq<string>, rs: seq<Registration>)
    requires |cs| == |names|
    requires forall k :: 0 <= k < |cs| ==> cs[k].name == names[k] && cs[k].tests == TestsFor(rs, names[k])
    ensures Invocations(cs) == GroupedInvocations(names, rs)
  {
    if |cs| > 0 {
      InvocationsOfGrouped(cs[1..], names[1..], rs);
    }
  }

  /**
    Test functions are invoked in registration order, grouped by case: the
    cases in order of first registration, each case's tests in the order
    they were registered.
   */
  lemma RegisteredRunOrder(rs: seq<Registration>)
    ensures TestRun(RegisterAll(rs), InitialContext()).trace
            == GroupedInvocations(Dedup(CaseNames(rs)), rs)
  {
    var reg := RegisterAll(rs);
    RegisterAllGroupsByCase(rs);
    InvocationsOfGrouped(reg.cases, Dedup(CaseNames(rs)), rs);
  }

  /** A test body given as an `EXPECT_EQ(3, 1+1)` at line 10 of `m.x`. */
  function FailingEqBody(): seq<Step> {
    [Step(false, IntCheck(EQ, 3, 2), "3", "1+1", "m.x", 10)]
  }

  lemma FailingEqTexts()
    ensures CondText(FailingEqBody()[0]) == "3 == 1+1"
    ensures ActualText(FailingEqBody()[0].check) == "3 == 2"
  {
    assert Text.DigitChar(3) == '3' && Text.DigitChar(2) == '2';
    assert Text.IntToString(3) == "3" && Text.IntToString(2) == "2";
  }

  lemma FailingEqMessageText()
    ensures Failures.FailureMessage("3 == 1+1", "3 == 2") == "Expected:3 == 1+1, Actual:3 == 2"
  {
    assert "Expected:" + "3 == 1+1" == "Expected:3 == 1+1";
    assert ", Actual:" + "3 == 2" == ", Actual:3 == 2";
  }

  lemma FailingEqFailure()
    ensures FailureOf(FailingEqBody()[0]) == Failures.Failure("m.x", 10, "Expected:3 == 1+1, Actual:3 == 2")
  {
    FailingEqTexts();
    FailingEqMessageText();
  }

  /** The failure `EXPECT_EQ(3, 1+1)` records, with its message spelled out. */
  lemma FailingEqMessage()
    ensures BodyFailures(FailingEqBody()) ==
              [Failures.Failure("m.x", 10, "Expected:3 == 1+1, Actual:3 == 2")]
  {
    var s := FailingEqBody()[0];
    assert !Passes(s.check);
    assert ExecutedSteps(FailingEqBody()) == [s];
    FailingEqFailure();
    assert FailuresOf([s]) == [FailureOf(s)] + FailuresOf([]);
  }

  /** `ASSERT_EQ(1, 1); ASSERT_EQ(5, 2); ASSERT_EQ(9, 9)`: one failure, the third never runs. */
  lemma FatalScenario()
    ensures var body := [Step(true, IntCheck(EQ, 1, 1), "1", "1", "t.x", 1),
                         Step(true, IntCheck(EQ, 5, 2), "5", "2", "t.x", 2),
                         Step(true, IntCheck(EQ, 9, 9), "9", "9", "t.x", 3)];
            && ExecutedSteps(body) == body[..2]
            && |BodyFailures(body)| == 1
            && BodyFailures(body)[0].line == 2
  {
    var body := [Step(true, IntCheck(EQ, 1, 1), "1", "1", "t.x", 1),
                 Step(true, IntCheck(EQ, 5, 2), "5", "2", "t.x", 2),
                 Step(true, IntCheck(EQ, 9, 9), "9", "9", "t.x", 3)];
    assert !Stops(body[0]) && Stops(body[1]);
    FailuresEndAtStop(body, 1);
    assert FailuresOf(body[..2]) == [] + FailuresOf(body[1..2]);
    assert FailuresOf(body[1..2]) == [FailureOf(body[1])] + FailuresOf([]);
  }

  /** Registrations `A.t1`, `B.t1`, `A.t2`, in that order. */
  function ThreeRegistrations(): seq<Registration> {
    [Registration("A", NewTest("t1", [])), Registration("B", NewTest("t1", [])),
     Registration("A", NewTest("t2", []))]
  }

  lemma ThreeRegistrationsNames()
    ensures Dedup(CaseNames(ThreeRegistrations())) == ["A", "B"]
  {
    var rs := ThreeRegistrations();
    assert CaseNames(rs) == ["A", "B", "A"];
    assert CaseNames(rs)[..2] == ["A", "B"];
    assert CaseNames(rs)[..2][..1] == ["A"];
    assert ["A"][..0] == [];
  }

  lemma ThreeRegistrationsTests()
    ensures TestsFor(ThreeRegistrations(), "A") == [NewTest("t1", []), NewTest("t2", [])]
    ensures TestsFor(ThreeRegistrations(), "B") == [NewTest("t1", [])]
  {
    var rs := ThreeRegistrations();
    var r1, r2 := rs[..1], rs[..2];
    assert r1[..0] == [] && r2[..1] == r1 && rs[..2] == r2;
    assert TestsFor(r1, "A") == [NewTest("t1", [])];
    assert TestsFor(r1, "B") == [];
    assert TestsFor(r2, "A") == [NewTest("t1", [])];
    assert TestsFor(r2, "B") == [NewTest("t1", [])];
  }

  lemma ThreeRegistrationsInvocations()
    ensures GroupedInvocations(["A", "B"], ThreeRegistrations())
            == [Invocation("A", "t1"), Invocation("A", "t2"), Invocation("B", "t1")]
  {
    var rs := ThreeRegistrations();
    ThreeRegistrationsTests();
    assert ["A", "B"][1..] == ["B"] && ["B"][1..] == [];
    assert GroupedInvocations(["B"], rs) == [Invocation("B", "t1")];
  }

  /** Registering `A.t1`, `B.t1`, `A.t2` gives cases `[A, B]` and runs `A.t1`, `A.t2`, `B.t1`. */
  lemma RegistrationOrderScenario()
    ensures Names(RegisterAll(ThreeRegistrations())) == ["A", "B"]
    ensures TestRun(RegisterAll(ThreeRegistrations()), InitialContext()).trace
            == [Invocation("A", "t1"), Invocation("A", "t2"), Invocation("B", "t1")]
  {
    var rs := ThreeRegistrations();
    RegisterAllGroupsByCase(rs);
    RegisteredRunOrder(rs);
    ThreeRegistrationsNames();
    ThreeRegistrationsInvocations();
  }
}
