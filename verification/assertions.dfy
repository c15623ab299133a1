/**
  The assertion engine (`detail::assertBool`, `detail::assertBinary`) and
  the interpreter for a test body. The process-wide `TestState` is an
  explicit `Context` of positions into the registry; a failed check with no
  current test trips `assert(current)` and aborts the process.
 */
module Assertions {
  import opened Text
  import opened Comparators
  import opened Failures
  import opened Steps
  import opened Tests

  /** `TestState`: the current test case and the current test, when set. */
  datatype Context = Context(testCase: Option<nat>, test: Option<TestRef>)

  /** The state before the harness sets anything: both pointers null. */
  function InitialContext(): Context {
    Context(None, None)
  }

  /** The pointers the context holds point into the registry. */
  predicate ValidContext(reg: Registry, ctx: Context) {
    && (ctx.testCase.Some? ==> ctx.testCase.value < |reg.cases|)
    && (ctx.test.Some? ==> ValidRef(reg, ctx.test.value))
  }

  lemma SameShapeKeepsContextValid(a: Registry, b: Registry, ctx: Context)
    requires SameShape(a, b) && ValidContext(a, ctx)
    ensures ValidContext(b, ctx)
  {
  }

  /** What an assertion call ends in: a process abort, or a return with the check's outcome. */
  datatype AssertOutcome = Aborted | Returned(passed: bool, reg: Registry)

  /** A comparator struct: its call operator and its `toStr()`. */
  datatype Comparator<!T1, !T2> = Comparator(apply: (T1, T2) -> bool, symbol: string)

  /** Records a failure against the current test; with no current test, `assert(current)` aborts. */
  function FailCurrent(reg: Registry, ctx: Context, file: string, line: int, cond: string, actual: string): (r: AssertOutcome)
    requires ValidContext(reg, ctx)
    ensures r.Aborted? <==> ctx.test.None?
    ensures r.Returned? ==> !r.passed
    ensures r.Returned? ==> r.reg == AppendFailures(reg, ctx.test.value, [MakeFailure(file, line, cond, actual)])
  {
    match ctx.test
    case None => Aborted
    case Some(p) => Returned(false, UpdateTest(reg, p, SetFailure(TestAt(reg, p), file, line, cond, actual)))
  }

  /**
    `assertBool`: returns `expected == result`; on a mismatch records exactly
    one failure, whose actual part is `true` or `false`, against the current
    test; on a match changes nothing and needs no current test.
   */
  function AssertBool(reg: Registry, ctx: Context, expected: bool, result: bool,
                      cond: string, file: string, line: int): (r: AssertOutcome)
    requires ValidContext(reg, ctx)
    ensures r.Aborted? <==> expected != result && ctx.test.None?
    ensures r.Returned? ==> r.passed == (expected == result)
    ensures r.Returned? && r.passed ==> r.reg == reg
    ensures r.Returned? && !r.passed ==>
              r.reg == AppendFailures(reg, ctx.test.value,
                         [Failure(file, line, "Expected:" + cond + ", Actual:" + (if result then "true" else "false"))])
  {
    if expected != result then
      FailCurrent(reg, ctx, file, line, cond, if result then "true" else "false")
    else
      Returned(true, reg)
  }

  /**
    `assertBinary`: returns `op(expected, result)`; when false records
    exactly one failure whose actual part is `condStr(expected, result, op)`
    against the current test; when true changes nothing.
   */
  function AssertBinary<T1, T2>(reg: Registry, ctx: Context, expected: T1, result: T2,
                                op: Comparator<T1, T2>, render1: T1 -> string, render2: T2 -> string,
                                cond: string, file: string, line: int): (r: AssertOutcome)
    requires ValidContext(reg, ctx)
    ensures r.Aborted? <==> !op.apply(expected, result) && ctx.test.None?
    ensures r.Returned? ==> r.passed == op.apply(expected, result)
    ensures r.Returned? && r.passed ==> r.reg == reg
    ensures r.Returned? && !r.passed ==>
              r.reg == AppendFailures(reg, ctx.test.value,
                         [Failure(file, line, "Expected:" + cond + ", Actual:"
                                    + render1(expected) + " " + op.symbol + " " + render2(result))])
  {
    var c := op.apply(expected, result);
    assert FailureMessage(cond, CondStr(render1(expected), op.symbol, render2(result)))
        == "Expected:" + cond + ", Actual:" + render1(expected) + " " + op.symbol + " " + render2(result);
    if !c then
      FailCurrent(reg, ctx, file, line, cond, CondStr(render1(expected), op.symbol, render2(result)))
    else
      Returned(c, reg)
  }

  /** One macro of a body, as the macro expands it. */
  function EvalStep(reg: Registry, ctx: Context, s: Step): (r: AssertOutcome)
    requires ValidContext(reg, ctx)
    ensures r.Aborted? <==> !Passes(s.check) && ctx.test.None?
    ensures r.Returned? ==> r.passed == Passes(s.check)
    ensures r.Returned? ==>
              r.reg == if r.passed then reg else AppendFailures(reg, ctx.test.value, [FailureOf(s)])
  {
    match s.check
    case BoolCheck(e, a) =>
      AssertBool(reg, ctx, e, a, CondText(s), s.file, s.line)
    case IntCheck(op, l, r) =>
      AssertBinary(reg, ctx, l, r, Comparator((a: int, b: int) => RelHolds(op, a, b), RelSymbol(op)),
                   IntToString, IntToString, CondText(s), s.file, s.line)
    case StrCheck(op, l, r) =>
      AssertBinary(reg, ctx, l, r, Comparator((a: string, b: string) => StrHolds(op, a, b), StrSymbol(op)),
                   CStr, CStr, CondText(s), s.file, s.line)
  }

  /** How a body ends: the process aborted, or the function returned. */
  datatype BodyOutcome = BodyAborted | BodyReturned(reg: Registry)

  lemma BodyFailuresCons(steps: seq<Step>)
    requires |steps| > 0
    ensures BodyFailures(steps) ==
              (if Passes(steps[0].check) then [] else [FailureOf(steps[0])])
              + (if Stops(steps[0]) then [] else BodyFailures(steps[1..]))
  {
    if !Stops(steps[0]) {
      var ex := ExecutedSteps(steps);
      assert ex == [steps[0]] + ExecutedSteps(steps[1..]);
      assert ex[1..] == ExecutedSteps(steps[1..]);
    } else {
      assert ExecutedSteps(steps) == [steps[0]];
      assert [steps[0]][1..] == [];
    }
  }

  /**
    Runs a body: each step in order; a failing `ASSERT_*` returns at once.
    With a current test the body always returns and the registry keeps its
    shape; with none, a return leaves the registry untouched.
   */
  function RunBody(reg: Registry, ctx: Context, steps: seq<Step>): (r: BodyOutcome)
    requires ValidContext(reg, ctx)
    ensures ctx.test.Some? ==> r.BodyReturned? && SameShape(reg, r.reg)
    ensures ctx.test.None? && r.BodyReturned? ==> r.reg == reg
    decreases |steps|
  {
    if |steps| == 0 then BodyReturned(reg)
    else
      match EvalStep(reg, ctx, steps[0])
      case Aborted => BodyAborted
      case Returned(ok, reg1) =>
        if !ok && steps[0].fatal then BodyReturned(reg1)
        else
          SameShapeKeepsContextValid(reg, reg1, ctx);
          RunBody(reg1, ctx, steps[1..])
  }

  /**
    Failures raised while a test is current land in that test: the only
    change a body makes to the registry is the current test's failure list
    growing by the failures of the executed steps, in order.
   */
  lemma {:induction false} RunBodyRecordsBodyFailures(reg: Registry, ctx: Context, steps: seq<Step>)
    requires ValidContext(reg, ctx) && ctx.test.Some?
    ensures RunBody(reg, ctx, steps) == BodyReturned(AppendFailures(reg, ctx.test.value, BodyFailures(steps)))
    decreases |steps|
  {
    var p := ctx.test.value;
    if |steps| == 0 {
      AppendNoFailures(reg, p);
    } else {
      BodyFailuresCons(steps);
      var out := EvalStep(reg, ctx, steps[0]);
      var reg1 := out.reg;
      if out.passed || !steps[0].fatal {
        SameShapeKeepsContextValid(reg, reg1, ctx);
        RunBodyRecordsBodyFailures(reg1, ctx, steps[1..]);
        if out.passed {
          assert BodyFailures(steps) == BodyFailures(steps[1..]);
        } else {
          AppendFailuresTwice(reg, p, [FailureOf(steps[0])], BodyFailures(steps[1..]));
        }
      } else {
        assert BodyFailures(steps) == [FailureOf(steps[0])];
      }
    }
  }

  /** With no current test, a body aborts exactly when one of its executed checks fails. */
  lemma {:induction false} RunBodyWithoutTestAborts(reg: Registry, ctx: Context, steps: seq<Step>)
    requires ValidContext(reg, ctx) && ctx.test.None?
    ensures RunBody(reg, ctx, steps).BodyAborted? <==> BodyFailures(steps) != []
    decreases |steps|
  {
    if |steps| > 0 {
      BodyFailuresCons(steps);
      if Passes(steps[0].check) {
        RunBodyWithoutTestAborts(reg, ctx, steps[1..]);
      }
    }
  }

  /** A failure raised while a test is current lands in that test and in no other. */
  lemma FailuresStayWithCurrentTest(reg: Registry, ctx: Context, steps: seq<Step>, q: TestRef)
    requires ValidContext(reg, ctx) && ctx.test.Some? && ValidRef(reg, q) && q != ctx.test.value
    ensures RunBody(reg, ctx, steps).BodyReturned?
    ensures ValidRef(RunBody(reg, ctx, steps).reg, q)
    ensures TestAt(RunBody(reg, ctx, steps).reg, q) == TestAt(reg, q)
  {
    var p := ctx.test.value;
    RunBodyRecordsBodyFailures(reg, ctx, steps);
    if q.caseIdx == p.caseIdx {
      assert q.testIdx != p.testIdx;
    }
  }

  /**
    A failing `ASSERT_*` ends the body: whatever steps follow it, the body
    has the same outcome as if it ended there.
   */
  lemma FatalFailureEndsBody(reg: Registry, ctx: Context, pre: seq<Step>, rest: seq<Step>)
    requires ValidContext(reg, ctx)
    requires |pre| > 0 && Stops(pre[|pre| - 1])
    ensures RunBody(reg, ctx, pre + rest) == RunBody(reg, ctx, pre)
  {
    StopIgnoresRest(pre, rest);
    if ctx.test.Some? {
      RunBodyRecordsBodyFailures(reg, ctx, pre + rest);
      RunBodyRecordsBodyFailures(reg, ctx, pre);
    } else {
      RunBodyWithoutTestAborts(reg, ctx, pre + rest);
      RunBodyWithoutTestAborts(reg, ctx, pre);
    }
  }

  /** With no current test, a body whose checks all pass returns without touching anything. */
  lemma PassingBodyNeedsNoContext(reg: Registry, steps: seq<Step>)
    requires forall k :: 0 <= k < |steps| ==> Passes(steps[k].check)
    ensures RunBody(reg, InitialContext(), steps) == BodyReturned(reg)
  {
    var ex := ExecutedSteps(steps);
    assert forall k :: 0 <= k < |ex| ==> Passes(ex[k].check) by {
      forall k | 0 <= k < |ex| ensures Passes(ex[k].check) {
        assert ex[k] == steps[k];
      }
    }
    RunBodyWithoutTestAborts(reg, InitialContext(), steps);
  }
}
