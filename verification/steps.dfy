/**
  A test body, abstracted to the sequence of assertion macros it issues.
  Each step records the operand values the macro saw, the operand texts the
  preprocessor stringified (`#left`, `#right`), the call site, and whether it
  is an `ASSERT_*` (fatal: a failing check returns from the body) or an
  `EXPECT_*` (non-fatal). This module gives the reference meaning of a body:
  which steps run and which failures they record.
 */
module Steps {
  import opened Text
  import opened Comparators
  import opened Failures

  /** The check a macro performs, with the operand values it evaluated. */
  datatype Check =
    | BoolCheck(expected: bool, actual: bool)           // EXPECT_BOOL / TRUE / FALSE
    | IntCheck(op: RelOp, left: int, right: int)        // EXPECT_EQ / LT / LE / GT / GE, EXPECT_BINARY(l, r, NE)
    | StrCheck(sop: StrOp, leftStr: string, rightStr: string) // EXPECT_STREQ / STRNE / STRCASEEQ / STRCASENE

  datatype Step = Step(
    fatal: bool,
    check: Check,
    leftText: string,
    rightText: string,
    file: string,
    line: int)

  /** Whether the check succeeds. */
  predicate Passes(c: Check) {
    match c
    case BoolCheck(e, a) => e == a
    case IntCheck(op, l, r) => RelHolds(op, l, r)
    case StrCheck(op, l, r) => StrHolds(op, l, r)
  }

  /**
    Whether the check succeeds with the comparators as the header writes
    them, where `NE` tests equality; the rest of the model uses `Passes`.
   */
  predicate PassesAsWritten(c: Check) {
    match c
    case BoolCheck(e, a) => e == a
    case IntCheck(op, l, r) => RelHoldsAsWritten(op, l, r)
    case StrCheck(op, l, r) => StrHolds(op, l, r)
  }

  /** The symbol the macro puts between the stringified operands; EXPECT_BOOL always uses EQ's. */
  function CheckSymbol(c: Check): string {
    match c
    case BoolCheck(_, _) => RelSymbol(EQ)
    case IntCheck(op, _, _) => RelSymbol(op)
    case StrCheck(op, _, _) => StrSymbol(op)
  }

  /** The "Expected" part: the condition as the user wrote it. */
  function CondText(s: Step): string {
    CondStr(s.leftText, CheckSymbol(s.check), s.rightText)
  }

  /**
    The expected text reads back as the left operand text, the comparator's
    symbol and the right operand text whenever the left operand text holds
    no space.
   */
  lemma CondTextReadsBack(s: Step)
    requires NoSpace(s.leftText)
    ensures SplitCond(CondText(s)) == (s.leftText, CheckSymbol(s.check), s.rightText)
  {
    CondStrRoundTrip(s.leftText, CheckSymbol(s.check), s.rightText);
  }

  /**
    The "Actual" part: the literal `true`/`false` for a boolean check, or
    the rendered operands around the comparator's symbol.
   */
  function ActualText(c: Check): (r: string)
    ensures c.BoolCheck? ==> (r == "true" || r == "false") && (r == "true" <==> c.actual)
  {
    match c
    case BoolCheck(_, a) => if a then "true" else "false"
    case IntCheck(op, l, r) => CondStr(IntToString(l), RelSymbol(op), IntToString(r))
    case StrCheck(op, l, r) => CondStr(CStr(l), StrSymbol(op), CStr(r))
  }

  /**
    The actual text of an integer check reads back as the two numbers and
    the symbol; that of a string check, as the two C strings and the
    symbol, when the left one holds no space.
   */
  lemma ActualTextReadsBack(c: Check)
    ensures c.IntCheck? ==>
              var (x, sym, y) := SplitCond(ActualText(c));
              sym == RelSymbol(c.op) && IsNumeral(x) && IsNumeral(y)
              && ParseInt(x) == c.left && ParseInt(y) == c.right
    ensures c.StrCheck? && NoSpace(CStr(c.leftStr)) ==>
              SplitCond(ActualText(c)) == (CStr(c.leftStr), StrSymbol(c.sop), CStr(c.rightStr))
  {
    match c
    case BoolCheck(_, _) =>
    case IntCheck(op, l, r) =>
      CondStrRoundTrip(IntToString(l), RelSymbol(op), IntToString(r));
      IntToStringRoundTrip(l);
      IntToStringRoundTrip(r);
    case StrCheck(op, l, r) =>
      if NoSpace(CStr(l)) {
        CondStrRoundTrip(CStr(l), StrSymbol(op), CStr(r));
      }
  }

  /** The failure a failing step records. */
  function FailureOf(s: Step): Failure {
    MakeFailure(s.file, s.line, CondText(s), ActualText(s.check))
  }

  /** A step that ends its body: a fatal assertion whose check fails. */
  predicate Stops(s: Step) {
    s.fatal && !Passes(s.check)
  }

  /**
    The steps of a body that are evaluated: every step up to and including
    the first one that stops the body.
   */
  function ExecutedSteps(steps: seq<Step>): (r: seq<Step>)
    ensures |r| <= |steps| && r == steps[..|r|]
    ensures forall k :: 0 <= k < |r| - 1 ==> !Stops(r[k])
    ensures |r| < |steps| ==> |r| > 0 && Stops(r[|r| - 1])
  {
    if |steps| == 0 then []
    else if Stops(steps[0]) then [steps[0]]
    else [steps[0]] + ExecutedSteps(steps[1..])
  }

  /** What evaluating one step records: nothing, or its failure. */
  function StepFailures(s: Step): seq<Failure> {
    if Passes(s.check) then [] else [FailureOf(s)]
  }

  /** The failures recorded by evaluating `steps` in order, none skipped. */
  function FailuresOf(steps: seq<Step>): (r: seq<Failure>)
    ensures |r| <= |steps|
    ensures r == [] <==> forall k :: 0 <= k < |steps| ==> Passes(steps[k].check)
  {
    if |steps| == 0 then []
    else StepFailures(steps[0]) + FailuresOf(steps[1..])
  }

  /** The failures a run of the body records. */
  function BodyFailures(steps: seq<Step>): seq<Failure> {
    FailuresOf(ExecutedSteps(steps))
  }

  /** Nothing after the first stopping step is evaluated: the body runs at most up to step `k`. */
  lemma {:induction false} StopBoundsExecution(steps: seq<Step>, k: nat)
    requires k < |steps| && Stops(steps[k])
    ensures |ExecutedSteps(steps)| <= k + 1
    decreases k
  {
    if !Stops(steps[0]) {
      assert steps[1..][k - 1] == steps[k];
      StopBoundsExecution(steps[1..], k - 1);
    }
  }

  /** Steps after a stopping step are never evaluated, whatever they are. */
  lemma {:induction false} StopIgnoresRest(pre: seq<Step>, rest: seq<Step>)
    requires |pre| > 0 && Stops(pre[|pre| - 1])
    ensures ExecutedSteps(pre + rest) == ExecutedSteps(pre)
    decreases |pre|
  {
    assert (pre + rest)[0] == pre[0];
    if !Stops(pre[0]) {
      assert (pre + rest)[1..] == pre[1..] + rest;
      StopIgnoresRest(pre[1..], rest);
    }
  }

  /**
    A body made only of `EXPECT_*` steps is evaluated to the end, and every
    failing step records exactly its own failure, in order.
   */
  lemma {:induction false} NonFatalBodyRunsToEnd(steps: seq<Step>)
    requires forall k :: 0 <= k < |steps| ==> !steps[k].fatal
    ensures ExecutedSteps(steps) == steps
    ensures BodyFailures(steps) == FailuresOf(steps)
  {
    if |steps| > 0 {
      NonFatalBodyRunsToEnd(steps[1..]);
    }
  }

  /** The body runs exactly up to its first stopping step. */
  lemma {:induction false} ExecutedUpToStop(steps: seq<Step>, k: nat)
    requires k < |steps| && Stops(steps[k])
    requires forall m :: 0 <= m < k ==> !Stops(steps[m])
    ensures ExecutedSteps(steps) == steps[..k + 1]
    decreases k
  {
    if k > 0 {
      ExecutedUpToStop(steps[1..], k - 1);
      assert steps[1..][..k] == steps[1..k + 1];
      assert steps[..k + 1] == [steps[0]] + steps[1..k + 1];
    }
  }

  /** The failures of one more step are those of the steps before it, then its own. */
  lemma {:induction false} FailuresOfSnoc(pre: seq<Step>, x: Step)
    ensures FailuresOf(pre + [x]) == FailuresOf(pre) + StepFailures(x)
    decreases |pre|
  {
    if |pre| == 0 {
      assert pre + [x] == [x];
    } else {
      var rest := pre[1..];
      assert (pre + [x])[0] == pre[0];
      assert (pre + [x])[1..] == rest + [x];
      FailuresOfSnoc(rest, x);
    }
  }

  /** When the last evaluated step fails, its failure is the last one recorded. */
  lemma LastFailureIsLastStep(steps: seq<Step>)
    requires |steps| > 0 && !Passes(steps[|steps| - 1].check)
    ensures |FailuresOf(steps)| > 0
    ensures FailuresOf(steps)[|FailuresOf(steps)| - 1] == FailureOf(steps[|steps| - 1])
  {
    var pre := steps[..|steps| - 1];
    var last := steps[|steps| - 1];
    assert steps == pre + [last];
    FailuresOfSnoc(pre, last);
  }

  /** A failing fatal step is the last failure its body records. */
  lemma FailuresEndAtStop(steps: seq<Step>, k: nat)
    requires k < |steps| && Stops(steps[k])
    requires forall m :: 0 <= m < k ==> !Stops(steps[m])
    ensures ExecutedSteps(steps) == steps[..k + 1]
    ensures |BodyFailures(steps)| > 0
    ensures BodyFailures(steps)[|BodyFailures(steps)| - 1] == FailureOf(steps[k])
  {
    ExecutedUpToStop(steps, k);
    LastFailureIsLastStep(steps[..k + 1]);
  }

  /** A body that issues no assertion records nothing. */
  lemma EmptyBodyRecordsNothing()
    ensures BodyFailures([]) == []
  {
  }

  /**
    With the comparators as written, a step agrees with the corrected one
    except when it is an `NE` check, whose outcome is reversed.
   */
  lemma PassesAsWrittenFlipsNe(c: Check)
    ensures c.IntCheck? && c.op == NE ==> PassesAsWritten(c) == !Passes(c)
    ensures !(c.IntCheck? && c.op == NE) ==> PassesAsWritten(c) == Passes(c)
  {
  }

  /** The texts `EXPECT_BINARY(0, 1, NE)` renders: both are `0 != 1`. */
  lemma ExpectNeTexts(s: Step)
    requires s.check == IntCheck(NE, 0, 1) && s.leftText == "0" && s.rightText == "1"
    ensures CondText(s) == "0 != 1" && ActualText(s.check) == "0 != 1"
  {
    assert IntToString(0) == "0" && IntToString(1) == "1";
  }

  /**
    As written, `EXPECT_BINARY(0, 1, NE)` fails and records the message
    `Expected:0 != 1, Actual:0 != 1`, although `0 != 1` holds and the
    corrected check passes.
   */
  lemma ExpectNeAsWritten(file: string, line: int)
    ensures var s := Step(false, IntCheck(NE, 0, 1), "0", "1", file, line);
            && !PassesAsWritten(s.check) && Passes(s.check)
            && FailureOf(s).message == "Expected:0 != 1, Actual:0 != 1"
  {
    var s := Step(false, IntCheck(NE, 0, 1), "0", "1", file, line);
    ExpectNeTexts(s);
    assert FailureOf(s).message == FailureMessage(CondText(s), ActualText(s.check));
    ExpectNeMessageText();
  }

  lemma ExpectNeMessageText()
    ensures FailureMessage("0 != 1", "0 != 1") == "Expected:0 != 1, Actual:0 != 1"
  {
    assert "Expected:" + "0 != 1" == "Expected:0 != 1";
    assert ", Actual:" + "0 != 1" == ", Actual:0 != 1";
  }
}
