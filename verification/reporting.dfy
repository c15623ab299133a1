/**
  The text `Registry::report`, `TestCase::report` and `Test::reportFailure`
  write, as pure strings. `std::endl` is a newline; the red `[ FAILED ] `
  prefix is plain text here.
 */
module Reporting {
  import opened Text
  import opened Failures
  import opened Tests
  import opened Counting

  /** One failure line: `<test> : <file>(<line>): error: <message>`. */
  function FailureLine(testName: string, f: Failure): (s: string)
    ensures var n := |testName| + 3 + |f.file|; var num := IntToString(f.line);
            && |s| == n + 1 + |num| + 10 + |f.message| + 1
            && s[..|testName| + 3] == testName + " : "
            && s[|testName| + 3..n] == f.file
            && s[n..n + 1 + |num| + 10] == "(" + num + "): error: "
            && s[|s| - |f.message| - 1..] == f.message + "\n"
  {
    testName + " : " + f.file + "(" + IntToString(f.line) + "): error: " + f.message + "\n"
  }

  /**
    `Test::reportFailure`: one line per failure, in recording order. It is
    empty exactly when there is no failure; otherwise it starts with the
    test's name and ends with a newline.
   */
  function TestReport(name: string, fs: seq<Failure>): (r: string)
    ensures r == "" <==> |fs| == 0
    ensures |fs| > 0 ==> |r| > |name| + 3 && r[..|name| + 3] == name + " : " && r[|r| - 1] == '\n'
  {
    if |fs| == 0 then "" else FailureLine(name, fs[0]) + TestReport(name, fs[1..])
  }

  /** The failure lines of every unsuccessful test, in test order. */
  function FailedTestsReport(ts: seq<Test>): string {
    if |ts| == 0 then ""
    else (if TestSuccess(ts[0]) then "" else TestReport(ts[0].name, ts[0].failures))
         + FailedTestsReport(ts[1..])
  }

  /** `TestCase::report`: the `[ FAILED ] <name>` header line, then the failing tests' lines. */
  function CaseReport(c: TestCase): (r: string)
    ensures |r| > 11 + |c.name|
    ensures r[..11] == "[ FAILED ] " && r[11..11 + |c.name|] == c.name && r[11 + |c.name|] == '\n'
  {
    "[ FAILED ] " + c.name + "\n" + FailedTestsReport(c.tests)
  }

  /** The unsuccessful cases, in registry order: the cases the report lists. */
  function FailedCases(cs: seq<TestCase>): (r: seq<TestCase>)
    ensures |r| == CountFailed(cs)
    ensures forall k :: 0 <= k < |r| ==> r[k] in cs && !CaseSuccess(r[k])
    ensures forall c :: c in cs && !CaseSuccess(c) ==> c in r
  {
    if |cs| == 0 then []
    else (if CaseSuccess(cs[0]) then [] else [cs[0]]) + FailedCases(cs[1..])
  }

  function CaseReports(cs: seq<TestCase>): string {
    if |cs| == 0 then "" else CaseReport(cs[0]) + CaseReports(cs[1..])
  }

  /**
    The first line of the report: one line, starting with the number of
    failed cases when there is one, else with the number of successful
    cases.
   */
  function SummaryLine(reg: Registry): (r: string)
    ensures |r| > 0 && r[|r| - 1] == '\n' && NoNewline(r[..|r| - 1])
    ensures var num := IntToString(if NumFailed(reg) != 0 then NumFailed(reg) else NumSuccess(reg));
            |r| > |num| && r[..|num|] == num
  {
    if NumFailed(reg) != 0
    then IntToString(NumFailed(reg)) + " of " + IntToString(NumTotal(reg)) + " tests failed.\n"
    else IntToString(NumSuccess(reg)) + "tests success.\n"
  }

  /**
    `Registry::report`: when some case failed, the count line and then
    every unsuccessful case's report, in registry order; otherwise the
    success line, whose count is the total number of cases.
   */
  function Report(reg: Registry): (s: string)
    ensures Fail(reg) ==>
              s == IntToString(NumFailed(reg)) + " of " + IntToString(NumTotal(reg)) + " tests failed.\n"
                   + CaseReports(FailedCases(reg.cases))
    ensures !Fail(reg) ==> s == IntToString(NumTotal(reg)) + "tests success.\n"
  {
    if NumFailed(reg) != 0
    then SummaryLine(reg) + CaseReports(FailedCases(reg.cases))
    else SummaryLine(reg)
  }

  /** Number of newline characters. */
  function NewlineCount(s: string): nat {
    if |s| == 0 then 0 else (if s[0] == '\n' then 1 else 0) + NewlineCount(s[1..])
  }

  lemma {:induction false} NewlineCountAppend(a: string, b: string)
    ensures NewlineCount(a + b) == NewlineCount(a) + NewlineCount(b)
    decreases |a|
  {
    if |a| > 0 {
      assert (a + b)[1..] == a[1..] + b;
      NewlineCountAppend(a[1..], b);
    } else {
      assert a + b == b;
    }
  }

  /** No character of `s` is a newline. */
  predicate NoNewline(s: string) {
    forall k :: 0 <= k < |s| ==> s[k] != '\n'
  }

  lemma {:induction false} NoNewlineCount(s: string)
    requires NoNewline(s)
    ensures NewlineCount(s) == 0
  {
    if |s| > 0 {
      NoNewlineCount(s[1..]);
    }
  }

  /** A failure whose fields hold no newline takes exactly one line. */
  lemma FailureLineIsOneLine(testName: string, f: Failure)
    requires NoNewline(testName) && NoNewline(f.file) && NoNewline(f.message)
    ensures NewlineCount(FailureLine(testName, f)) == 1
  {
    var num := IntToString(f.line);
    assert NoNewline(num);
    var head := testName + " : " + f.file + "(" + num + "): error: " + f.message;
    assert NoNewline(head);
    assert FailureLine(testName, f) == head + "\n";
    NoNewlineCount(head);
    NewlineCountAppend(head, "\n");
  }

  /** `Test::reportFailure` writes one line per recorded failure. */
  lemma {:induction false} TestReportLineCount(name: string, fs: seq<Failure>)
    requires NoNewline(name)
    requires forall k :: 0 <= k < |fs| ==> NoNewline(fs[k].file) && NoNewline(fs[k].message)
    ensures NewlineCount(TestReport(name, fs)) == |fs|
  {
    if |fs| > 0 {
      FailureLineIsOneLine(name, fs[0]);
      TestReportLineCount(name, fs[1..]);
      NewlineCountAppend(FailureLine(name, fs[0]), TestReport(name, fs[1..]));
    }
  }

  /** Listing cases one group after another lists their failing cases in the same order. */
  lemma {:induction false} FailedCasesAppend(a: seq<TestCase>, b: seq<TestCase>)
    ensures FailedCases(a + b) == FailedCases(a) + FailedCases(b)
    decreases |a|
  {
    if |a| == 0 {
      assert a + b == b;
    } else {
      assert (a + b)[0] == a[0];
      assert (a + b)[1..] == a[1..] + b;
      FailedCasesAppend(a[1..], b);
    }
  }

  /** A test whose name and failures can be printed without a newline of their own. */
  predicate TestPrintable(t: Test) {
    && NoNewline(t.name)
    && forall k :: 0 <= k < |t.failures| ==>
         NoNewline(t.failures[k].file) && NoNewline(t.failures[k].message)
  }

  predicate CasePrintable(c: TestCase) {
    NoNewline(c.name) && forall j :: 0 <= j < |c.tests| ==> TestPrintable(c.tests[j])
  }

  /** Reference count: one line per failure of every unsuccessful test. */
  function FailedLines(ts: seq<Test>): nat {
    if |ts| == 0 then 0
    else (if TestSuccess(ts[0]) then 0 else |ts[0].failures|) + FailedLines(ts[1..])
  }

  /** Reference count: a header line per case, then its failed tests' lines. */
  function CasesLines(cs: seq<TestCase>): nat {
    if |cs| == 0 then 0 else 1 + FailedLines(cs[0].tests) + CasesLines(cs[1..])
  }

  lemma {:induction false} FailedTestsReportLineCount(ts: seq<Test>)
    requires forall j :: 0 <= j < |ts| ==> TestPrintable(ts[j])
    ensures NewlineCount(FailedTestsReport(ts)) == FailedLines(ts)
  {
    if |ts| > 0 {
      var head := if TestSuccess(ts[0]) then "" else TestReport(ts[0].name, ts[0].failures);
      FailedTestsReportLineCount(ts[1..]);
      TestReportLineCount(ts[0].name, ts[0].failures);
      NewlineCountAppend(head, FailedTestsReport(ts[1..]));
    }
  }

  /** A case report has its header line and then one line per failure of each failing test. */
  lemma CaseReportLineCount(c: TestCase)
    requires CasePrintable(c)
    ensures NewlineCount(CaseReport(c)) == 1 + FailedLines(c.tests)
  {
    var header := "[ FAILED ] " + c.name;
    assert NoNewline(header);
    NoNewlineCount(header);
    NewlineCountAppend(header, "\n");
    NewlineCountAppend(header + "\n", FailedTestsReport(c.tests));
    FailedTestsReportLineCount(c.tests);
  }

  lemma {:induction false} CaseReportsLineCount(cs: seq<TestCase>)
    requires forall i :: 0 <= i < |cs| ==> CasePrintable(cs[i])
    ensures NewlineCount(CaseReports(cs)) == CasesLines(cs)
  {
    if |cs| > 0 {
      CaseReportLineCount(cs[0]);
      CaseReportsLineCount(cs[1..]);
      NewlineCountAppend(CaseReport(cs[0]), CaseReports(cs[1..]));
    }
  }

  /** The summary is a single line. */
  lemma SummaryLineCount(reg: Registry)
    ensures NewlineCount(SummaryLine(reg)) == 1
  {
    var s := SummaryLine(reg);
    NoNewlineCount(s[..|s| - 1]);
    assert s == s[..|s| - 1] + "\n";
    NewlineCountAppend(s[..|s| - 1], "\n");
  }

  /**
    When no name, file or message holds a newline, the report has the
    summary line, then for each failing case its header line and one line
    per failure of each of its failing tests.
   */
  lemma ReportLineCount(reg: Registry)
    requires forall i :: 0 <= i < |reg.cases| ==> CasePrintable(reg.cases[i])
    ensures NewlineCount(Report(reg)) == 1 + (if Fail(reg) then CasesLines(FailedCases(reg.cases)) else 0)
  {
    SummaryLineCount(reg);
    if NumFailed(reg) != 0 {
      var fcs := FailedCases(reg.cases);
      assert forall i :: 0 <= i < |fcs| ==> CasePrintable(fcs[i]);
      CaseReportsLineCount(fcs);
      NewlineCountAppend(SummaryLine(reg), CaseReports(fcs));
    }
  }
}
