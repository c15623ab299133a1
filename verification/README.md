# picotest, modelled in Dafny

picotest is a single-header C++ unit-testing library in the style of Google
Test. `TEST(case, name)` registers a test function in a process-wide
registry, grouped by test case. `RUN_ALL_TESTS()` then does three things:

- it runs every case in registration order;
- it prints a report;
- it evaluates `fail()`, whose value the macro discards: the expansion
  ends with the statement `...fail();`, so the macro yields no value a
  caller could return from `main`.

Inside a test, `EXPECT_*` assertions record a failure and carry on.
`ASSERT_*` assertions record the failure and then return from the test
function, so a failed `ASSERT_*` ends the test early.

This project models the library's core as immutable data and pure
functions:

- **Failure and message construction**:
  - `Failures` builds the `Expected:<cond>, Actual:<values>` message.
  - `condStr` is modelled as `Failures.CondStr`.
- **Comparators**:
  - `Comparators` defines the six relational comparators over integers.
  - It also defines the four C-string comparators. These use `strcmp` and
    `_stricmp` semantics: a string ends at its first NUL character, and
    case is folded as ASCII.
  - Decimal rendering and C-string helpers live in `Text`.
- **Assertion steps**: `Steps` describes a test body as a sequence of
  assertion steps. Each step carries:
  - whether it is fatal (`ASSERT_*`) or not (`EXPECT_*`);
  - the operand values;
  - the macro's source texts;
  - the file and line.

  `Steps` also gives the reference meaning of a body: which steps execute,
  and which failures they record.
- **The test tree**: `Tests` holds `Test`, `TestCase` and `Registry`, with
  success predicates and positional updates.
- **Registration**: `Registration` models `Registry::add` and
  `find_by_name`, and what a whole sequence of registrations builds.
- **The assertion engine**: `Assertions` models `assertBool` and
  `assertBinary`, and the execution of a body against the current test.
  - The current test and case (`TestState`) is an explicit `Context`.
  - The `assert(current)` abort becomes an `Aborted` outcome.
- **The execution harness**: `Execution` models `Test::execute`,
  `TestCase::execute` and `Registry::testRun`. It records the order in
  which test functions are invoked.
- **Counting and reporting**:
  - `Counting` models `numTotal`, `numSuccess`, `numFailed` and `fail`.
  - `Reporting` models the report text.
  - `RunAll` models `RUN_ALL_TESTS()` and ties the parts together.

Three behaviours of the header are kept as written:

- The success line reads `<n>tests success.`, with no space before
  "tests" (picotest.h:210).
- Counts are per test case: a case with several failing tests is one
  failed case.
- `numSuccess` counts only cases that were executed.

The `NE` comparator tests equality (picotest.h:396). The model keeps that
as-written behaviour beside a corrected comparator, and the engine uses the
corrected one (see Findings).

## Model

| member | source | states |
|---|---|---|
| Failures.FailureMessageLayout | picotest.h:87-95 | a failure's message is `Expected:`, then the expected text, then `, Actual:`, then the actual text, each part at its own position, and its length is the sum of the parts |
| Failures.FailureMessageRoundTrip | picotest.h:88-89 | splitting a message at the first `, Actual:` after the `Expected:` prefix gives back the expected and the actual text, whenever the expected text holds no `, Actual:` |
| Failures.CondStr | picotest.h:444-451 | the condition text is the left operand, one space, the symbol, one space and the right operand, each at its own position |
| Failures.CondStrRoundTrip | picotest.h:444-451 | the condition text `v1 <op> v2` can be split back into its left operand, symbol and right operand whenever the left operand and the symbol contain no space |
| Text.NatToString | picotest.h:127 | a number is written as a nonempty string of decimal digits without a leading zero |
| Text.IntToString | picotest.h:205 | an integer is written with a leading `-` exactly when it is negative, followed by digits |
| Text.IntToStringRoundTrip | picotest.h:449 | reading back the decimal text of an integer gives the integer |
| Text.IntToStringInjective | picotest.h:127 | distinct integers are written as distinct texts |
| Text.CStr | picotest.h:401 | the C-string view of a character sequence is its prefix up to, not including, the first NUL |
| Text.StrCmp | picotest.h:401 | `strcmp` returns zero exactly when the two C strings are equal |
| Text.StrCaseCmp | picotest.h:411 | `_stricmp` returns zero exactly when the two C strings are equal after ASCII lower-casing |
| Text.LowerStr | picotest.h:411 | lower-casing keeps the length and lower-cases each character on its own |
| Text.LowerCode | picotest.h:411 | lower-casing maps only the NUL code to zero |
| Comparators.RelHolds | picotest.h:364-398 | each relational comparator holds exactly when the relation its printed symbol names holds between the operands |
| Comparators.RelHoldsAsWritten | picotest.h:364-398 | as written, every relational comparator but `NE` holds exactly when the symbol it prints holds; `NE` holds exactly when its printed `!=` fails |
| Comparators.RelSymbolInjective | picotest.h:367-397 | no two relational comparators print the same symbol |
| Comparators.NeAsWrittenIsEq | picotest.h:394-398 | the `NE` comparator as written agrees with `EQ` for every pair of operands, so it never means the `!=` it prints |
| Comparators.NeAsWrittenCounterexample | picotest.h:396 | for operands 0 and 1, `NE` as written fails although `0 != 1` holds |
| Comparators.AsWrittenAgreesExceptNe | picotest.h:364-392 | apart from `NE`, the comparators as written agree with the corrected ones |
| Comparators.NeIsNotEq | picotest.h:394-398 | the corrected `NE` holds exactly when `EQ` does not |
| Comparators.StrHolds | picotest.h:400-418 | `STREQ`/`STRNE` hold exactly when the C strings are equal or unequal; `STRCASEEQ`/`STRCASENE` hold exactly when they are equal or unequal after lower-casing |
| Comparators.StrNegations | picotest.h:400-418 | `STRNE` is the negation of `STREQ`, and `STRCASENE` is the negation of `STRCASEEQ` |
| Comparators.StrEqImpliesStrCaseEq | picotest.h:400-413 | strings equal under `strcmp` are equal under `_stricmp` |
| Comparators.StrCaseEqExample | picotest.h:400-413 | `"FOO"` and `"foo"` differ under `STREQ` but match under `STRCASEEQ` |
| Steps.PassesAsWrittenFlipsNe | picotest.h:394-398 | with the comparators as written, an assertion step has the same outcome as with the corrected ones, except an `NE` check, whose outcome is reversed |
| Steps.ExpectNeAsWritten | picotest.h:394-398 | as written, `EXPECT_BINARY(0, 1, NE)` fails and records the message `Expected:0 != 1, Actual:0 != 1`, while the corrected check passes |
| Steps.ExpectNeTexts | picotest.h:499 | for `EXPECT_BINARY(0, 1, NE)`, the condition text and the actual text are both `0 != 1` |
| Steps.CondTextReadsBack | picotest.h:498-499 | the expected text reads back as the left operand text, the comparator's symbol (`EQ`'s for boolean checks) and the right operand text, whenever the left operand text holds no space |
| Steps.ActualText | picotest.h:266-271 | the actual text of a boolean check is `true` or `false`, and it is `true` exactly when the checked value is true |
| Steps.ActualTextReadsBack | picotest.h:275-286 | the actual text of an integer check reads back as the comparator's symbol and two numerals whose values are the operands; that of a string check, as the two C strings, when the left one holds no space |
| Steps.ExecutedSteps | picotest.h:516-528 | the steps that run form a prefix of the body; none but the last of them is a failed `ASSERT_*`; if the prefix is shorter than the body, its last step is a failed `ASSERT_*` |
| Steps.FailuresOf | picotest.h:266-286 | a run of steps records no failure exactly when every check passes, and at most one failure per step |
| Steps.FailuresOfSnoc | picotest.h:266-286 | the failures of a run with one more step are those of the run before it, followed by whatever that step records |
| Steps.StopBoundsExecution | picotest.h:523-528 | a failing `ASSERT_*` at position k means at most k+1 steps of the body run |
| Steps.StopIgnoresRest | picotest.h:523-528 | after a failing `ASSERT_*`, whatever follows in the body is not executed |
| Steps.NonFatalBodyRunsToEnd | picotest.h:498-511 | a body of `EXPECT_*` assertions only runs every step and records a failure for each failing one |
| Steps.FailuresEndAtStop | picotest.h:516-528 | when the first stopping step is k, exactly steps 0..k run, and the last failure recorded is step k's |
| Steps.ExecutedUpToStop | picotest.h:523-528 | when step k is the first failed `ASSERT_*`, exactly the steps 0..k run |
| Steps.LastFailureIsLastStep | picotest.h:266-286 | when the last step that runs fails, its failure is the last one recorded |
| Steps.EmptyBodyRecordsNothing | picotest.h:103-107 | a test function with no assertion records no failure |
| Tests.FirstUnsuccessful | picotest.h:164 | the search stops at the first unsuccessful test; every earlier test succeeded |
| Tests.CaseSuccess | picotest.h:161-168 | a case succeeds exactly when it was executed and every one of its tests was executed with no failure |
| Tests.UpdateTest | picotest.h:117-119 | replacing one test keeps the registry's shape, puts the new test at that position, and changes no other test or case |
| Tests.SetFailure | picotest.h:117-119 | `setFailure` makes the test unsuccessful, keeps the earlier failures in front and adds exactly one after them, with the given file and line and the message `Expected:<expected>, Actual:<actual>` (`FailureMessage`), which reads back as the given expected and actual texts when the expected text holds no `, Actual:`; name, body and executed flag are kept |
| Tests.AppendFailures | picotest.h:117-119 | appending failures to one test puts them after that test's existing failures, keeps its name, body and executed flag, and leaves every other test and case, and the case's name and flag, unchanged |
| Tests.AppendFailuresTwice | picotest.h:117-119 | appending two batches of failures one after the other equals appending their concatenation |
| Tests.AppendNoFailures | picotest.h:117-119 | appending no failures changes nothing |
| Tests.UpdateTestTwice | picotest.h:117-119 | a second update at the same position overrides the first |
| Registration.FindByName | picotest.h:231-236 | `find_by_name` returns the first case with the name, or nothing exactly when no case has the name |
| Registration.AddTest | picotest.h:141-143 | `TestCase::add` puts the test after the existing ones, keeps name and executed flag, and the case then succeeds exactly when it succeeded before and the new test succeeds |
| Registration.Add | picotest.h:187-195 | registering under an unseen case name appends a new unexecuted case holding just the test; under a known name, the test is appended to the first case with that name and no other case changes |
| Registration.AddKeepsNamesUnique | picotest.h:187-195 | registration keeps case names distinct; the names list grows by the new name only when it was unseen |
| Registration.Dedup | picotest.h:187-193 | the first-occurrence list has the same names as its input, with no repetition |
| Registration.TestsForAbsent | picotest.h:187-195 | a name never registered has no tests |
| Registration.RegistrationSnoc | picotest.h:242-246 | one more registration is one more `Registry::add` on the registry built so far |
| Registration.RegisterAll | picotest.h:242-246 | static registration builds at most one case per registration, none executed, each holding at least one test |
| Registration.DedupSnoc | picotest.h:190-193 | a further name is appended to the first-occurrence list only when it is new |
| Registration.GroupedByStep | picotest.h:187-195 | one `Registry::add` keeps the registry grouped by case: unique names in first-registration order, each case holding its tests in registration order |
| Registration.GroupedByStepSeen | picotest.h:188-194 | registering under a known name appends the test to that case only, so every case still holds exactly its registered tests |
| Registration.GroupedByStepUnseen | picotest.h:190-194 | registering under a new name adds a case holding just that test, and the other cases keep their tests |
| Registration.RegisterAllGroupsByCase | picotest.h:187-195 | after any sequence of registrations, the cases appear in order of first registration, names are unique, each case holds exactly its tests in registration order, and nothing has run |
| Assertions.SameShapeKeepsContextValid | picotest.h:76-85 | a current-test pointer stays valid across changes that keep the registry's shape |
| Assertions.FailCurrent | picotest.h:268-270 | with no current test the process aborts; otherwise one failure is appended to the current test |
| Assertions.AssertBool | picotest.h:266-273 | the result is whether expected equals actual; a match changes nothing; a mismatch appends one failure whose actual text is `true`/`false`, or aborts when there is no current test |
| Assertions.AssertBinary | picotest.h:275-286 | the result is whether the comparator holds; a pass changes nothing; a failure appends one failure whose actual text is `v1 <op> v2`, or aborts when there is no current test |
| Assertions.EvalStep | picotest.h:498-528 | one assertion step passes exactly when its check holds, and on failure records that step's failure |
| Assertions.BodyFailuresCons | picotest.h:516-528 | the failures of a body are the first step's failure (if any), then, unless that step was a failed `ASSERT_*`, the failures of the rest |
| Assertions.RunBody | picotest.h:103-107 | running a body with a current test always returns and keeps the registry's shape; with no current test, a body that returns leaves the registry unchanged |
| Assertions.RunBodyRecordsBodyFailures | picotest.h:103-107 | running a body appends to the current test exactly the failures of the steps that executed, in order |
| Assertions.RunBodyWithoutTestAborts | picotest.h:268-282 | with no current test, running a body aborts exactly when some executed step fails |
| Assertions.FailuresStayWithCurrentTest | picotest.h:268-283 | running a body changes no test other than the current one |
| Assertions.FatalFailureEndsBody | picotest.h:523-528 | after a failed `ASSERT_*`, the rest of the body does not affect the outcome |
| Assertions.PassingBodyNeedsNoContext | picotest.h:266-286 | a body whose checks all pass never consults the current test and changes nothing |
| Execution.RanTests | picotest.h:148 | running a sequence of tests runs each test as `RanTest` describes, keeping their number and order |
| Execution.RanTestSucceedsIff | picotest.h:113-115 | after its run, a test succeeds exactly when it had no earlier failure and every assertion that ran in its body passed |
| Execution.TestInvocations | picotest.h:148 | a case's tests are invoked once each, in order, named by case and test |
| Execution.RunFrom | picotest.h:148 | running the tests from position j on runs each of them as `RanTest` describes and leaves the earlier ones untouched |
| Execution.ExecuteTest | picotest.h:103-107 | `Test::execute` makes the test current, appends its body's failures, marks it executed, and leaves every other test and case as it was |
| Execution.RunTests | picotest.h:148 | the tests of a case from position j on run in order; earlier tests and other cases are unchanged |
| Execution.ExecuteCase | picotest.h:145-151 | `TestCase::execute` makes the case current, runs every test in order, marks the case executed, and changes no other case |
| Execution.RunCases | picotest.h:197-199 | the cases from position i on run in order; earlier cases are unchanged |
| Execution.TestRun | picotest.h:197-199 | `testRun` leaves every case run and executed, and invokes every test function once, case after case, in registry order |
| Counting.CountSuccess | picotest.h:222-224 | the number of successful cases is at most the number of cases, and equal to it exactly when every case succeeds |
| Counting.CountsPartition | picotest.h:218-224 | every case counts once, as a success or as a failure |
| Counting.NumTotal | picotest.h:226-228 | the total is the number of successful cases plus the number of unsuccessful ones |
| Counting.NumSuccess | picotest.h:222-224 | the success count lies between zero and the total |
| Counting.NumFailed | picotest.h:218-220 | total minus successes is the number of unsuccessful cases |
| Counting.Fail | picotest.h:214-216 | `fail` holds exactly when some case is unsuccessful |
| Counting.EmptyRegistryDoesNotFail | picotest.h:214-216 | an empty registry has no cases and does not fail |
| Reporting.FailureLine | picotest.h:126-128 | a failure line is the test name and ` : `, the file, `(`, the decimal line number and `): error: `, then the message and a newline, each part at its own position |
| Reporting.TestReport | picotest.h:121-124 | a test's failure report is empty exactly when it has no failure; otherwise it starts with the test name and ` : ` and ends with a newline |
| Reporting.CaseReport | picotest.h:153-159 | a case report starts with the line `[ FAILED ] <case name>` |
| Reporting.FailedCases | picotest.h:207-208 | the reported cases are exactly the unsuccessful ones, and there are `numFailed` of them |
| Reporting.FailedCasesAppend | picotest.h:207-208 | the failing cases of two consecutive groups of cases are those of the first group followed by those of the second, so the report keeps registry order |
| Reporting.SummaryLine | picotest.h:202-211 | the summary is one line, starting with the number of failed cases when some case failed, else with the number of successful cases |
| Reporting.Report | picotest.h:201-212 | when some case fails, the report is `<failed> of <total> tests failed.` and then each failing case's report; otherwise it is `<total>tests success.` |
| Reporting.FailureLineIsOneLine | picotest.h:126-128 | when the test name, file and message hold no newline, each failure is reported on exactly one line |
| Reporting.TestReportLineCount | picotest.h:121-124 | a test's failure report has one line per recorded failure |
| Reporting.FailedTestsReportLineCount | picotest.h:157-158 | the failing tests of a case report one line per failure of each of them |
| Reporting.CaseReportLineCount | picotest.h:153-159 | a case report is its header line and then one line per failure of each failing test |
| Reporting.CaseReportsLineCount | picotest.h:207-208 | the reports of a list of cases take one header line per case plus one line per failure of each failing test |
| Reporting.SummaryLineCount | picotest.h:205-210 | the summary takes exactly one line |
| Reporting.ReportLineCount | picotest.h:201-212 | when no name, file or message holds a newline, the report has the summary line, then for each failing case its header line and one line per failure of each failing test |
| RunAll.RunAllTests | picotest.h:545-548 | the value `fail()` computes after the run, which the macro discards, holds exactly when some test records a failure during the run; the registry after the run holds every case as it ends its run (`RanCase`), and the output is the report of that registry |
| RunAll.RanCaseFails | picotest.h:161-168 | after its run, a case is unsuccessful exactly when one of its tests recorded a failure |
| RunAll.RunFailsIff | picotest.h:214-216 | after the run, `fail` holds exactly when some test recorded a failure |
| RunAll.TestRunExecutesEverything | picotest.h:197-199 | after the run every case and every test is executed, and all names are kept |
| RunAll.EmptyBodySucceeds | picotest.h:113-115 | a test with no assertions and no earlier failures succeeds after the run |
| RunAll.InvocationsOfGrouped | picotest.h:197-199 | the invocations of cases holding each name's registered tests are those tests, name by name |
| RunAll.RegisteredRunOrder | picotest.h:187-199 | test functions are invoked grouped by case, cases in first-registration order, and tests in registration order within a case |
| RunAll.FailingEqFailure | picotest.h:276-286 | `EXPECT_EQ(3, 1+1)` at `m.x:10` produces the message `Expected:3 == 1+1, Actual:3 == 2` |
| RunAll.FailingEqTexts | picotest.h:499 | for `EXPECT_EQ(3, 1+1)`, the condition text is `3 == 1+1` and the actual text is `3 == 2` |
| RunAll.FailingEqMessageText | picotest.h:88-89 | the message for those two texts is `Expected:3 == 1+1, Actual:3 == 2` |
| RunAll.FailingEqMessage | picotest.h:498-503 | a body holding only `EXPECT_EQ(3, 1+1)` records exactly that one failure |
| RunAll.FatalScenario | picotest.h:523-532 | in `ASSERT_EQ(1,1); ASSERT_EQ(5,2); ASSERT_EQ(9,9)` the third assertion never runs, and one failure is recorded, from line 2 |
| RunAll.ThreeRegistrationsNames | picotest.h:187-193 | registering under `A`, `B`, `A` gives the case list `A`, `B` |
| RunAll.ThreeRegistrationsTests | picotest.h:187-195 | registering `A.t1`, `B.t1`, `A.t2` gives case `A` the tests `t1`, `t2`, and case `B` the test `t1` |
| RunAll.ThreeRegistrationsInvocations | picotest.h:197-199 | the grouped invocations for `A`, `B` are `A.t1`, `A.t2`, `B.t1` |
| RunAll.RegistrationOrderScenario | picotest.h:187-199 | registering `A.t1`, `B.t1`, `A.t2` gives cases `A`, `B`, and runs `A.t1`, `A.t2`, `B.t1` |

## Left out

- Coloured output (`coloredPrint`, the Windows console calls at picotest.h:289-322): the `[ FAILED ] ` prefix is plain text in the report. The source prints it to standard output, not to the report's stream; the model places it in the report text.
- The `operator<<` fallback that prints `(<n>-byte object)`, and `has_insertion_op` (picotest.h:66-71, 324-346): these concern printing arbitrary C++ types. Operands here are integers, booleans and strings, or are rendered by a caller-supplied function in `Assertions.AssertBinary`.
- The singletons `TestState` and `Registry::getInstance`, and the static `Registrar` objects: the registry and the current context are explicit values. Static registration is a sequence of registrations, folded by `Registration.RegisterAll`.
- The macro surface (`TEST`, `TEST_F`, the name-joining helpers) and test functions as function pointers: a test body is the sequence of assertion steps it performs. Control flow inside a test other than `ASSERT_*`'s early return is not modelled.
- `testing::Test` fixtures with `SetUp`/`TearDown` (picotest.h:424-441): fixtures run user code, which is outside the model.
- Relational comparators on operands other than integers, and `EXPECT_EQ` on pointers, which compares addresses: the relational comparators are modelled on unbounded integers only.
- Counting.NumFailed: does not model 32-bit `int` overflow of the counts, because the number of cases is unbounded here.
- Assertions.FailCurrent: the `NDEBUG` build, where `assert(current)` is compiled out and a null current test is dereferenced, is modelled as the same abort as the checked build, because the behaviour is undefined.
- Assertions.RunBody: its contract states only shape and no-change facts. The exact effect is stated by `Assertions.RunBodyRecordsBodyFailures` and `Assertions.RunBodyWithoutTestAborts`.
- The default `TestCase()` constructor (picotest.h:138), which leaves `executed_` uninitialised: every case the model builds goes through the named constructor.
- Steps.Passes: uses the corrected `NE`, so the assertion engine, the execution harness and the counts describe the header with `NE` fixed. The as-written step outcome is `Steps.PassesAsWritten`; `Steps.PassesAsWrittenFlipsNe` states that it differs exactly on `NE` checks, and `Steps.ExpectNeAsWritten` shows the message the as-written header records for `EXPECT_BINARY(0, 1, NE)`.
- `Failure()`'s default constructor (picotest.h:91): every failure is built with a file, line and message.

## Findings

| source | as written | input that shows it | evidently intended | confidence | as-written member | corrected member |
|---|---|---|---|---|---|---|
| picotest.h:394-398 | the `NE` comparator returns `v1 == v2`, while it prints `!=` | `EXPECT_BINARY(0, 1, NE)` fails with `Actual:0 != 1`; `EXPECT_BINARY(1, 1, NE)` passes; the header names no `EXPECT_NE` or `ASSERT_NE` macro, so only code that spells out `EXPECT_BINARY`/`ASSERT_BINARY` with `NE` meets the bug | `NE` holds exactly when `v1 != v2` | high; not executed | Steps.ExpectNeAsWritten | Comparators.NeIsNotEq |
