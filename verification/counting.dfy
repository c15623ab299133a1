/**
  `Registry::numSuccess`, `numFailed`, `numTotal` and `fail`. Counting is at
  test-case granularity: a case with any unsuccessful test counts once.
 */
module Counting {
  import opened Tests

  /** `count_if(..., TestCase::success)`. */
  function CountSuccess(cs: seq<TestCase>): (n: nat)
    ensures n <= |cs|
    ensures n == |cs| <==> forall i :: 0 <= i < |cs| ==> CaseSuccess(cs[i])
  {
    if |cs| == 0 then 0
    else (if CaseSuccess(cs[0]) then 1 else 0) + CountSuccess(cs[1..])
  }

  /** Reference count of the unsuccessful cases. */
  function CountFailed(cs: seq<TestCase>): nat {
    if |cs| == 0 then 0
    else (if CaseSuccess(cs[0]) then 0 else 1) + CountFailed(cs[1..])
  }

  /** Every case is counted exactly once, as a success or as a failure. */
  lemma {:induction false} CountsPartition(cs: seq<TestCase>)
    ensures CountSuccess(cs) + CountFailed(cs) == |cs|
  {
    if |cs| > 0 {
      CountsPartition(cs[1..]);
    }
  }

  /** `numTotal`: the number of cases, each of which is either a success or a failure. */
  function NumTotal(reg: Registry): (n: int)
    ensures n == CountSuccess(reg.cases) + CountFailed(reg.cases)
  {
    CountsPartition(reg.cases);
    |reg.cases|
  }

  /** `numSuccess`: the number of successful cases, never more than the total. */
  function NumSuccess(reg: Registry): (n: int)
    ensures 0 <= n <= NumTotal(reg)
  {
    CountSuccess(reg.cases)
  }

  /** `numFailed`: total minus successes, which is the number of unsuccessful cases. */
  function NumFailed(reg: Registry): (n: int)
    ensures n == CountFailed(reg.cases)
    ensures 0 <= n <= NumTotal(reg)
  {
    CountsPartition(reg.cases);
    NumTotal(reg) - NumSuccess(reg)
  }

  /** `fail`: true iff there is a case and some case is unsuccessful. */
  predicate Fail(reg: Registry)
    ensures Fail(reg) <==> exists i :: 0 <= i < |reg.cases| && !CaseSuccess(reg.cases[i])
  {
    NumTotal(reg) > 0 && NumFailed(reg) > 0
  }

  /** An empty registry does not fail. */
  lemma EmptyRegistryDoesNotFail()
    ensures !Fail(EmptyRegistry()) && NumTotal(EmptyRegistry()) == 0
  {
  }
}
