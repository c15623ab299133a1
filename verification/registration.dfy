/**
  `Registry::add` and `find_by_name`: tests are grouped by case name, cases
  keep first-registration order, tests keep registration order within their
  case.
 */
module Registration {
  import opened Tests

  /** `find_by_name`: the position of the first case with this name, if any. */
  function FindByName(cases: seq<TestCase>, name: string): (r: Option<nat>)
    ensures r.Some? ==> r.value < |cases| && cases[r.value].name == name
    ensures r.Some? ==> forall k :: 0 <= k < r.value ==> cases[k].name != name
    ensures r.None? <==> forall k :: 0 <= k < |cases| ==> cases[k].name != name
  {
    if |cases| == 0 then None
    else if cases[0].name == name then Some(0)
    else match FindByName(cases[1..], name)
      case None => None
      case Some(k) => Some(k + 1)
  }

  /**
    `TestCase::add`: the test goes to the end of the case, after the tests
    already there. The case then succeeds exactly when it succeeded before
    and the new test succeeds.
   */
  function AddTest(c: TestCase, t: Test): (r: TestCase)
    ensures r.name == c.name && r.executed == c.executed
    ensures |r.tests| == |c.tests| + 1 && r.tests[..|c.tests|] == c.tests && r.tests[|c.tests|] == t
    ensures CaseSuccess(r) <==> CaseSuccess(c) && TestSuccess(t)
  {
    var r := c.(tests := c.tests + [t]);
    assert AllTestsSucceed(r) <==> AllTestsSucceed(c) && TestSuccess(t) by {
      assert forall j :: 0 <= j < |c.tests| ==> r.tests[j] == c.tests[j];
      assert r.tests[|c.tests|] == t;
      if AllTestsSucceed(r) {
        assert TestSuccess(r.tests[|c.tests|]);
      }
    }
    r
  }

  /**
    `Registry::add`: an unseen name appends a new case holding just this
    test; a seen name appends the test to the first case of that name. No
    other case changes.
   */
  function Add(reg: Registry, caseName: string, t: Test): (r: Registry)
    ensures caseName !in Names(reg) ==>
              r.cases == reg.cases + [TestCase(caseName, [t], false)]
    ensures forall k :: 0 <= k < |reg.cases| && reg.cases[k].name == caseName
                        && (forall m :: 0 <= m < k ==> reg.cases[m].name != caseName) ==>
              r.cases == reg.cases[k := reg.cases[k].(tests := reg.cases[k].tests + [t])]
  {
    match FindByName(reg.cases, caseName)
    case Some(k) => Registry(reg.cases[k := AddTest(reg.cases[k], t)])
    case None =>
      var reg1 := Registry(reg.cases + [NewTestCase(caseName)]);
      assert reg1.cases[|reg.cases|].name == caseName;
      var found := FindByName(reg1.cases, caseName).value;
      assert found == |reg.cases|;
      assert [] + [t] == [t];
      assert AddTest(reg1.cases[found], t) == TestCase(caseName, [t], false);
      Registry(reg1.cases[found := AddTest(reg1.cases[found], t)])
  }

  /** Registration keeps case names unique. */
  lemma AddKeepsNamesUnique(reg: Registry, caseName: string, t: Test)
    requires UniqueNames(reg)
    ensures UniqueNames(Add(reg, caseName, t))
    ensures Names(Add(reg, caseName, t)) ==
              if caseName in Names(reg) then Names(reg) else Names(reg) + [caseName]
  {
    var r := Add(reg, caseName, t);
    if caseName in Names(reg) {
      var k :| 0 <= k < |reg.cases| && Names(reg)[k] == caseName;
      var f := FindByName(reg.cases, caseName).value;
      assert r.cases == reg.cases[f := reg.cases[f].(tests := reg.cases[f].tests + [t])];
      assert Names(r) == Names(reg);
    } else {
      assert Names(r) == Names(reg) + [caseName];
    }
  }

  /** One `Registrar` per test, in static-initialisation order. */
  datatype Registration = Registration(caseName: string, test: Test)

  /**
    The registry after a sequence of registrations, starting from the empty
    one: at most one case per registration, none executed yet, and each
    holding at least one test.
   */
  function RegisterAll(rs: seq<Registration>): (r: Registry)
    ensures |r.cases| <= |rs|
    ensures forall i :: 0 <= i < |r.cases| ==> !r.cases[i].executed && |r.cases[i].tests| > 0
  {
    if |rs| == 0 then EmptyRegistry()
    else
      var last := rs[|rs| - 1];
      var reg := RegisterAll(rs[..|rs| - 1]);
      AddKeepsCasesFresh(reg, last.caseName, last.test);
      Add(reg, last.caseName, last.test)
  }

  /** One registration adds at most one case and keeps every case unexecuted and nonempty. */
  lemma AddKeepsCasesFresh(reg: Registry, caseName: string, t: Test)
    requires forall i :: 0 <= i < |reg.cases| ==> !reg.cases[i].executed && |reg.cases[i].tests| > 0
    ensures var r := Add(reg, caseName, t);
            && |r.cases| <= |reg.cases| + 1
            && forall i :: 0 <= i < |r.cases| ==> !r.cases[i].executed && |r.cases[i].tests| > 0
  {
    match FindByName(reg.cases, caseName)
    case Some(k) =>
    case None =>
  }

  function CaseNames(rs: seq<Registration>): (ns: seq<string>)
    ensures |ns| == |rs|
    ensures forall i :: 0 <= i < |rs| ==> ns[i] == rs[i].caseName
  {
    seq(|rs|, i requires 0 <= i < |rs| => rs[i].caseName)
  }

  /** The names of a sequence, each kept at its first occurrence only. */
  function Dedup(ns: seq<string>): (d: seq<string>)
    ensures forall x :: x in d <==> x in ns
    ensures forall i, j :: 0 <= i < j < |d| ==> d[i] != d[j]
  {
    if |ns| == 0 then []
    else
      var d := Dedup(ns[..|ns| - 1]);
      if ns[|ns| - 1] in d then d else d + [ns[|ns| - 1]]
  }

  /** The tests registered under `name`, in registration order. */
  function TestsFor(rs: seq<Registration>, name: string): seq<Test>
  {
    if |rs| == 0 then []
    else
      var pre := TestsFor(rs[..|rs| - 1], name);
      if rs[|rs| - 1].caseName == name then pre + [rs[|rs| - 1].test] else pre
  }

  lemma {:induction false} TestsForAbsent(rs: seq<Registration>, name: string)
    requires name !in CaseNames(rs)
    ensures TestsFor(rs, name) == []
  {
    if |rs| > 0 {
      assert CaseNames(rs[..|rs| - 1]) == CaseNames(rs)[..|rs| - 1];
      TestsForAbsent(rs[..|rs| - 1], name);
    }
  }

  lemma RegistrationSnoc(rs: seq<Registration>, x: Registration)
    ensures RegisterAll(rs + [x]) == Add(RegisterAll(rs), x.caseName, x.test)
    ensures CaseNames(rs + [x]) == CaseNames(rs) + [x.caseName]
    ensures forall name :: TestsFor(rs + [x], name) ==
              if x.caseName == name then TestsFor(rs, name) + [x.test] else TestsFor(rs, name)
  {
    assert (rs + [x])[..|rs|] == rs;
  }

  lemma DedupSnoc(ns: seq<string>, n: string)
    ensures Dedup(ns + [n]) == if n in Dedup(ns) then Dedup(ns) else Dedup(ns) + [n]
  {
    assert (ns + [n])[..|ns|] == ns;
  }

  /** The registry `reg` is what registering `rs` should give. */
  predicate GroupedBy(reg: Registry, rs: seq<Registration>) {
    && Names(reg) == Dedup(CaseNames(rs))
    && UniqueNames(reg)
    && forall k :: 0 <= k < |reg.cases| ==>
         reg.cases[k].tests == TestsFor(rs, reg.cases[k].name) && !reg.cases[k].executed
  }

  /** Registering under a known case name keeps the registry grouped. */
  lemma GroupedByStepSeen(reg: Registry, rs: seq<Registration>, x: Registration)
    requires GroupedBy(reg, rs) && x.caseName in Names(reg)
    ensures forall k :: 0 <= k < |Add(reg, x.caseName, x.test).cases| ==>
              var c := Add(reg, x.caseName, x.test).cases[k];
              c.tests == TestsFor(rs + [x], c.name) && !c.executed
  {
    var r := Add(reg, x.caseName, x.test);
    RegistrationSnoc(rs, x);
    var f := FindByName(reg.cases, x.caseName).value;
    assert r.cases == reg.cases[f := reg.cases[f].(tests := reg.cases[f].tests + [x.test])];
    forall k | 0 <= k < |r.cases|
      ensures r.cases[k].tests == TestsFor(rs + [x], r.cases[k].name) && !r.cases[k].executed
    {
      if k != f {
        assert reg.cases[k].name != x.caseName;
      }
    }
  }

  /** Registering under a new case name keeps the registry grouped. */
  lemma GroupedByStepUnseen(reg: Registry, rs: seq<Registration>, x: Registration)
    requires GroupedBy(reg, rs) && x.caseName !in Names(reg)
    ensures forall k :: 0 <= k < |Add(reg, x.caseName, x.test).cases| ==>
              var c := Add(reg, x.caseName, x.test).cases[k];
              c.tests == TestsFor(rs + [x], c.name) && !c.executed
  {
    var r := Add(reg, x.caseName, x.test);
    RegistrationSnoc(rs, x);
    assert x.caseName !in CaseNames(rs);
    TestsForAbsent(rs, x.caseName);
    assert r.cases == reg.cases + [TestCase(x.caseName, [x.test], false)];
    forall k | 0 <= k < |r.cases|
      ensures r.cases[k].tests == TestsFor(rs + [x], r.cases[k].name) && !r.cases[k].executed
    {
      if k < |reg.cases| {
        assert reg.cases[k].name in Names(reg);
      }
    }
  }

  /** One more registration keeps the registry grouped by case. */
  lemma GroupedByStep(reg: Registry, rs: seq<Registration>, x: Registration)
    requires GroupedBy(reg, rs)
    ensures GroupedBy(Add(reg, x.caseName, x.test), rs + [x])
  {
    RegistrationSnoc(rs, x);
    DedupSnoc(CaseNames(rs), x.caseName);
    AddKeepsNamesUnique(reg, x.caseName, x.test);
    if x.caseName in Names(reg) {
      GroupedByStepSeen(reg, rs, x);
    } else {
      GroupedByStepUnseen(reg, rs, x);
    }
  }

  /**
    Registering any sequence of tests yields one case per distinct case
    name, in order of first registration, each holding exactly the tests
    registered under its name, in registration order, none executed.
   */
  lemma {:induction false} RegisterAllGroupsByCase(rs: seq<Registration>)
    ensures GroupedBy(RegisterAll(rs), rs)
  {
    if |rs| > 0 {
      var pre := rs[..|rs| - 1];
      var last := rs[|rs| - 1];
      assert rs == pre + [last];
      RegisterAllGroupsByCase(pre);
      GroupedByStep(RegisterAll(pre), pre, last);
      RegistrationSnoc(pre, last);
    }
  }
}
