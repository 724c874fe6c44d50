/** `ls_test_main`: scan the options, invoke the registered tests in
    registration order (stopping after the first test that returns non-zero
    when `--failfast` was given), report the totals and derive the exit
    status from the failure counter. */
module Runner {
  import opened Assertions
  import opened TestCase
  import opened Registration
  import opened Options

  /** What a run of the registry does: how many tests were invoked (always
      the first `invoked` ones) and the typed assertions they passed and
      failed. */
  datatype Totals = Totals(invoked: nat, passed: nat, failed: nat)

  /** The summary line "<ok> succeeded, <fail> failed, <total> total". */
  datatype Summary = Summary(succeeded: nat, failed: nat, total: nat)

  /** The effect of the runner loop over the tests `ids`, each test behaving
      as `behaviour` says. */
  function RunTests(ids: seq<TestId>, behaviour: TestId -> TestBody, failfast: bool): (t: Totals)
    ensures t.invoked <= |ids|
    ensures t.failed <= t.invoked
  {
    if ids == [] then Totals(0, 0, 0)
    else
      var o := Effect(behaviour(ids[0]));
      if o.status != 0 && failfast then Totals(1, o.passed, o.failed)
      else
        var t := RunTests(ids[1..], behaviour, failfast);
        Totals(t.invoked + 1, t.passed + o.passed, t.failed + o.failed)
  }

  /** Without `--failfast` every registered test is invoked. */
  lemma {:induction false} AllInvokedWithoutFailfast(ids: seq<TestId>, behaviour: TestId -> TestBody)
    ensures RunTests(ids, behaviour, false).invoked == |ids|
  {
    if ids != [] {
      AllInvokedWithoutFailfast(ids[1..], behaviour);
    }
  }

  /** With `--failfast` the run stops right after the first test that returns
      non-zero: every test invoked before the last one returned 0, and when
      tests are left over, the last one invoked returned non-zero. */
  lemma {:induction false} FailfastStopsAfterFirstFailure(ids: seq<TestId>, behaviour: TestId -> TestBody)
    ensures var t := RunTests(ids, behaviour, true);
      && (forall j :: 0 <= j < t.invoked - 1 ==> Effect(behaviour(ids[j])).status == 0)
      && (t.invoked < |ids| ==> 0 < t.invoked && Effect(behaviour(ids[t.invoked - 1])).status != 0)
  {
    if ids != [] && Effect(behaviour(ids[0])).status == 0 {
      var rest := ids[1..];
      FailfastStopsAfterFirstFailure(rest, behaviour);
      assert forall j :: 1 <= j < |ids| ==> ids[j] == rest[j - 1];
    }
  }

  /** The totals of a failfast run are those of running, without failfast,
      exactly the tests it invoked. */
  lemma {:induction false} FailfastRunsAPrefix(ids: seq<TestId>, behaviour: TestId -> TestBody)
    ensures var t := RunTests(ids, behaviour, true);
      RunTests(ids[..t.invoked], behaviour, false) == t
  {
    if ids != [] {
      var t := RunTests(ids, behaviour, true);
      var o := Effect(behaviour(ids[0]));
      if o.status != 0 {
        assert ids[..1][1..] == [];
      } else {
        FailfastRunsAPrefix(ids[1..], behaviour);
        assert ids[..t.invoked][1..] == ids[1..][..t.invoked - 1];
      }
    }
  }

  /** When every test returns 0, `--failfast` changes nothing. */
  lemma {:induction false} FailfastWithoutFailures(ids: seq<TestId>, behaviour: TestId -> TestBody)
    requires forall j :: 0 <= j < |ids| ==> Effect(behaviour(ids[j])).status == 0
    ensures RunTests(ids, behaviour, true) == RunTests(ids, behaviour, false)
  {
    if ids != [] {
      assert Effect(behaviour(ids[0])).status == 0;
      var rest := ids[1..];
      assert forall j :: 0 <= j < |rest| ==> rest[j] == ids[j + 1];
      FailfastWithoutFailures(rest, behaviour);
    }
  }

  /** Tests A (one failing typed assertion) and B (one passing one), in this
      order: without failfast both run, "1 succeeded, 1 failed"; with it B
      is never invoked. */
  lemma FailfastExample()
    ensures var behaviour := (id: TestId) =>
        if id == 0 then TestBody("lst_t_a", [Compare(Eq, 1, 2)], 0)
        else TestBody("lst_t_b", [Compare(Eq, 1, 1)], 0);
      && RunTests([0, 1], behaviour, false) == Totals(2, 1, 1)
      && RunTests([0, 1], behaviour, true) == Totals(1, 0, 1)
  {
  }

  /** The second loop of `ls_test_main`: invoke `lst_funcs[0..lst_n)` in
      index order; when failfast is set, a non-zero return ends the loop
      (the `goto end`). `invoked` lists the tests called, in call order. */
  method RunRegistered(reg: Registry, behaviour: TestId -> TestBody, failfast: bool, c: Counters)
    returns (ghost invoked: seq<TestId>)
    requires reg.Valid()
    modifies c
    ensures var t := RunTests(reg.Tests, behaviour, failfast);
      && invoked == reg.Tests[..t.invoked]
      && c.ok == old(c.ok) + t.passed
      && c.fail == old(c.fail) + t.failed
  {
    ghost var tests := reg.Tests;
    ghost var passed: nat, failed: nat := 0, 0;
    invoked := [];
    var i := 0;
    while i < reg.n
      invariant 0 <= i <= reg.n
      invariant invoked == tests[..i]
      invariant c.ok == old(c.ok) + passed && c.fail == old(c.fail) + failed
      invariant RunTests(tests, behaviour, failfast) ==
        var t := RunTests(tests[i..], behaviour, failfast);
        Totals(i + t.invoked, passed + t.passed, failed + t.failed)
    {
      var test := reg.funcs[i];
      assert test == tests[i] && tests[i..][1..] == tests[i + 1..];
      var status := Invoke(behaviour(test), c);
      invoked := invoked + [test];
      passed, failed := passed + Effect(behaviour(test)).passed, failed + Effect(behaviour(test)).failed;
      if status != 0 && failfast {
        assert invoked == tests[..i + 1];
        break;
      }
      i := i + 1;
    }
  }

  /** `ls_test_main(argc, argv)`. On `--help` or an unknown argument it
      returns 0 or 1 before any test runs and without a summary. Otherwise it
      runs the registry, prints the summary, whose total counts assertions,
      and returns 0 exactly when no typed assertion has failed. */
  method TestMain(argv: seq<string>, reg: Registry, behaviour: TestId -> TestBody, c: Counters)
    returns (status: int, summary: Option<Summary>, ghost invoked: seq<TestId>)
    requires reg.Valid()
    modifies c
    ensures var scan := Scan(ProgramArgs(argv), false);
      scan.Exit? ==>
        && status == scan.status
        && summary == None
        && invoked == []
        && c.ok == old(c.ok) && c.fail == old(c.fail)
    ensures var scan := Scan(ProgramArgs(argv), false);
      scan.Proceed? ==>
        var t := RunTests(reg.Tests, behaviour, scan.failfast);
        && invoked == reg.Tests[..t.invoked]
        && c.ok == old(c.ok) + t.passed
        && c.fail == old(c.fail) + t.failed
        && summary == Some(Summary(c.ok, c.fail, c.ok + c.fail))
        && (status == 0 || status == 1)
        && (status == 0 <==> c.fail == 0)
  {
    var scan := ParseOptions(argv);
    if scan.Exit? {
      return scan.status, None, [];
    }
    invoked := RunRegistered(reg, behaviour, scan.failfast, c);
    summary := Some(Summary(c.ok, c.fail, c.ok + c.fail));
    if c.fail > 0 {
      return 1, summary, invoked;
    }
    return 0, summary, invoked;
  }

  /** The whole program: the load-time registration of `tests` (in the
      order their constructors run), then `main`. Counters start at zero,
      so the summary shows the totals of the run itself, and the exit
      status is 0 when no typed assertion of an invoked test failed and 1
      otherwise. */
  method RunProgram(argv: seq<string>, tests: seq<TestId>, behaviour: TestId -> TestBody)
    returns (status: int, summary: Option<Summary>)
    ensures var scan := Scan(ProgramArgs(argv), false);
      scan.Exit? ==> status == scan.status && summary == None
    ensures var scan := Scan(ProgramArgs(argv), false);
      scan.Proceed? ==>
        var t := RunTests(tests, behaviour, scan.failfast);
        && summary == Some(Summary(t.passed, t.failed, t.passed + t.failed))
        && status == (if t.failed == 0 then 0 else 1)
  {
    var reg := new Registry();
    for k := 0 to |tests|
      invariant reg.Valid() && fresh(reg) && fresh(reg.funcs)
      invariant reg.Tests == tests[..k]
    {
      reg.Register(tests[k]);
    }
    assert reg.Tests == tests;
    var c := new Counters();
    ghost var invoked;
    status, summary, invoked := TestMain(argv, reg, behaviour, c);
  }

  /** Three tests, each with one passing typed assertion: "3 succeeded,
      0 failed, 3 total" and exit status 0. */
  lemma AllPassExample()
    ensures var behaviour := (id: TestId) => TestBody("lst_t_ok", [Compare(Le, id, id)], 0);
      RunTests([0, 1, 2], behaviour, false) == Totals(3, 3, 0)
  {
    var behaviour := (id: TestId) => TestBody("lst_t_ok", [Compare(Le, id, id)], 0);
    forall id: TestId ensures Effect(behaviour(id)) == Outcome(0, 1, 0) {
      var once := [Compare(Le, id, id)];
      assert once[1..] == [] && !Fails(Le, id, id);
      assert behaviour(id).checks == once;
      assert Execute(once, 0) == Outcome(0, 1, 0);
    }
    assert [0, 1, 2][1..] == [1, 2];
    assert [1, 2][1..] == [2];
    assert [2][1..] == [];
  }
}
