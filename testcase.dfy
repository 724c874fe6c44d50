/** A test declared with TEST_CASE, modelled as the straight-line list of
    assertions its body evaluates, followed by the status it returns when
    it runs to its end. */
module TestCase {
  import opened Assertions

  /** One assertion in a test body. */
  datatype Check = Compare(op: Comparison, a: int, b: int) | Truthy(cond: bool)

  /** `name` is the C function name (`lst_t_` followed by the declared name). */
  datatype TestBody = TestBody(name: string, checks: seq<Check>, final: int)

  /** What one invocation of a test does: the status it returns and how many
      typed assertions it adds to `lst_ok` and to `lst_fail`. */
  datatype Outcome = Outcome(status: int, passed: nat, failed: nat)

  /** A check that makes the test return 1 on the spot. */
  predicate Stops(c: Check)
  {
    c.Compare? && Fails(c.op, c.a, c.b)
  }

  /** The effect of running `checks` and then `return final`. At most one
      failure is ever counted, and a counted failure returns 1. */
  function Execute(checks: seq<Check>, final: int): (o: Outcome)
    ensures o.failed <= 1
    ensures o.failed == 1 ==> o.status == 1
    ensures o.failed == 0 ==> o.status == final
    ensures o.passed <= |checks|
  {
    if checks == [] then Outcome(final, 0, 0)
    else
      match checks[0]
      case Truthy(_) => Execute(checks[1..], final)
      case Compare(op, a, b) =>
        if Fails(op, a, b) then Outcome(1, 0, 1)
        else
          var o := Execute(checks[1..], final);
          o.(passed := o.passed + 1)
  }

  function Effect(body: TestBody): Outcome
  {
    Execute(body.checks, body.final)
  }

  /** The number of typed assertions in `checks`. */
  function TypedCount(checks: seq<Check>): nat
  {
    if checks == [] then 0
    else (if checks[0].Compare? then 1 else 0) + TypedCount(checks[1..])
  }

  /** The effect of a body, read off the index `i` of its first failing
      typed assertion (|checks| when none fails): every typed assertion
      before `i` passed and was counted once; a failure at `i` counts once
      and returns 1; without one the test returns its own status. */
  lemma {:induction false} ExecuteUpToFirstFailure(checks: seq<Check>, final: int, i: nat)
    requires i <= |checks|
    requires forall j :: 0 <= j < i ==> !Stops(checks[j])
    requires i < |checks| ==> Stops(checks[i])
    ensures Execute(checks, final) ==
      if i < |checks| then Outcome(1, TypedCount(checks[..i]), 1)
      else Outcome(final, TypedCount(checks), 0)
  {
    if i > 0 {
      assert !Stops(checks[0]);
      assert checks[..i][1..] == checks[1..][..i - 1];
      ExecuteUpToFirstFailure(checks[1..], final, i - 1);
    } else if checks != [] {
      assert checks[..0] == [];
    }
  }

  /** Nothing after a failing typed assertion runs: whatever follows it,
      the test has the same effect. */
  lemma FailureSkipsRest(pre: seq<Check>, c: Check, post: seq<Check>, post': seq<Check>, final: int)
    requires forall j :: 0 <= j < |pre| ==> !Stops(pre[j])
    requires Stops(c)
    ensures Execute(pre + [c] + post, final) == Execute(pre + [c] + post', final)
    ensures Execute(pre + [c] + post, final) == Outcome(1, TypedCount(pre), 1)
  {
    var s, s' := pre + [c] + post, pre + [c] + post';
    assert s[..|pre|] == pre && s'[..|pre|] == pre;
    assert s[|pre|] == c && s'[|pre|] == c;
    ExecuteUpToFirstFailure(s, final, |pre|);
    ExecuteUpToFirstFailure(s', final, |pre|);
  }

  /** ASSERT has no effect on the test: removing it changes nothing. */
  lemma {:induction false} TruthyIsInert(pre: seq<Check>, cond: bool, post: seq<Check>, final: int)
    ensures Execute(pre + [Truthy(cond)] + post, final) == Execute(pre + post, final)
  {
    if pre == [] {
      assert pre + [Truthy(cond)] + post == [Truthy(cond)] + post;
      assert ([Truthy(cond)] + post)[1..] == post;
      assert pre + post == post;
    } else {
      assert (pre + [Truthy(cond)] + post)[1..] == pre[1..] + [Truthy(cond)] + post;
      assert (pre + post)[1..] == pre[1..] + post;
      TruthyIsInert(pre[1..], cond, post, final);
    }
  }

  /** Running two passing typed assertions counts two successes. */
  lemma PassingTwiceCountsTwice(op: Comparison, a: int, b: int, final: int)
    requires Holds(op, a, b)
    ensures Execute([Compare(op, a, b), Compare(op, a, b)], final) == Outcome(final, 2, 0)
  {
    var once := [Compare(op, a, b)];
    assert [Compare(op, a, b), Compare(op, a, b)][1..] == once;
    assert once[1..] == [];
    assert !Fails(op, a, b);
    assert Execute(once, final) == Outcome(final, 1, 0);
  }

  /** One call of the test function: its assertions in order, each updating
      the counters, until one fails (return 1) or the body ends (return
      `final`). */
  method Invoke(body: TestBody, c: Counters) returns (status: int)
    modifies c
    ensures status == Effect(body).status
    ensures c.ok == old(c.ok) + Effect(body).passed
    ensures c.fail == old(c.fail) + Effect(body).failed
  {
    var i := 0;
    ghost var passed := 0;
    while i < |body.checks|
      invariant 0 <= i <= |body.checks|
      invariant c.ok == old(c.ok) + passed && c.fail == old(c.fail)
      invariant Effect(body) == var rest := Execute(body.checks[i..], body.final);
        rest.(passed := passed + rest.passed)
    {
      assert body.checks[i..][1..] == body.checks[i + 1..];
      match body.checks[i] {
        case Truthy(cond) =>
          var _ := Assert(body.name, cond);
        case Compare(op, a, b) =>
          var returned, _ := c.AssertCompare(body.name, op, a, b);
          if returned {
            return 1;
          }
          passed := passed + 1;
      }
      i := i + 1;
    }
    return body.final;
  }
}
