/** The assertion macros of the harness: the six typed comparisons
    (ASSERT_EQ ... ASSERT_GE), the boolean ASSERT, the process-wide
    success/failure counters they update, and the rule that turns a test
    function's C name into the name shown in a diagnostic. */
module Assertions {

  datatype Option<T> = None | Some(value: T)

  /** The six typed assertion forms. */
  datatype Comparison = Eq | Neq | Lt | Le | Gt | Ge

  /** The relation a typed assertion claims, the one named by the macro and
      printed before "(actual: ...)" in its diagnostic. */
  predicate Holds(op: Comparison, a: int, b: int)
  {
    match op
    case Eq => a == b
    case Neq => a != b
    case Lt => a < b
    case Le => a <= b
    case Gt => a > b
    case Ge => a >= b
  }

  /** The operator printed after "actual:" when an assertion fails
      (`!=` for ASSERT_EQ, `>=` for ASSERT_LT, ...). */
  function Negated(op: Comparison): (n: Comparison)
    ensures n != op
    ensures forall a: int, b: int :: Holds(n, a, b) <==> !Holds(op, a, b)
  {
    match op
    case Eq => Neq
    case Neq => Eq
    case Lt => Ge
    case Le => Gt
    case Gt => Le
    case Ge => Lt
  }

  /** The failure guard of each macro, as the macro writes it on the cached
      operands `_a` and `_b`. On integers it fails exactly when the claimed
      relation does not hold, and then the printed "actual" relation is true. */
  predicate Fails(op: Comparison, a: int, b: int)
    ensures Fails(op, a, b) <==> !Holds(op, a, b)
    ensures Fails(op, a, b) <==> Holds(Negated(op), a, b)
  {
    match op
    case Eq => a != b
    case Neq => a == b
    case Lt => !(a < b)
    case Le => !(a <= b)
    case Gt => !(a > b)
    case Ge => !(a >= b)
  }

  /** The prefix TEST_CASE puts in front of a test's name to form its C function name. */
  const TestPrefix: string := "lst_t_"

  /** `strncmp(func, "lst_t_", 6) == 0` on a C string. */
  predicate HasTestPrefix(func: string)
    ensures HasTestPrefix(func) ==> |func| >= |TestPrefix| && func == TestPrefix + func[|TestPrefix|..]
    ensures |func| < |TestPrefix| ==> !HasTestPrefix(func)
  {
    |func| >= |TestPrefix| && func[..|TestPrefix|] == TestPrefix
  }

  /** The C function name TEST_CASE(name) declares for the test body. */
  function TestFunctionName(name: string): (func: string)
    ensures HasTestPrefix(func) && func[|TestPrefix|..] == name
  {
    TestPrefix + name
  }

  /** The name a diagnostic shows for the enclosing function: the function
      name with a leading "lst_t_" skipped. It is always a suffix of the
      function name, and it is exactly 6 characters shorter when, and only
      when, the function name starts with the prefix. */
  function DisplayName(func: string): (name: string)
    ensures |name| <= |func| && name == func[|func| - |name|..]
    ensures |func| - |name| == (if HasTestPrefix(func) then 6 else 0)
  {
    if HasTestPrefix(func) then func[6..] else func
  }

  /** The name shown for a test declared with TEST_CASE(name) is `name`. */
  lemma DisplayNameOfTestCase(name: string)
    ensures DisplayName(TestFunctionName(name)) == name
  {
  }

  /** A function whose name does not start with the prefix is shown unchanged. */
  lemma DisplayNameOfOtherFunction(func: string)
    requires !HasTestPrefix(func)
    ensures DisplayName(func) == func
  {
  }

  /** ASSERT(cond): on a false condition it reports a diagnostic naming the
      enclosing function and nothing else; it has no counter to change and
      never makes the test return. */
  method Assert(func: string, cond: bool) returns (report: Option<string>)
    ensures report.Some? <==> !cond
    ensures report.Some? ==> report.value == DisplayName(func)
  {
    report := None;
    if !cond {
      report := Some(DisplayName(func));
    }
  }

  /** The globals `lst_ok` and `lst_fail`: the number of typed assertions
      that passed and that failed so far. Both start at zero. */
  class Counters {
    var ok: nat
    var fail: nat

    constructor ()
      ensures ok == 0 && fail == 0
    {
      ok := 0;
      fail := 0;
    }

    /** One typed assertion, with both operands already evaluated once into
        `a` and `b`. When the comparison holds, exactly one success is counted
        and the test goes on; otherwise exactly one failure is counted, a
        diagnostic names the function, and the test returns 1 (`returned`). */
    method AssertCompare(func: string, op: Comparison, a: int, b: int)
      returns (returned: bool, report: Option<string>)
      modifies this
      ensures returned <==> !Holds(op, a, b)
      ensures ok == old(ok) + (if returned then 0 else 1)
      ensures fail == old(fail) + (if returned then 1 else 0)
      ensures report == if returned then Some(DisplayName(func)) else None
    {
      returned := false;
      report := None;
      if Fails(op, a, b) {
        report := Some(DisplayName(func));
        fail := fail + 1;
        returned := true;
        return;
      }
      ok := ok + 1;
    }
  }
}
