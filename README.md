# LS test harness — a verified model

This project models the single-header C unit-test harness `tests/ls_test.h`
("Lion's Standard test harness"): tests declared with `TEST_CASE` register
themselves before `main` into a growable registry (`lst_reg`), the entry
point `ls_test_main` scans its two options, runs the registry in
registration order (optionally stopping at the first failing test), prints a
summary and derives the exit status from the failure counter; the assertion
macros update the two global counters `lst_ok` and `lst_fail`.

Modules, one per piece of the header:

- `Assertions` (assertions.dfy): the six typed comparisons (`Comparison`,
  `Holds`, the guard as written `Fails`, the operator printed on failure
  `Negated`), the `lst_t_` display-name rule, `ASSERT` as the method
  `Assert`, and the class `Counters` holding `lst_ok`/`lst_fail` whose
  method `AssertCompare` is one typed assertion.
- `Registration` (registration.dfy): the class `Registry` over an `array`
  (`lst_funcs`) with fields `n` (`lst_n`) and `cap` (`lst_cap`) and the ghost
  sequence `Tests` of registered tests; `Register` is `lst_reg`. Its invariant
  `cap == CapFor(n)` says the capacity is 0 while empty and otherwise the
  smallest of 8, 16, 32, ... that holds `n` tests.
- `Options` (options.dfy): the left-to-right argument scan, as a
  specification `Scan` and as the loop `ParseOptions`.
- `TestCase` (testcase.dfy): a test body as the list of assertions it
  evaluates followed by the status it returns; `Execute` is its effect and
  `Invoke` is one call of the test function against the counters.
- `Runner` (runner.dfy): the runner loop (`RunTests` as specification,
  `RunRegistered` as the loop with `break` for `goto end`), `TestMain`
  (`ls_test_main`) and `RunProgram` (registration at load time, then `main`).

Test functions are opaque identifiers (`TestId`); what each one does is a
parameter `behaviour: TestId -> TestBody`. Operands of typed assertions are
integers, passed in already evaluated, so each is evaluated exactly once as
the macros' cached `_a`/`_b` guarantee.

## Model

| member | source | states |
|---|---|---|
| Assertions.Negated | tests/ls_test.h:104-204 | the operator printed after "actual:" is a different operator, and it holds exactly when the asserted one does not |
| Assertions.Fails | tests/ls_test.h:104-204 | each macro's failure guard (`_a != _b`, `!(_a < _b)`, ...) fails exactly when the asserted relation does not hold, and then the printed "actual" relation is true |
| Assertions.HasTestPrefix | tests/ls_test.h:95 | `strncmp(_func, "lst_t_", 6) == 0`: a name with the prefix is `lst_t_` followed by the rest, and a name shorter than 6 characters never has it |
| Assertions.TestFunctionName | tests/ls_test.h:84 | `LS_CAT(lst_t_, name)`: the generated function name carries the prefix and the declared name follows it unchanged |
| Assertions.DisplayName | tests/ls_test.h:95-96 | the shown name is a suffix of the function name, exactly 6 characters shorter when, and only when, the name starts with `lst_t_` |
| Assertions.DisplayNameOfTestCase | tests/ls_test.h:83-96 | a test declared `TEST_CASE(name)` is shown as `name` in diagnostics |
| Assertions.DisplayNameOfOtherFunction | tests/ls_test.h:95-96 | a function name without the prefix is shown unchanged |
| Assertions.Assert | tests/ls_test.h:91-100 | `ASSERT` reports (naming the display name) exactly when the condition is false, touches no counter and never makes the test return |
| Assertions.Counters.constructor | tests/ls_test.h:231-232 | both counters start at 0 |
| Assertions.Counters.AssertCompare | tests/ls_test.h:104-119 | a typed assertion returns from the test exactly when the relation fails; a pass adds exactly 1 to `lst_ok` only, a failure exactly 1 to `lst_fail` only, with one report naming the test |
| Registration.Grown | tests/ls_test.h:236-240 | one growth step (0 to 8, otherwise doubling) always makes the capacity larger; `GrownIsCapacity` and `CapForStep` show it keeps the series 8, 16, 32, ... and happens exactly when the registry is full |
| Registration.GrownIsCapacity | tests/ls_test.h:236-240 | one growth (0 to 8, otherwise doubling) keeps the capacity in the series 8, 16, 32, ... |
| Registration.CapFor | tests/ls_test.h:235-243 | the capacity for k tests is at least k, is 0 only for k = 0, and is of the form 8·2^j otherwise |
| Registration.CapForIsLeast | tests/ls_test.h:235-243 | no capacity 8·2^j that holds k ≥ 1 tests is smaller than CapFor(k): it is the smallest such value |
| Registration.CapForStep | tests/ls_test.h:235-243 | registering one more test changes the capacity only when the registry is full, and then 0 becomes 8 and anything else doubles |
| Registration.Registry.constructor | tests/ls_test.h:228-230 | the registry starts empty with capacity 0 |
| Registration.Registry.Register | tests/ls_test.h:234-244 | `lst_reg` appends exactly one test at index `lst_n`, keeps all earlier entries, grows the capacity only when full (8 first, then doubling) and keeps `n <= cap` with cap the smallest 8·2^j ≥ n |
| Options.Classify | tests/ls_test.h:260-265 | an argument is the failfast flag exactly when it equals `--failfast`, the help flag exactly when it equals `--help`, unknown otherwise |
| Options.Scan | tests/ls_test.h:259-270 | the left-to-right scan exits only with status 0 or 1, and when it proceeds the flag is set exactly when a `--failfast` was read; `HelpExits`, `UnknownExits` and `ProceedOnlyOnFailfast` characterise its result completely by the first argument other than `--failfast` |
| Options.HelpExits | tests/ls_test.h:259-264 | `--help` preceded only by `--failfast` ends the scan with status 0 and no run |
| Options.UnknownExits | tests/ls_test.h:259-269 | any other argument preceded only by `--failfast` ends the scan with status 1 and no run |
| Options.ProceedOnlyOnFailfast | tests/ls_test.h:259-270 | the scan goes on to run tests if and only if every argument is `--failfast`, and the flag is then set exactly when there was one |
| Options.ArgumentOrderExamples | tests/ls_test.h:259-270 | `--bogus --help` gives 1, `--help --bogus` gives 0, `--failfast --help` gives 0, `--failfast` alone runs with failfast |
| Options.ParseOptions | tests/ls_test.h:256-270 | the loop from `argv[1]` to the end yields exactly the outcome of the left-to-right scan |
| TestCase.Execute | tests/ls_test.h:104-204 | a test invocation counts at most one failure; with one it returns 1, without one it returns the body's own status; it counts at most one success per assertion |
| TestCase.ExecuteUpToFirstFailure | tests/ls_test.h:104-119 | the effect of a test is fixed by its first failing typed assertion: all typed assertions before it count one success each, it counts one failure and the test returns 1; with none, all typed assertions pass and the body's status is returned |
| TestCase.FailureSkipsRest | tests/ls_test.h:115-116 | nothing after a failing typed assertion runs: the test's effect does not depend on what follows it |
| TestCase.TruthyIsInert | tests/ls_test.h:91-100 | removing an `ASSERT` from a test body changes neither counter nor the returned status |
| TestCase.PassingTwiceCountsTwice | tests/ls_test.h:118 | the same passing typed assertion run twice adds 2 to `lst_ok` and nothing to `lst_fail` |
| TestCase.Invoke | tests/ls_test.h:273 | calling a test function runs its assertions against the counters with exactly the effect `Execute` gives |
| Runner.RunTests | tests/ls_test.h:272-276 | the run invokes at most the registered tests and counts at most one failure per invoked test |
| Runner.AllInvokedWithoutFailfast | tests/ls_test.h:272-276 | without failfast every registered test is invoked |
| Runner.FailfastStopsAfterFirstFailure | tests/ls_test.h:273-274 | with failfast every test invoked before the last returned 0, and if tests were skipped the last invoked one returned non-zero |
| Runner.FailfastRunsAPrefix | tests/ls_test.h:272-276 | a failfast run has the totals of running, without failfast, exactly the prefix of tests it invoked |
| Runner.FailfastWithoutFailures | tests/ls_test.h:272-276 | when every test returns 0, failfast changes nothing |
| Runner.FailfastExample | tests/ls_test.h:272-287 | tests [A fails, B passes]: without failfast 1 succeeded, 1 failed; with failfast B is never invoked and only A's failure counts |
| Runner.RunRegistered | tests/ls_test.h:272-276 | the loop invokes `lst_funcs[0..]` in index order, exactly the tests the run specification says, and adds their successes and failures to the counters |
| Runner.TestMain | tests/ls_test.h:252-288 | `--help`/unknown argument: status 0/1, no test invoked, counters untouched, no summary; otherwise the tests run, the summary total is successes plus failures (assertions, not tests), and the status is 0 if and only if `lst_fail` is 0 |
| Runner.RunProgram | tests/ls_test.h:80-89 | registration of the tests before `main`, then `main`: on `--help`/unknown argument the scan's status and no summary (no test is invoked, as `TestMain` states); otherwise the summary is exactly the run's totals, and the status is 0 when no invoked test failed a typed assertion and 1 otherwise |
| Runner.AllPassExample | tests/ls_test.h:272-287 | three tests with one passing assertion each: 3 succeeded, 0 failed, 3 total |

## Left out

- All `fprintf` output: the diagnostic lines beyond the name they show, the usage text, the "unknown argument" message, the format hints (`fmt`) and the printed summary text (the summary is returned as a value instead).
- `realloc` and `free`: growth is a fresh array plus a copy of the first `n` entries; the unchecked `realloc` result, allocation failure, and the release of the registry after the run are not modelled.
- Load-time registration through `__attribute__((constructor))` and its order across translation units: `RunProgram` takes the registration order as its `tests` parameter.
- Macro code generation (`LS_CAT`, `__typeof__`, `#a` stringification): a test's function name is a string field, `TestFunctionName` stands for `LS_CAT(lst_t_, name)`.
- Comparisons on types other than integers: operands are `int`; for floating point (NaN) the failure guard and the printed "actual" operator need not agree, which the model does not cover.
- Test bodies are straight-line lists of assertions followed by one `return`; branches, loops and other side effects inside a test body, and a body that ends without `return`, are not modelled.
- Integer overflow of the C `int` globals `lst_n`, `lst_cap`, `lst_ok` and `lst_fail`: they are unbounded naturals.
- `argv[0]` is only used in the usage text and is skipped by the scan, as in the source.
