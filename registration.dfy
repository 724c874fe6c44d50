/** The test registry: the growable buffer `lst_funcs` with its count
    `lst_n` and capacity `lst_cap`, appended to by `lst_reg` once per
    declared test before the entry point runs. */
module Registration {

  /** A registered test function (the `lst_func` pointer), kept opaque. */
  type TestId = nat

  function Pow2(j: nat): (r: nat)
    ensures r >= 1
  {
    if j == 0 then 1 else 2 * Pow2(j - 1)
  }

  lemma {:induction false} Pow2Grows(i: nat, j: nat)
    requires i < j
    ensures 2 * Pow2(i) <= Pow2(j)
    decreases j
  {
    if i + 1 < j {
      Pow2Grows(i, j - 1);
    }
  }

  /** A capacity the registry can reach by growing: 8, 16, 32, ... */
  ghost predicate IsCapacity(c: nat)
  {
    exists j: nat :: c == 8 * Pow2(j)
  }

  /** The capacity after one growth from `cap`: 8 the first time, then double. */
  function Grown(cap: nat): (r: nat)
    ensures r > cap
  {
    if cap == 0 then 8 else 2 * cap
  }

  /** Growing keeps the capacity in the series 8, 16, 32, ... */
  lemma GrownIsCapacity(cap: nat)
    requires cap == 0 || IsCapacity(cap)
    ensures IsCapacity(Grown(cap))
  {
    if cap == 0 {
      assert 8 == 8 * Pow2(0);
    } else {
      var j: nat :| cap == 8 * Pow2(j);
      assert Grown(cap) == 8 * Pow2(j + 1);
    }
  }

  /** The smallest exponent e, not below `j`, with 8 * 2^e >= k. */
  function LeastExp(k: nat, j: nat): (e: nat)
    ensures j <= e && k <= 8 * Pow2(e)
    ensures forall i :: j <= i < e ==> 8 * Pow2(i) < k
    decreases k - 8 * Pow2(j)
  {
    if k <= 8 * Pow2(j) then j else LeastExp(k, j + 1)
  }

  /** The capacity of a registry holding k tests: 0 while empty, otherwise
      the smallest of 8, 16, 32, ... that is at least k. */
  function CapFor(k: nat): (c: nat)
    ensures k <= c
    ensures k > 0 ==> IsCapacity(c)
    ensures k == 0 <==> c == 0
  {
    if k == 0 then 0 else 8 * Pow2(LeastExp(k, 0))
  }

  /** No capacity of the form 8 * 2^j that fits k tests is smaller than CapFor(k). */
  lemma {:induction false} CapForIsLeast(k: nat, j: nat)
    requires 0 < k <= 8 * Pow2(j)
    ensures CapFor(k) <= 8 * Pow2(j)
  {
    var e := LeastExp(k, 0);
    if e < j {
      Pow2Grows(e, j);
    }
  }

  /** Registering the (k+1)-th test changes the capacity only when the
      registry is full, and then it grows by the rule of `Grown`. */
  lemma {:induction false} CapForStep(k: nat)
    ensures CapFor(k + 1) == if k == CapFor(k) then Grown(k) else CapFor(k)
  {
    if k == 0 {
      assert LeastExp(1, 0) == 0;
    } else {
      var e := LeastExp(k, 0);
      var e' := LeastExp(k + 1, 0);
      if k < CapFor(k) {
        CapForIsLeast(k + 1, e);
        CapForIsLeast(k, e');
      } else {
        assert 8 * Pow2(e + 1) == 2 * k;
        CapForIsLeast(k + 1, e + 1);
        if e' <= e {
          if e' < e {
            Pow2Grows(e', e);
          }
          assert false;
        }
        Pow2Grows(e, e');
      }
    }
  }

  /** The registry of tests, in registration order. */
  class Registry {
    var funcs: array<TestId>
    var n: nat
    var cap: nat
    /** The registered tests, in the order `lst_reg` was called. */
    ghost var Tests: seq<TestId>

    ghost predicate Valid()
      reads this, funcs
    {
      && funcs.Length == cap
      && n <= cap
      && cap == CapFor(n)
      && n == |Tests|
      && funcs[..n] == Tests
    }

    /** The registry before any registration: no buffer, count and capacity 0. */
    constructor ()
      ensures Valid() && fresh(funcs)
      ensures Tests == [] && n == 0 && cap == 0
    {
      funcs := new TestId[0];
      n := 0;
      cap := 0;
      Tests := [];
    }

    /** `lst_reg(f)`: grow the buffer when it is full, then store `f` at
        index `n`. Exactly one entry is appended; earlier ones stay. */
    method Register(f: TestId)
      requires Valid()
      modifies this, funcs
      ensures Valid() && (funcs == old(funcs) || fresh(funcs))
      ensures Tests == old(Tests) + [f]
      ensures n == old(n) + 1 && funcs[old(n)] == f
      ensures cap == if old(n) == old(cap) then Grown(old(cap)) else old(cap)
    {
      CapForStep(n);
      if n == cap {
        if cap == 0 {
          cap := 8;
        } else {
          cap := cap * 2;
        }
        var grown := new TestId[cap];
        forall i | 0 <= i < n {
          grown[i] := funcs[i];
        }
        funcs := grown;
      }
      funcs[n] := f;
      n := n + 1;
      Tests := Tests + [f];
    }
  }
}
