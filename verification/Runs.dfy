/**
 Runs of a total step function, and the ways a property lasts through them.
 */
module Runs {
  // The state after the first n operations.
  ghost function RunTo<S, O>(start: S, next: (S, O) -> S, ops: seq<O>, n: nat): S
    requires n <= |ops|
  {
    if n == 0 then start else next(RunTo(start, next, ops, n - 1), ops[n - 1])
  }

  // What every step keeps, a run keeps.
  lemma {:induction false} Kept<S(!new), O(!new)>(start: S, next: (S, O) -> S, ops: seq<O>, n: nat, good: S -> bool)
    requires n <= |ops| && good(start)
    requires forall s: S, op: O :: good(s) ==> good(next(s, op))
    ensures good(RunTo(start, next, ops, n))
  {
    if n > 0 {
      Kept(start, next, ops, n - 1, good);
    }
  }

  // Once it holds, it holds on.
  lemma {:induction false} KeptOnce<S(!new), O(!new)>(start: S, next: (S, O) -> S, ops: seq<O>, k: nat, n: nat,
                                                      good: S -> bool)
    requires k <= n <= |ops| && good(RunTo(start, next, ops, k))
    requires forall s: S, op: O :: good(s) ==> good(next(s, op))
    ensures good(RunTo(start, next, ops, n))
    decreases n
  {
    if k < n {
      KeptOnce(start, next, ops, k, n - 1, good);
    }
  }

  // What every step but the bad ones keeps, a run without bad steps keeps.
  lemma {:induction false} KeptUnless<S(!new), O(!new)>(start: S, next: (S, O) -> S, ops: seq<O>, n: nat,
                                                        good: S -> bool, bad: (S, O) -> bool)
    requires n <= |ops| && good(start) && NeverBad(start, next, ops, n, bad)
    requires forall s: S, op: O :: good(s) && !bad(s, op) ==> good(next(s, op))
    ensures good(RunTo(start, next, ops, n))
  {
    if n > 0 {
      OneMoreStep(start, next, ops, n, good, bad);
      KeptUnless(start, next, ops, n - 1, good, bad);
    }
  }

  // After each of the first n steps, and at the start.
  ghost predicate AlwaysGood<S, O>(start: S, next: (S, O) -> S, ops: seq<O>, n: nat, good: S -> bool)
    requires n <= |ops|
  {
    forall k :: 0 <= k <= n ==> good(RunTo(start, next, ops, k))
  }

  // None of the first n steps is bad where it is taken.
  ghost predicate NeverBad<S, O>(start: S, next: (S, O) -> S, ops: seq<O>, n: nat, bad: (S, O) -> bool)
    requires n <= |ops|
  {
    forall k :: 0 <= k < n ==> !bad(RunTo(start, next, ops, k), ops[k])
  }

  lemma OneMoreStep<S, O>(start: S, next: (S, O) -> S, ops: seq<O>, n: nat, good: S -> bool, bad: (S, O) -> bool)
    requires 0 < n <= |ops|
    ensures AlwaysGood(start, next, ops, n, good)
       <==> AlwaysGood(start, next, ops, n - 1, good) && good(RunTo(start, next, ops, n))
    ensures NeverBad(start, next, ops, n, bad)
       <==> NeverBad(start, next, ops, n - 1, bad) && !bad(RunTo(start, next, ops, n - 1), ops[n - 1])
  {
  }

  lemma GoodNow<S, O>(start: S, next: (S, O) -> S, ops: seq<O>, n: nat, good: S -> bool)
    requires n <= |ops|
    ensures AlwaysGood(start, next, ops, n, good) ==> good(RunTo(start, next, ops, n))
  {
  }

  // When exactly the bad steps lose a property, a run has it at every moment exactly
  // when it has no bad step.
  lemma {:induction false} KeptIff<S(!new), O(!new)>(start: S, next: (S, O) -> S, ops: seq<O>, n: nat,
                                                     inv: S -> bool, good: S -> bool, bad: (S, O) -> bool)
    requires n <= |ops| && inv(start) && good(start)
    requires forall s: S, op: O :: inv(s) ==> inv(next(s, op))
    requires forall s: S, op: O :: inv(s) && good(s) ==> (good(next(s, op)) <==> !bad(s, op))
    ensures AlwaysGood(start, next, ops, n, good) <==> NeverBad(start, next, ops, n, bad)
  {
    if n > 0 {
      KeptIff(start, next, ops, n - 1, inv, good, bad);
      OneMoreStep(start, next, ops, n, good, bad);
      GoodNow(start, next, ops, n - 1, good);
      Kept(start, next, ops, n - 1, inv);
      var was, op := RunTo(start, next, ops, n - 1), ops[n - 1];
      assert good(was) ==> (good(next(was, op)) <==> !bad(was, op));
    }
  }

  // A value that no step lowers is not lowered by a run.
  lemma {:induction false} NeverLess<S(!new), O(!new)>(start: S, next: (S, O) -> S, ops: seq<O>, k: nat, n: nat,
                                                       inv: S -> bool, value: S -> int)
    requires k <= n <= |ops| && inv(start)
    requires forall s: S, op: O :: inv(s) ==> inv(next(s, op)) && value(s) <= value(next(s, op))
    ensures value(RunTo(start, next, ops, k)) <= value(RunTo(start, next, ops, n))
    decreases n
  {
    if k < n {
      NeverLess(start, next, ops, k, n - 1, inv, value);
      Kept(start, next, ops, n - 1, inv);
    }
  }

  ghost predicate Extends<T>(a: seq<T>, b: seq<T>) {
    a <= b
  }

  // What every step only appends to, a run only appends to.
  lemma {:induction false} Appends<S(!new), O(!new), T>(start: S, next: (S, O) -> S, ops: seq<O>, k: nat, n: nat,
                                                        log: S -> seq<T>)
    requires k <= n <= |ops|
    requires forall s: S, op: O :: Extends(log(s), log(next(s, op)))
    ensures log(RunTo(start, next, ops, k)) <= log(RunTo(start, next, ops, n))
    decreases n
  {
    if k < n {
      Appends(start, next, ops, k, n - 1, log);
      assert Extends(log(RunTo(start, next, ops, n - 1)), log(RunTo(start, next, ops, n)));
    }
  }

  // What grows by one element at most at each step: the step that added element j.
  lemma {:induction false} AddedBy<S(!new), O(!new), T>(start: S, next: (S, O) -> S, ops: seq<O>, n: nat,
                                                        log: S -> seq<T>, j: nat) returns (k: nat)
    requires n <= |ops| && log(start) == [] && j < |log(RunTo(start, next, ops, n))|
    requires forall s: S, op: O :: Extends(log(s), log(next(s, op))) && |log(next(s, op))| <= |log(s)| + 1
    ensures k < n
    ensures log(RunTo(start, next, ops, k)) == log(RunTo(start, next, ops, n))[..j]
    ensures log(next(RunTo(start, next, ops, k), ops[k])) == log(RunTo(start, next, ops, n))[..j + 1]
  {
    var was, now := log(RunTo(start, next, ops, n - 1)), log(RunTo(start, next, ops, n));
    assert Extends(was, now);
    if j < |was| {
      k := AddedBy(start, next, ops, n - 1, log, j);
      assert now[..j] == was[..j] && now[..j + 1] == was[..j + 1];
    } else {
      k := n - 1;
    }
  }

  // A run depends on its first operations and on what the step function does.
  lemma {:induction false} SameRun<S(!new), O(!new)>(start: S, next: (S, O) -> S, ops: seq<O>,
                                                     other: (S, O) -> S, others: seq<O>, n: nat)
    requires n <= |ops| && n <= |others| && forall k :: 0 <= k < n ==> ops[k] == others[k]
    requires forall s: S, op: O :: next(s, op) == other(s, op)
    ensures RunTo(start, next, ops, n) == RunTo(start, other, others, n)
  {
    if n > 0 {
      SameRun(start, next, ops, other, others, n - 1);
    }
  }

  // The step leads to a fit state and does not lower its value.
  predicate Rises<S>(s: S, t: S, fit: S -> bool, value: S -> int) {
    fit(t) && value(s) <= value(t)
  }

  // Each of the first n steps does.
  ghost predicate AlwaysRises<S, O>(start: S, next: (S, O) -> S, ops: seq<O>, n: nat, fit: S -> bool, value: S -> int)
    requires n <= |ops|
  {
    forall k :: 0 <= k < n ==>
      Rises(RunTo(start, next, ops, k), next(RunTo(start, next, ops, k), ops[k]), fit, value)
  }

  lemma OneMoreRise<S, O>(start: S, next: (S, O) -> S, ops: seq<O>, n: nat, fit: S -> bool, value: S -> int)
    requires 0 < n <= |ops|
    ensures AlwaysRises(start, next, ops, n, fit, value)
       <==> AlwaysRises(start, next, ops, n - 1, fit, value)
            && Rises(RunTo(start, next, ops, n - 1), RunTo(start, next, ops, n), fit, value)
  {
  }

  // When exactly the bad steps of fit states do not, all steps of a run do exactly when
  // none is bad.
  lemma {:induction false} RisesIff<S(!new), O(!new)>(start: S, next: (S, O) -> S, ops: seq<O>, n: nat,
                                                      fit: S -> bool, value: S -> int, bad: (S, O) -> bool)
    requires n <= |ops| && fit(start)
    requires forall s: S, op: O :: fit(s) ==> (Rises(s, next(s, op), fit, value) <==> !bad(s, op))
    ensures AlwaysRises(start, next, ops, n, fit, value) <==> NeverBad(start, next, ops, n, bad)
    ensures AlwaysRises(start, next, ops, n, fit, value) ==> fit(RunTo(start, next, ops, n))
  {
    if n > 0 {
      RisesIff(start, next, ops, n - 1, fit, value, bad);
      OneMoreRise(start, next, ops, n, fit, value);
      OneMoreStep(start, next, ops, n, fit, bad);
    }
  }

  // Then the value is not lowered between any two moments of the run.
  lemma {:induction false} RisesAcross<S, O>(start: S, next: (S, O) -> S, ops: seq<O>, k: nat, n: nat,
                                             fit: S -> bool, value: S -> int)
    requires k <= n <= |ops| && fit(start) && AlwaysRises(start, next, ops, n, fit, value)
    ensures fit(RunTo(start, next, ops, k)) && fit(RunTo(start, next, ops, n))
    ensures value(RunTo(start, next, ops, k)) <= value(RunTo(start, next, ops, n))
    decreases n
  {
    if n > 0 {
      OneMoreRise(start, next, ops, n, fit, value);
      RisesAcross(start, next, ops, if k < n then k else n - 1, n - 1, fit, value);
    }
  }
}
