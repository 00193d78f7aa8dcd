/** Bounded exponential backoff around a registry operation. */
module Retry {
  import opened Powers

  const MAX_ATTEMPTS: nat := 6
  const MAX_TOTAL_DELAY: real := 60.0
  const DEFAULT_INITIAL_DELAY: real := 2.0
  const DEFAULT_MAX_DELAY: real := 30.0

  /** What one call of the operation did. */
  datatype Outcome<T> = Value(result: T) | FatalError(reason: string) | RetryableError(text: string)

  function Capped(attempt: nat): nat {
    if attempt < MAX_ATTEMPTS - 1 then attempt else MAX_ATTEMPTS - 1
  }

  function Factor(attempt: nat): real {
    Pow2(Capped(attempt)) as real
  }

  function Least(a: real, b: real): real {
    if a < b then a else b
  }

  /** `_retry_delay`. */
  function RetryDelay(attempt: nat, initial: real, maximum: real): real {
    Least(initial * Factor(attempt), maximum)
  }

  /** Sum of the delays before attempts `1 .. n`. */
  function TotalDelay(n: nat, initial: real, maximum: real): real {
    if n == 0 then 0.0 else TotalDelay(n - 1, initial, maximum) + RetryDelay(n - 1, initial, maximum)
  }

  /** `_validate_retry_settings`, on settings that are already numbers. */
  predicate ValidSettings(attempts: int, initial: real, maximum: real) {
    && 1 <= attempts <= MAX_ATTEMPTS
    && 0.0 <= initial <= maximum <= MAX_TOTAL_DELAY
    && TotalDelay(attempts - 1, initial, maximum) <= MAX_TOTAL_DELAY
  }

  /** Number of attempts a sequence of outcomes uses: up to the first one that is not retryable. */
  function AttemptsUsed<T>(outcomes: seq<Outcome<T>>, attempts: nat): (n: nat)
    requires 1 <= attempts <= |outcomes|
    ensures 1 <= n <= attempts
    ensures forall i :: 0 <= i < n - 1 ==> outcomes[i].RetryableError?
    ensures n < attempts ==> !outcomes[n - 1].RetryableError?
  {
    if attempts == 1 || !outcomes[0].RetryableError? then 1
    else 1 + AttemptsUsed(outcomes[1..], attempts - 1)
  }

  datatype Report<T> = Rejected | Finished(outcome: Outcome<T>)

  /** `_retry_registry_operation`: `outcomes[i]` is what call `i` would do. It returns the first
      outcome that is not retryable, or the last retryable error when the attempts are used up; the
      assertion after the loop in the source is never reached. */
  method RetryRegistryOperation<T>(outcomes: seq<Outcome<T>>, attempts: int, initial: real, maximum: real)
    returns (r: Report<T>, calls: nat, sleeps: seq<real>)
    requires |outcomes| >= attempts
    ensures r.Rejected? <==> !ValidSettings(attempts, initial, maximum)
    ensures r.Rejected? ==> calls == 0 && sleeps == []
    ensures r.Finished? ==>
              && calls == AttemptsUsed(outcomes, attempts)
              && r.outcome == outcomes[calls - 1]
              && |sleeps| == calls - 1
              && forall i :: 0 <= i < |sleeps| ==> sleeps[i] == RetryDelay(i, initial, maximum)
  {
    calls, sleeps := 0, [];
    if !ValidSettings(attempts, initial, maximum) {
      return Rejected, calls, sleeps;
    }
    for attempt := 0 to attempts
      invariant calls == attempt == |sleeps|
      invariant forall i :: 0 <= i < attempt ==> outcomes[i].RetryableError?
      invariant attempt < attempts
      invariant forall i :: 0 <= i < |sleeps| ==> sleeps[i] == RetryDelay(i, initial, maximum)
    {
      calls := calls + 1;
      var outcome := outcomes[attempt];
      if !outcome.RetryableError? || attempt == attempts - 1 {
        UsedUpTo(outcomes, attempts, attempt);
        return Finished(outcome), calls, sleeps;
      }
      sleeps := sleeps + [RetryDelay(attempt, initial, maximum)];
    }
    assert false;
    r := Rejected;
  }

  lemma {:induction false} UsedUpTo<T>(outcomes: seq<Outcome<T>>, attempts: nat, k: nat)
    requires 1 <= attempts <= |outcomes| && k < attempts
    requires forall i :: 0 <= i < k ==> outcomes[i].RetryableError?
    requires !outcomes[k].RetryableError? || k == attempts - 1
    ensures AttemptsUsed(outcomes, attempts) == k + 1
    decreases attempts
  {
    if k > 0 {
      assert outcomes[1..][k - 1] == outcomes[k];
      UsedUpTo(outcomes[1..], attempts - 1, k - 1);
    }
  }

  /** One verification subprocess: its return code and whether its error text counts as incomplete. */
  datatype Run = Run(code: int, incomplete: bool)

  function AsOutcome(run: Run): Outcome<int> {
    if run.code == 0 then Value(0) else if run.incomplete then RetryableError("") else FatalError("")
  }

  /** `wait_for_published`: zero exactly when the first run that is not incomplete succeeded. */
  method WaitForPublished(runs: seq<Run>, attempts: nat) returns (code: int, calls: nat)
    requires |runs| >= attempts
    ensures attempts == 0 ==> code == 1 && calls == 0
    ensures attempts > 0 ==>
              var outcomes := seq(|runs|, i requires 0 <= i < |runs| => AsOutcome(runs[i]));
              calls == AttemptsUsed(outcomes, attempts) && code == runs[calls - 1].code
  {
    calls := 0;
    ghost var outcomes := seq(|runs|, i requires 0 <= i < |runs| => AsOutcome(runs[i]));
    for attempt := 0 to attempts
      invariant calls == attempt
      invariant attempts > 0 ==> attempt < attempts
      invariant forall i :: 0 <= i < attempt ==> outcomes[i].RetryableError?
    {
      calls := calls + 1;
      var run := runs[attempt];
      if run.code == 0 {
        UsedUpTo(outcomes, attempts, attempt);
        return 0, calls;
      }
      if !run.incomplete || attempt == attempts - 1 {
        UsedUpTo(outcomes, attempts, attempt);
        return run.code, calls;
      }
    }
    code := 1;
  }

  // ---- The bound ------------------------------------------------------------------------------------

  function Sum(s: seq<real>): real {
    if s == [] then 0.0 else Sum(s[..|s| - 1]) + s[|s| - 1]
  }

  lemma {:induction false} FactorsGrow(i: nat, j: nat)
    requires i <= j
    ensures 0.0 <= Factor(i) <= Factor(j)
  {
    PowersGrow(Capped(i), Capped(j));
  }

  lemma {:induction false} Scale(x: real, a: real, b: real, m: real)
    requires 0.0 <= x <= m && 0.0 <= a <= b
    ensures 0.0 <= Least(x * a, m) <= Least(x * b, m) <= m
  {
    assert 0.0 <= x * a <= x * b;
  }

  lemma {:induction false} DelaysNeverShrink(i: nat, j: nat, initial: real, maximum: real)
    requires i <= j && 0.0 <= initial <= maximum
    ensures 0.0 <= RetryDelay(i, initial, maximum) <= RetryDelay(j, initial, maximum) <= maximum
  {
    hide Factor;
    FactorsGrow(i, j);
    Scale(initial, Factor(i), Factor(j), maximum);
  }

  lemma {:induction false} SumOfDelays(sleeps: seq<real>, initial: real, maximum: real)
    requires forall i :: 0 <= i < |sleeps| ==> sleeps[i] == RetryDelay(i, initial, maximum)
    ensures Sum(sleeps) == TotalDelay(|sleeps|, initial, maximum)
  {
    if sleeps != [] {
      SumOfDelays(sleeps[..|sleeps| - 1], initial, maximum);
    }
  }

  lemma {:induction false} TotalGrows(m: nat, n: nat, initial: real, maximum: real)
    requires m <= n && 0.0 <= initial <= maximum
    ensures TotalDelay(m, initial, maximum) <= TotalDelay(n, initial, maximum)
    decreases n
  {
    if m < n {
      TotalGrows(m, n - 1, initial, maximum);
      DelaysNeverShrink(n - 1, n - 1, initial, maximum);
    }
  }

  /** For every accepted setting, whatever the outcomes: the sleeps of a run never shrink and add up
      to at most sixty seconds. */
  lemma {:induction false} RunIsBounded(sleeps: seq<real>, attempts: int, initial: real, maximum: real)
    requires ValidSettings(attempts, initial, maximum) && |sleeps| < attempts
    requires forall i :: 0 <= i < |sleeps| ==> sleeps[i] == RetryDelay(i, initial, maximum)
    ensures Sum(sleeps) <= MAX_TOTAL_DELAY
    ensures forall i, j :: 0 <= i <= j < |sleeps| ==> sleeps[i] <= sleeps[j]
  {
    SumOfDelays(sleeps, initial, maximum);
    TotalGrows(|sleeps|, attempts - 1, initial, maximum);
    forall i, j | 0 <= i <= j < |sleeps| ensures sleeps[i] <= sleeps[j] {
      DelaysNeverShrink(i, j, initial, maximum);
    }
  }

  /** The defaults are accepted and use the budget up exactly: 2 + 4 + 8 + 16 + 30 seconds. */
  lemma {:induction false} DefaultsMeetTheBound()
    ensures TotalDelay(MAX_ATTEMPTS - 1, DEFAULT_INITIAL_DELAY, DEFAULT_MAX_DELAY) == MAX_TOTAL_DELAY
    ensures ValidSettings(MAX_ATTEMPTS, DEFAULT_INITIAL_DELAY, DEFAULT_MAX_DELAY)
  {
    assert Pow2(2) == 4;
    assert Pow2(4) == 16;
    assert RetryDelay(0, 2.0, 30.0) == 2.0 && RetryDelay(1, 2.0, 30.0) == 4.0 && RetryDelay(2, 2.0, 30.0) == 8.0;
    assert RetryDelay(3, 2.0, 30.0) == 16.0 && RetryDelay(4, 2.0, 30.0) == 30.0;
    assert TotalDelay(3, 2.0, 30.0) == 14.0;
  }
}
