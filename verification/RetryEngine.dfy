/**
 Retry policies and their delays (packages/shared/src/retry/retry-engine.ts). JavaScript
 numbers are modelled as reals; NaN, the infinities and rounding are not modelled.
 */
module RetryEngine {
  import opened Types
  import opened Sequences

  const MAX_DELAY_MS := 300000.0
  const MIN_BASE_DELAY := 100.0
  const MAX_BASE_DELAY := 300000.0
  const MIN_MAX_ATTEMPTS := 1.0
  const MAX_MAX_ATTEMPTS := 10.0

  predicate IsInteger(x: real) {
    x.Floor as real == x
  }

  ghost predicate Validated(p: RetryPolicy) {
    && !p.strategy.Unknown?
    && p.maxAttempts in {1.0, 2.0, 3.0, 4.0, 5.0, 6.0, 7.0, 8.0, 9.0, 10.0}
    && 100.0 <= p.baseDelay <= 300000.0
  }

  datatype PolicyField = StrategyField | MaxAttemptsField | BaseDelayField

  /** The offending fields; messages and values are left out. */
  method ValidateRetryPolicy(policy: RetryPolicy) returns (errors: seq<PolicyField>)
    ensures errors == [] <==> Validated(policy)
    ensures NoDuplicates(errors)
    ensures StrategyField in errors <==> policy.strategy.Unknown?
    ensures MaxAttemptsField in errors <==>
              policy.maxAttempts !in {1.0, 2.0, 3.0, 4.0, 5.0, 6.0, 7.0, 8.0, 9.0, 10.0}
    ensures BaseDelayField in errors <==> !(100.0 <= policy.baseDelay <= 300000.0)
  {
    errors := [];
    if policy.strategy !in [Fixed, Exponential, Linear] {
      errors := errors + [StrategyField];
    }
    if !IsInteger(policy.maxAttempts)
       || policy.maxAttempts < MIN_MAX_ATTEMPTS || policy.maxAttempts > MAX_MAX_ATTEMPTS
    {
      errors := errors + [MaxAttemptsField];
    }
    if policy.baseDelay < MIN_BASE_DELAY || policy.baseDelay > MAX_BASE_DELAY {
      errors := errors + [BaseDelayField];
    }
  }

  function Pow2(n: nat): real {
    if n == 0 then 1.0 else 2.0 * Pow2(n - 1)
  }

  /** `Math.min(base * factor, MAX_DELAY_MS)`. */
  function Capped(base: real, factor: real): real {
    if base * factor <= MAX_DELAY_MS then base * factor else MAX_DELAY_MS
  }

  /** None stands for `undefined`, which the switch yields on an unknown strategy. */
  function CalculateRetryDelay(policy: RetryPolicy, attemptNumber: nat): Option<real>
    requires attemptNumber >= 1
  {
    match policy.strategy
    case Fixed => Some(policy.baseDelay)
    case Exponential => Some(Capped(policy.baseDelay, Pow2(attemptNumber - 1)))
    case Linear => Some(Capped(policy.baseDelay, attemptNumber as real))
    case Unknown(_) => None
  }

  predicate ShouldRetry(policy: RetryPolicy, currentAttempt: nat) {
    currentAttempt as real < policy.maxAttempts
  }

  lemma {:induction false} Pow2Grows(n: nat)
    ensures Pow2(n + 1) >= Pow2(n) >= (n + 1) as real
    ensures Pow2(n) >= 1.0
  {
    if n > 0 {
      Pow2Grows(n - 1);
    }
  }

  /** Every delay of a validated policy is between 100 and 300000 ms and none is shorter than the one before. */
  lemma DelaysAreBounded(policy: RetryPolicy, n: nat)
    requires Validated(policy) && n >= 1
    ensures var d, next := CalculateRetryDelay(policy, n), CalculateRetryDelay(policy, n + 1);
            d.Some? && next.Some? && 100.0 <= d.value <= next.value <= 300000.0
  {
    var b := policy.baseDelay;
    Pow2Grows(n - 1);
    Pow2Grows(n);
    if policy.strategy == Exponential {
      CappedGrows(b, Pow2(n - 1), Pow2(n));
      CappedAtLeast(b, Pow2(n - 1));
    } else if policy.strategy == Linear {
      CappedGrows(b, n as real, (n + 1) as real);
      CappedAtLeast(b, n as real);
    }
  }

  function Min(x: real, y: real): real {
    if x <= y then x else y
  }

  /** The first delay is the base delay; then it stays, grows by the base delay, or doubles, up to 300000 ms. */
  lemma DelaysGrowByTheStrategy(policy: RetryPolicy, n: nat)
    requires Validated(policy) && n >= 1
    ensures CalculateRetryDelay(policy, 1) == Some(policy.baseDelay)
    ensures CalculateRetryDelay(policy, n).Some?
    ensures var delay, next := CalculateRetryDelay(policy, n).value, CalculateRetryDelay(policy, n + 1);
            match policy.strategy
            case Fixed => next == Some(delay)
            case Linear => next == Some(Min(delay + policy.baseDelay, 300000.0))
            case Exponential => next == Some(Min(2.0 * delay, 300000.0))
            case Unknown(_) => false
  {
    var b := policy.baseDelay;
    assert Pow2(0) == 1.0;
    if policy.strategy == Exponential {
      Pow2Grows(n - 1);
      Doubles(b, Pow2(n - 1));
    } else if policy.strategy == Linear {
      GrowsByBase(b, n as real);
    }
  }

  lemma Doubles(base: real, x: real)
    requires 0.0 <= base && 1.0 <= x
    ensures Capped(base, 2.0 * x) == Min(2.0 * Capped(base, x), 300000.0)
  {
    assert base * (2.0 * x) == 2.0 * (base * x);
  }

  lemma GrowsByBase(base: real, x: real)
    requires 0.0 <= base
    ensures Capped(base, x + 1.0) == Min(Capped(base, x) + base, 300000.0)
  {
    assert base * (x + 1.0) == base * x + base;
  }

  lemma CappedGrows(base: real, x: real, y: real)
    requires 0.0 <= base && x <= y
    ensures Capped(base, x) <= Capped(base, y) <= MAX_DELAY_MS
  {
    assert base * x <= base * y;
  }

  lemma CappedAtLeast(base: real, x: real)
    requires 0.0 <= base <= MAX_DELAY_MS && 1.0 <= x
    ensures base <= Capped(base, x)
  {
    CappedGrows(base, 1.0, x);
  }

  /** At the same base delay: fixed, then linear, then exponential. */
  lemma StrategiesAreOrdered(policy: RetryPolicy, n: nat)
    requires Validated(policy) && n >= 1
    ensures var m, b := policy.maxAttempts, policy.baseDelay;
            CalculateRetryDelay(RetryPolicy(Fixed, m, b), n).value
              <= CalculateRetryDelay(RetryPolicy(Linear, m, b), n).value
              <= CalculateRetryDelay(RetryPolicy(Exponential, m, b), n).value
  {
    Pow2Grows(n - 1);
    CappedAtLeast(policy.baseDelay, n as real);
    CappedGrows(policy.baseDelay, n as real, Pow2(n - 1));
  }

  /** The backoffs after failed attempts 1 to k. */
  function TotalBackoff(policy: RetryPolicy, k: nat): real {
    if k == 0 then 0.0 else
      var d := CalculateRetryDelay(policy, k);
      TotalBackoff(policy, k - 1) + (if d.Some? then d.value else 0.0)
  }

  /** A whole lifecycle backs off after every attempt but the last. */
  lemma {:induction false} LifecycleBackoffIsBounded(policy: RetryPolicy, k: nat)
    requires Validated(policy) && (k == 0 || ShouldRetry(policy, k))
    ensures TotalBackoff(policy, k) <= k as real * 300000.0 <= (policy.maxAttempts - 1.0) * 300000.0
  {
    if k > 0 {
      assert ShouldRetry(policy, k - 1);
      LifecycleBackoffIsBounded(policy, k - 1);
      DelaysAreBounded(policy, k);
    }
  }
}
