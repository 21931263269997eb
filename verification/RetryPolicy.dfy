/** Attempts and backoff delays. */
module RetryPolicy {
  import opened Values

  datatype Strategy = Constant | Linear | Exponential

  /** Options as written by the user; every field may be missing. */
  datatype RetryOptions = RetryOptions(
    attempts: Option<int>, delayMs: Option<real>, backoffMs: Option<real>, strategy: Option<Strategy>)

  datatype Policy = Policy(maxAttempts: int, baseMs: real, strategy: Strategy)

  function Max(m: int, n: int): (r: int)
    ensures r >= m && r >= n && (r == m || r == n)
  {
    if m < n then n else m
  }

  function OrElse<T>(first: Option<T>, second: Option<T>): Option<T> {
    if first.Some? then first else second
  }

  /** The chains of `??` by which a step's options fall back on the defaults. */
  function Resolve(own: RetryOptions, defaults: RetryOptions): (p: Policy)
    ensures own.attempts.Some? ==> p.maxAttempts == Max(1, own.attempts.value)
    ensures own.attempts.None? && defaults.attempts.Some? ==> p.maxAttempts == Max(1, defaults.attempts.value)
    ensures own.attempts.None? && defaults.attempts.None? ==> p.maxAttempts == 1
    ensures own.delayMs.Some? ==> p.baseMs == own.delayMs.value
    ensures own.delayMs.None? && own.backoffMs.Some? ==> p.baseMs == own.backoffMs.value
    ensures own.delayMs.None? && own.backoffMs.None? ==>
              p.baseMs == if defaults.delayMs.Some? then defaults.delayMs.value
                          else if defaults.backoffMs.Some? then defaults.backoffMs.value else 0.0
    ensures own.strategy.Some? ==> p.strategy == own.strategy.value
    ensures own.strategy.None? ==> p.strategy == if defaults.strategy.Some? then defaults.strategy.value else Constant
  {
    var attempts := match OrElse(own.attempts, defaults.attempts) case Some(n) => n case None => 1;
    var base := OrElse(own.delayMs, OrElse(own.backoffMs, OrElse(defaults.delayMs, defaults.backoffMs)));
    Policy(
      if attempts > 1 then attempts else 1,
      match base case Some(ms) => ms case None => 0.0,
      match OrElse(own.strategy, defaults.strategy) case Some(s) => s case None => Constant)
  }

  function Pow2(n: nat): (r: nat)
    ensures r >= 1
  {
    if n == 0 then 1 else 2 * Pow2(n - 1)
  }

  function NormalizedBase(baseDelayMs: real): nat {
    if baseDelayMs.Floor > 0 then baseDelayMs.Floor else 0
  }

  function ResolveRetryDelayMs(baseDelayMs: real, strategy: Strategy, attempt: int): nat {
    var base := NormalizedBase(baseDelayMs);
    var n: nat := if attempt > 1 then attempt else 1;
    if base == 0 then 0
    else match strategy
      case Linear => base * n
      case Exponential => base * Pow2(n - 1)
      case Constant => base
  }

  function DelayMs(policy: Policy, attempt: int): nat {
    ResolveRetryDelayMs(policy.baseMs, policy.strategy, attempt)
  }

  /** Everything a step can ask to wait for over its life, one delay per failed attempt but the last. */
  function TotalDelay(baseDelayMs: real, strategy: Strategy, maxAttempts: int): nat
    decreases maxAttempts
  {
    if maxAttempts <= 1 then 0
    else
      TotalDelay(baseDelayMs, strategy, maxAttempts - 1) + ResolveRetryDelayMs(baseDelayMs, strategy, maxAttempts - 1)
  }

  /** n, n(n+1)/2 or 2^n - 1 times the base delay, after n failed attempts. */
  function DelayUnits(strategy: Strategy, n: nat): nat {
    match strategy
    case Constant => n
    case Linear => n * (n + 1) / 2
    case Exponential => Pow2(n) - 1
  }

  lemma {:induction false} TotalDelayClosedForm(baseDelayMs: real, strategy: Strategy, maxAttempts: int)
    requires maxAttempts >= 1
    ensures TotalDelay(baseDelayMs, strategy, maxAttempts)
         == NormalizedBase(baseDelayMs) * DelayUnits(strategy, maxAttempts - 1)
    decreases maxAttempts
  {
    var n := maxAttempts - 1;
    if n > 0 {
      TotalDelayClosedForm(baseDelayMs, strategy, n);
      NextDelayUnits(strategy, n);
      DelayInUnits(baseDelayMs, strategy, n);
      Distributes(NormalizedBase(baseDelayMs), DelayUnits(strategy, n - 1), UnitsAt(strategy, n));
    } else {
      Distributes(NormalizedBase(baseDelayMs), 0, 0);
    }
  }

  /** The base delays asked for after the `n`-th failed attempt. */
  function UnitsAt(strategy: Strategy, n: nat): nat
    requires n > 0
  {
    match strategy case Constant => 1 case Linear => n case Exponential => Pow2(n - 1)
  }

  lemma DelayInUnits(baseDelayMs: real, strategy: Strategy, n: nat)
    requires n > 0
    ensures ResolveRetryDelayMs(baseDelayMs, strategy, n) == NormalizedBase(baseDelayMs) * UnitsAt(strategy, n)
  {}

  lemma Distributes(b: int, m: int, n: int)
    ensures b * (m + n) == b * m + b * n
  {}

  lemma NextDelayUnits(strategy: Strategy, n: nat)
    requires n > 0
    ensures DelayUnits(strategy, n) == DelayUnits(strategy, n - 1) + UnitsAt(strategy, n)
  {
    if strategy.Linear? {
      Triangle(n);
    }
  }

  lemma Triangle(n: nat)
    requires n > 0
    ensures n * (n + 1) / 2 == (n - 1) * n / 2 + n
  {
    assert n * (n + 1) == (n - 1) * n + 2 * n;
  }

  lemma {:induction false} Pow2AtLeast(n: nat)
    ensures Pow2(n) >= n + 1
  {
    if n > 0 {
      Pow2AtLeast(n - 1);
    }
  }

  lemma Scale(b: nat, m: nat, n: nat)
    requires m <= n
    ensures b * m <= b * n
  {}

  lemma {:induction false} StrategiesAreOrdered(baseDelayMs: real, attempt: int)
    ensures ResolveRetryDelayMs(baseDelayMs, Constant, attempt)
         <= ResolveRetryDelayMs(baseDelayMs, Linear, attempt)
         <= ResolveRetryDelayMs(baseDelayMs, Exponential, attempt)
  {
    var b, n := NormalizedBase(baseDelayMs), if attempt > 1 then attempt else 1;
    Pow2AtLeast(n - 1);
    Scale(b, 1, n);
    Scale(b, n, Pow2(n - 1));
  }
}
