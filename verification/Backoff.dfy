/** Backoff arithmetic and the in-call retry loop (backend/app/ratelimit/backoff.py), over reals. */
module Backoff {
  import opened Wrappers

  // base, cap and jitter ratio of a retry ladder.
  datatype Ladder = Ladder(base: real, cap: real, jitter: real) {
    predicate NonNegative() { base >= 0.0 && cap >= 0.0 && jitter >= 0.0 }
  }

  function Pow2(n: nat): (p: real)
    ensures p >= 1.0
  {
    if n == 0 then 1.0 else Pow2(n - 1) + Pow2(n - 1)
  }

  function MinReal(a: real, b: real): real
  {
    if a <= b then a else b
  }

  // The capped exponential delay before jitter; attempts below 1 count as 1.
  function RawDelay(attempt: int, l: Ladder): real
  {
    MinReal(l.cap, l.base * Pow2(if attempt < 1 then 0 else attempt - 1))
  }

  // `raw` perturbed by up to the jitter ratio either way, as `rand` goes from 0 to 1.
  function Jittered(raw: real, jitter: real, rand: real): real
  {
    var delay := raw + raw * jitter * (2.0 * rand - 1.0);
    if delay <= 0.0 then 0.0 else delay
  }

  function ComputeBackoff(attempt: int, l: Ladder, rand: real): real
  {
    Jittered(RawDelay(attempt, l), l.jitter, rand)
  }

  function MaxBackoff(l: Ladder): real
  {
    l.cap + l.jitter * l.cap
  }

  lemma ScaleMonotone(factor: real, x: real, y: real)
    requires factor >= 0.0 && x <= y
    ensures factor * x <= factor * y
  {
    assert factor * (y - x) >= 0.0;
  }

  lemma JitterBounds(raw: real, cap: real, jitter: real, rand: real)
    requires 0.0 <= raw <= cap && jitter >= 0.0 && 0.0 <= rand <= 1.0
    ensures raw - jitter * raw <= Jittered(raw, jitter, rand) <= raw + jitter * raw <= cap + jitter * cap
    ensures 0.0 <= Jittered(raw, jitter, rand)
  {
    var amplitude, u := raw * jitter, 2.0 * rand - 1.0;
    ScaleMonotone(jitter, 0.0, raw);
    ScaleMonotone(jitter, raw, cap);
    assert amplitude == jitter * raw && jitter * raw <= jitter * cap;
    UnitScale(amplitude, u);
    assert Jittered(raw, jitter, rand) == var delay := raw + amplitude * u; if delay <= 0.0 then 0.0 else delay;
  }

  lemma UnitScale(amplitude: real, u: real)
    requires amplitude >= 0.0 && -1.0 <= u <= 1.0
    ensures -amplitude <= amplitude * u <= amplitude
  {
    ScaleMonotone(amplitude, u, 1.0);
    ScaleMonotone(amplitude, -1.0, u);
  }

  lemma RawDelayBounds(attempt: int, l: Ladder)
    requires l.NonNegative()
    ensures 0.0 <= RawDelay(attempt, l) <= l.cap
  {
    ScaleMonotone(l.base, 0.0, Pow2(if attempt < 1 then 0 else attempt - 1));
  }

  // The ladder: base first, then each delay is twice the one before, up to the cap.
  lemma RawDelayDoubles(attempt: nat, l: Ladder)
    requires l.NonNegative() && attempt >= 1
    ensures RawDelay(1, l) == RawDelay(0, l) == MinReal(l.cap, l.base)
    ensures RawDelay(attempt + 1, l) == MinReal(l.cap, RawDelay(attempt, l) + RawDelay(attempt, l))
  {
    assert Pow2(0) == 1.0;
    Distribute(l.base, Pow2(attempt - 1), Pow2(attempt - 1), Pow2(attempt));
  }

  // The jitter is symmetric and relative: a delay lies between (1 - j) and (1 + j) times the raw one,
  // is never negative, and never exceeds (1 + j) times the cap.
  lemma BackoffBounds(attempt: int, l: Ladder, rand: real)
    requires l.NonNegative() && 0.0 <= rand <= 1.0
    ensures var raw, delay := RawDelay(attempt, l), ComputeBackoff(attempt, l, rand);
            && 0.0 <= delay && raw - l.jitter * raw <= delay <= raw + l.jitter * raw
            && delay <= MaxBackoff(l)
  {
    RawDelayBounds(attempt, l);
    JitterBounds(RawDelay(attempt, l), l.cap, l.jitter, rand);
  }

  // ---- retry_async -------------------------------------------------------------------------------

  datatype Outcome<T> =
    | Returned(value: T)
    | RateLimited(retryAfter: Option<real>)
    | Transient
    | Fatal(message: string)
  {
    predicate Retryable() { RateLimited? || Transient? }
  }

  // The wait after the `attempt`-th failure: the server's Retry-After if it gave one.
  function Wait<T>(failure: Outcome<T>, attempt: nat, l: Ladder, rand: real): real
  {
    if failure.RateLimited? && failure.retryAfter.Some? then failure.retryAfter.value
    else ComputeBackoff(attempt, l, rand)
  }

  function Sum(term: nat -> real, n: nat): real
  {
    if n == 0 then 0.0 else Sum(term, n - 1) + term(n - 1)
  }

  function WaitTerm<T>(fn: nat -> Outcome<T>, l: Ladder, rand: nat -> real): nat -> real
  {
    (k: nat) => Wait(fn(k), k + 1, l, rand(k))
  }

  // All waits up to and including the one after the n-th failure.
  function TotalWait<T>(fn: nat -> Outcome<T>, n: nat, l: Ladder, rand: nat -> real): real
  {
    Sum(WaitTerm(fn, l, rand), n)
  }

  lemma JitterSpans(raw: real, jitter: real)
    requires 0.0 <= raw && 0.0 <= jitter * raw
    ensures Jittered(raw, jitter, 1.0) == raw + jitter * raw
    ensures Jittered(raw, jitter, 0.5) == raw
    ensures Jittered(raw, jitter, 0.0) == if jitter * raw <= raw then raw - jitter * raw else 0.0
  {
    var amplitude := raw * jitter;
    assert amplitude == jitter * raw;
    assert amplitude * 1.0 == amplitude && amplitude * 0.0 == 0.0 && amplitude * -1.0 == -amplitude;
    assert 2.0 * 1.0 - 1.0 == 1.0 && 2.0 * 0.5 - 1.0 == 0.0 && 2.0 * 0.0 - 1.0 == -1.0;
    assert Jittered(raw, jitter, 1.0) == var d := raw + amplitude; if d <= 0.0 then 0.0 else d;
    assert Jittered(raw, jitter, 0.5) == if raw <= 0.0 then 0.0 else raw;
    assert Jittered(raw, jitter, 0.0) == var d := raw - amplitude; if d <= 0.0 then 0.0 else d;
  }

  // The jitter takes the whole ratio: a draw of 1 lengthens the delay by it, 0 shortens it by as much
  // (down to nothing), and one half leaves it alone.
  lemma JitterSpansTheRatio(attempt: int, l: Ladder)
    requires l.NonNegative()
    ensures var raw := RawDelay(attempt, l);
            && ComputeBackoff(attempt, l, 1.0) == raw + l.jitter * raw
            && ComputeBackoff(attempt, l, 0.5) == raw
            && ComputeBackoff(attempt, l, 0.0) == if l.jitter * raw <= raw then raw - l.jitter * raw else 0.0
  {
    RawDelayBounds(attempt, l);
    ScaleMonotone(l.jitter, 0.0, RawDelay(attempt, l));
    JitterSpans(RawDelay(attempt, l), l.jitter);
  }

  // The ladder's raw delay for an attempt, give or take the jitter.
  predicate Jitters(attempt: int, l: Ladder, rand: real, delay: real)
  {
    l.NonNegative() && 0.0 <= rand <= 1.0 ==>
      var raw := RawDelay(attempt, l);
      && 0.0 <= delay && raw - l.jitter * raw <= delay <= raw + l.jitter * raw
      && (rand == 0.5 ==> delay == raw) && (rand == 1.0 ==> delay == raw + l.jitter * raw)
  }

  lemma BackoffJitters(attempt: int, l: Ladder, rand: real)
    ensures Jitters(attempt, l, rand, ComputeBackoff(attempt, l, rand))
  {
    if l.NonNegative() && 0.0 <= rand <= 1.0 {
      BackoffBounds(attempt, l, rand);
      JitterSpansTheRatio(attempt, l);
    }
  }

  // How long to sleep after the `attempt`-th failure: what the server asked for, else the ladder's delay.
  predicate SleepsAs<T>(failure: Outcome<T>, attempt: nat, l: Ladder, rand: real, sleep: real)
  {
    match failure
    case RateLimited(Some(asked)) => sleep == asked
    case _ => Jitters(attempt, l, rand, sleep)
  }

  function SumOf(xs: seq<real>): real
  {
    if xs == [] then 0.0 else SumOf(xs[..|xs| - 1]) + xs[|xs| - 1]
  }

  predicate AlwaysAsked<T>(fn: nat -> Outcome<T>, n: nat)
  {
    forall k | 0 <= k < n :: fn(k).RateLimited? && fn(k).retryAfter.Some?
  }

  function AskedFor<T>(fn: nat -> Outcome<T>, n: nat): seq<real>
    requires AlwaysAsked(fn, n)
  {
    seq(n, k requires 0 <= k < n && AlwaysAsked(fn, n) => fn(k).retryAfter.value)
  }

  // The sleeps after the first n failures, one by one.
  predicate SleptWell<T>(fn: nat -> Outcome<T>, n: nat, l: Ladder, rand: nat -> real, sleeps: seq<real>)
  {
    && |sleeps| == n
    && (forall k | 0 <= k < n :: SleepsAs(fn(k), k + 1, l, rand(k), sleeps[k]))
    && (AlwaysAsked(fn, n) ==> sleeps == AskedFor(fn, n))
  }

  function Firsts(term: nat -> real, n: nat): seq<real>
  {
    if n == 0 then [] else Firsts(term, n - 1) + [term(n - 1)]
  }

  lemma {:induction false} FirstsAt(term: nat -> real, n: nat)
    ensures |Firsts(term, n)| == n && forall k | 0 <= k < n :: Firsts(term, n)[k] == term(k)
  {
    if n > 0 { FirstsAt(term, n - 1); }
  }

  lemma SumOfMore(xs: seq<real>, x: real)
    ensures SumOf(xs + [x]) == SumOf(xs) + x
  {
    assert (xs + [x])[..|xs|] == xs;
  }

  lemma {:induction false} FirstsSum(term: nat -> real, n: nat)
    ensures SumOf(Firsts(term, n)) == Sum(term, n)
  {
    if n > 0 {
      FirstsSum(term, n - 1);
      SumOfMore(Firsts(term, n - 1), term(n - 1));
    }
  }

  lemma WaitSleeps<T>(fn: nat -> Outcome<T>, k: nat, l: Ladder, rand: nat -> real, sleep: real)
    requires sleep == WaitTerm(fn, l, rand)(k)
    ensures SleepsAs(fn(k), k + 1, l, rand(k), sleep)
  {
    BackoffJitters(k + 1, l, rand(k));
  }

  lemma {:induction false} AskedAreSlept<T>(fn: nat -> Outcome<T>, n: nat, l: Ladder, rand: nat -> real)
    requires AlwaysAsked(fn, n)
    ensures Firsts(WaitTerm(fn, l, rand), n) == AskedFor(fn, n)
  {
    if n > 0 {
      AskedAreSlept(fn, n - 1, l, rand);
      assert AskedFor(fn, n) == AskedFor(fn, n - 1) + [fn(n - 1).retryAfter.value];
    }
  }

  lemma WaitsAreSlept<T>(fn: nat -> Outcome<T>, n: nat, l: Ladder, rand: nat -> real, sleeps: seq<real>)
    requires sleeps == Firsts(WaitTerm(fn, l, rand), n)
    ensures SleptWell(fn, n, l, rand, sleeps) && SumOf(sleeps) == TotalWait(fn, n, l, rand)
  {
    FirstsAt(WaitTerm(fn, l, rand), n);
    FirstsSum(WaitTerm(fn, l, rand), n);
    forall k | 0 <= k < n
      ensures SleepsAs(fn(k), k + 1, l, rand(k), sleeps[k])
    {
      WaitSleeps(fn, k, l, rand, sleeps[k]);
    }
    if AlwaysAsked(fn, n) { AskedAreSlept(fn, n, l, rand); }
  }

  // The loop: `fn(k)` is what the k-th call (from 0) does, `wait(k)` how long to sleep after it.
  method RetryLoop<T>(fn: nat -> Outcome<T>, maxAttempts: int, wait: nat -> real)
    returns (result: Outcome<T>, calls: nat, slept: real, sleeps: seq<real>)
    ensures 1 <= calls && (maxAttempts >= 1 ==> calls <= maxAttempts) && (maxAttempts < 1 ==> calls == 1)
    ensures forall k | 0 <= k < calls - 1 :: fn(k).Retryable()
    ensures result == fn(calls - 1)
    ensures result.Retryable() ==> calls >= maxAttempts
    ensures sleeps == Firsts(wait, calls - 1) && slept == Sum(wait, calls - 1)
  {
    var attempt: nat := 0;
    slept, sleeps := 0.0, [];
    while true
      invariant 0 <= attempt && (attempt > 0 ==> attempt < maxAttempts)
      invariant forall k | 0 <= k < attempt :: fn(k).Retryable()
      invariant sleeps == Firsts(wait, attempt) && slept == Sum(wait, attempt)
      decreases maxAttempts - attempt
    {
      result := fn(attempt);
      calls := attempt + 1;
      if !result.Retryable() { return; }
      attempt := attempt + 1;
      if attempt >= maxAttempts { return; }
      slept, sleeps := slept + wait(attempt - 1), sleeps + [wait(attempt - 1)];
    }
  }

  // `retry_async`, with `rand(k)` the k-th random draw.  If every failure carries a Retry-After, those
  // and nothing else are slept.
  method RetryAsync<T>(fn: nat -> Outcome<T>, maxAttempts: int, l: Ladder, rand: nat -> real)
    returns (result: Outcome<T>, calls: nat, slept: real, sleeps: seq<real>)
    ensures 1 <= calls && (maxAttempts >= 1 ==> calls <= maxAttempts) && (maxAttempts < 1 ==> calls == 1)
    ensures forall k | 0 <= k < calls - 1 :: fn(k).Retryable()
    ensures result == fn(calls - 1)
    ensures result.Retryable() ==> calls >= maxAttempts
    ensures slept == SumOf(sleeps) && SleptWell(fn, calls - 1, l, rand, sleeps)
    ensures AlwaysAsked(fn, calls - 1) ==> slept == SumOf(AskedFor(fn, calls - 1))
    ensures slept == TotalWait(fn, calls - 1, l, rand)
  {
    result, calls, slept, sleeps := RetryLoop(fn, maxAttempts, WaitTerm(fn, l, rand));
    WaitsAreSlept(fn, calls - 1, l, rand, sleeps);
  }

  predicate NoRetryAfter<T>(fn: nat -> Outcome<T>, n: nat)
  {
    forall k | 0 <= k < n :: fn(k).RateLimited? ==> fn(k).retryAfter.None?
  }

  function RawTerm(l: Ladder): nat -> real
  {
    (k: nat) => RawDelay(k + 1, l)
  }

  // The raw delays after the first n failures.
  function RawTotal(n: nat, l: Ladder): real
  {
    Sum(RawTerm(l), n)
  }

  // n raw delays last at most n caps and at most the geometric sum.
  function RawBound(n: nat, l: Ladder): real
  {
    MinReal(l.cap * n as real, l.base * (Pow2(n) - 1.0))
  }

  lemma Distribute(factor: real, x: real, y: real, z: real)
    requires x + y == z
    ensures factor * x + factor * y == factor * z
  {}

  lemma RawBoundGrowsBy(n: nat, l: Ladder)
    requires n > 0
    ensures RawBound(n - 1, l) + RawDelay(n, l) <= RawBound(n, l)
  {
    Distribute(l.cap, (n - 1) as real, 1.0, n as real);
    Distribute(l.base, Pow2(n - 1) - 1.0, Pow2(n - 1), Pow2(n) - 1.0);
  }

  lemma {:induction false} RawTotalBounds(n: nat, l: Ladder)
    requires l.NonNegative()
    ensures 0.0 <= RawTotal(n, l) <= RawBound(n, l)
  {
    if n > 0 {
      RawTotalBounds(n - 1, l);
      RawDelayBounds(n, l);
      RawBoundGrowsBy(n, l);
    }
  }

  lemma AddScaled(factor: real, s: real, x: real, t: real, y: real)
    requires s <= x + factor * x && t <= y + factor * y
    ensures s + t <= (x + y) + factor * (x + y)
  {}

  predicate Scaled(t: real, raw: real, factor: real)
  {
    0.0 <= t <= raw + factor * raw
  }

  lemma {:induction false} SumScaled(term: nat -> real, raw: nat -> real, n: nat, factor: real)
    requires forall k | 0 <= k < n :: Scaled(term(k), raw(k), factor)
    ensures 0.0 <= Sum(term, n) <= Sum(raw, n) + factor * Sum(raw, n)
  {
    if n > 0 {
      SumScaled(term, raw, n - 1, factor);
      AddScaled(factor, Sum(term, n - 1), Sum(raw, n - 1), term(n - 1), raw(n - 1));
    }
  }

  lemma OneWaitIsJittered<T>(fn: nat -> Outcome<T>, k: nat, l: Ladder, rand: nat -> real)
    requires l.NonNegative() && NoRetryAfter(fn, k + 1) && 0.0 <= rand(k) <= 1.0
    ensures Scaled(WaitTerm(fn, l, rand)(k), RawTerm(l)(k), l.jitter)
  {
    BackoffBounds(k + 1, l, rand(k));
  }

  lemma TotalWaitIsJittered<T>(fn: nat -> Outcome<T>, n: nat, l: Ladder, rand: nat -> real)
    requires l.NonNegative() && NoRetryAfter(fn, n)
    requires forall k | 0 <= k < n :: 0.0 <= rand(k) <= 1.0
    ensures 0.0 <= TotalWait(fn, n, l, rand) <= RawTotal(n, l) + l.jitter * RawTotal(n, l)
  {
    var term, raw := WaitTerm(fn, l, rand), RawTerm(l);
    forall k | 0 <= k < n
      ensures Scaled(term(k), raw(k), l.jitter)
    {
      OneWaitIsJittered(fn, k, l, rand);
    }
    SumScaled(term, raw, n, l.jitter);
  }

  lemma {:induction false} RawBoundGrows(a: nat, b: nat, l: Ladder)
    requires a <= b && l.NonNegative()
    ensures RawBound(a, l) <= RawBound(b, l)
    decreases b - a
  {
    if a < b {
      RawDelayBounds(a + 1, l);
      RawBoundGrowsBy(a + 1, l);
      RawBoundGrows(a + 1, b, l);
    }
  }

  lemma RawWithinBound(n: nat, m: nat, l: Ladder)
    requires l.NonNegative() && n <= m
    ensures 0.0 <= RawTotal(n, l) <= RawBound(m, l)
  {
    RawTotalBounds(n, l);
    RawBoundGrows(n, m, l);
  }

  lemma StretchBounds(t: real, raw: real, bound: real, factor: real)
    requires 0.0 <= t <= raw + factor * raw && raw <= bound && factor >= 0.0
    ensures 0.0 <= t <= bound + factor * bound
  {
    ScaleMonotone(factor, raw, bound);
    assert factor * raw <= factor * bound;
  }

  // What a caller of `retry_async` relies on: without a Retry-After, the waits over all the calls it
  // may make with m attempts last at most (1 + j) * min((m - 1) * cap, base * (2^(m-1) - 1)).
  lemma RetryWaitBound<T>(fn: nat -> Outcome<T>, calls: nat, m: nat, l: Ladder, rand: nat -> real)
    requires l.NonNegative() && 1 <= calls <= m && NoRetryAfter(fn, calls - 1)
    requires forall k | 0 <= k < calls :: 0.0 <= rand(k) <= 1.0
    ensures 0.0 <= TotalWait(fn, calls - 1, l, rand) <= RawBound(m - 1, l) + l.jitter * RawBound(m - 1, l)
  {
    TotalWaitIsJittered(fn, calls - 1, l, rand);
    RawWithinBound(calls - 1, m - 1, l);
    StretchBounds(TotalWait(fn, calls - 1, l, rand), RawTotal(calls - 1, l), RawBound(m - 1, l), l.jitter);
  }
}
