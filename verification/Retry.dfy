/** Bounded retry with jittered exponential backoff, over the reals. */
module Retry {
  import opened Common

  function Pow2(n: nat): (p: real)
    ensures p >= 1.0
  {
    if n == 0 then 1.0 else 2.0 * Pow2(n - 1)
  }

  function RMin(a: real, b: real): real {
    if a <= b then a else b
  }

  function RMax(a: real, b: real): real {
    if a <= b then b else a
  }

  /** A product with a name, so that a proof can take it as one number. */
  function Times(x: real, y: real): real {
    x * y
  }

  lemma TimesIs(x: real, y: real)
    ensures Times(x, y) == x * y
  {
  }

  lemma Ordered(x: real, y: real, k: real)
    requires 0.0 <= x <= y && 0.0 <= k
    ensures 0.0 <= Times(x, k) <= Times(y, k)
    ensures 0.0 <= Times(k, x) <= Times(k, y)
  {
    assert (y - x) * k >= 0.0;
    assert (y - x) * k == y * k - x * k;
  }

  lemma Distribute(a: real, x: real, y: real)
    ensures Times(a, x - y) == Times(a, x) - Times(a, y)
    ensures Times(a, x + y) == Times(a, x) + Times(a, y)
    ensures Times(x + y, a) == Times(x, a) + Times(y, a)
  {
  }

  lemma Associate(a: real, x: real, y: real)
    ensures Times(Times(a, x), y) == Times(a, Times(x, y))
    ensures Times(a, x) == Times(x, a)
  {
    assert a * x * y == a * (x * y);
  }

  lemma Units(a: real)
    ensures Times(a, 1.0) == Times(1.0, a) == a && Times(0.0, a) == 0.0
  {
  }

  datatype Policy = Policy(base: real, cap: real, jitterRatio: real) {
    /** The parameter checks, in the order the code raises them. */
    predicate Valid() {
      0.0 < base <= cap && 0.0 <= jitterRatio <= 1.0
    }
  }

  function Raw(policy: Policy, attempt: nat): real
    requires attempt >= 1
  {
    RMin(policy.cap, Times(policy.base, Pow2(attempt - 1)))
  }

  /** The delay before the next delivery; `None` where the code raises ValueError. */
  function BackoffSeconds(attempt: int, policy: Policy, sample: real): Option<real>
  {
    if attempt < 1 || !policy.Valid() || !(0.0 <= sample <= 1.0) then None
    else
      var raw := Raw(policy, attempt);
      Some(Jittered(raw, policy.jitterRatio, sample * 2.0 - 1.0, policy.cap))
  }

  function RetryExhausted(attempt: int, maxAttempts: int): Option<bool>
  {
    if attempt < 1 || maxAttempts < 1 then None else Some(attempt >= maxAttempts)
  }

  /** Exactly where the two functions raise, and which attempt is the last. */
  lemma RetryRaises(attempt: int, maxAttempts: int, policy: Policy, sample: real)
    ensures BackoffSeconds(attempt, policy, sample).None? <==>
      || attempt < 1 || policy.base <= 0.0 || policy.cap <= 0.0 || policy.cap < policy.base
      || policy.jitterRatio < 0.0 || policy.jitterRatio > 1.0 || sample < 0.0 || sample > 1.0
    ensures RetryExhausted(attempt, maxAttempts).None? <==> attempt < 1 || maxAttempts < 1
    ensures RetryExhausted(attempt, maxAttempts) == Some(true) <==> 1 <= maxAttempts <= attempt
  {
    hide Jittered;
  }

  /** What clamping does to a delay known to lie between two bounds. */
  lemma ClampBounds(low: real, raw: real, scaled: real, high: real, cap: real)
    requires 0.0 <= low <= scaled <= high && low <= raw <= cap
    ensures var delay := RMax(0.0, RMin(cap, scaled));
      && delay == RMin(cap, scaled)
      && low <= delay <= RMin(cap, high)
      && 0.0 <= delay <= cap
  {
  }

  /** The clamped, jittered delay, as the code computes it from the raw one. */
  function Jittered(raw: real, r: real, t: real, cap: real): real {
    RMax(0.0, RMin(cap, raw + Times(Times(raw, r), t)))
  }

  lemma UnitScaled(w: real, t: real)
    requires 0.0 <= w && -1.0 <= t <= 1.0
    ensures -w <= Times(w, t) <= w
  {
    hide Times;
    Ordered(0.0, 1.0 - t, w);
    Ordered(0.0, 1.0 + t, w);
    Distribute(w, 1.0, t);
    Units(w);
  }

  lemma JitterBounds(raw: real, r: real, t: real)
    requires 0.0 < raw && 0.0 <= r <= 1.0 && -1.0 <= t <= 1.0
    ensures -Times(raw, r) <= Times(Times(raw, r), t) <= Times(raw, r)
    ensures 0.0 <= Times(raw, r) <= raw
  {
    hide Times;
    Ordered(0.0, r, raw);
    Ordered(r, 1.0, raw);
    Units(raw);
    UnitScaled(Times(raw, r), t);
  }

  lemma JitteredBounds(raw: real, r: real, t: real, cap: real)
    requires 0.0 < raw <= cap && 0.0 <= r <= 1.0 && -1.0 <= t <= 1.0
    ensures Times(raw, 1.0 - r) <= Jittered(raw, r, t, cap) <= RMin(cap, Times(raw, 1.0 + r))
    ensures 0.0 <= Jittered(raw, r, t, cap) <= cap
  {
    hide Times;
    JitterBounds(raw, r, t);
    Distribute(raw, 1.0, r);
    Units(raw);
    var w := Times(raw, r);
    ClampBounds(raw - w, raw, raw + Times(w, t), raw + w, cap);
  }

  lemma JitterScales(raw: real, r: real, t: real)
    ensures raw + Times(Times(raw, r), t) == Times(raw, 1.0 + Times(r, t))
  {
    hide Times;
    Associate(raw, r, t);
    Distribute(raw, 1.0, Times(r, t));
    Units(raw);
  }

  lemma JitteredMonotone(raw: real, raw': real, r: real, t: real, cap: real)
    requires 0.0 < raw <= raw' && 0.0 <= r <= 1.0 && -1.0 <= t <= 1.0
    ensures Jittered(raw, r, t, cap) <= Jittered(raw', r, t, cap)
  {
    hide Times;
    UnitScaled(r, t);
    JitterScales(raw, r, t);
    JitterScales(raw', r, t);
    Ordered(raw, raw', 1.0 + Times(r, t));
  }

  /** A valid call never raises, and its delay is the raw delay within the jitter, under the cap. */
  lemma BackoffBounds(attempt: nat, policy: Policy, sample: real)
    requires attempt >= 1 && policy.Valid() && 0.0 <= sample <= 1.0
    ensures var raw, delay := Raw(policy, attempt), BackoffSeconds(attempt, policy, sample);
      && delay.Some?
      && Times(raw, 1.0 - policy.jitterRatio) <= delay.value
      && delay.value <= RMin(policy.cap, Times(raw, 1.0 + policy.jitterRatio))
      && 0.0 <= delay.value <= policy.cap
  {
    hide Times;
    RawMonotone(policy, attempt, attempt);
    JitteredBounds(Raw(policy, attempt), policy.jitterRatio, sample * 2.0 - 1.0, policy.cap);
  }

  lemma Doubling(base: real, n: nat)
    requires 0.0 < base
    ensures Times(base, Pow2(n + 1)) == Times(base, Pow2(n)) + Times(base, Pow2(n))
    ensures 0.0 < base <= Times(base, Pow2(n))
  {
    hide Times;
    Distribute(base, Pow2(n), Pow2(n));
    Ordered(1.0, Pow2(n), base);
    Units(base);
  }

  lemma {:induction false} RawMonotone(policy: Policy, attempt: nat, later: nat)
    requires policy.Valid() && 1 <= attempt <= later
    ensures 0.0 < Raw(policy, attempt) <= Raw(policy, later)
  {
    hide Times, Pow2;
    Doubling(policy.base, attempt - 1);
    if attempt < later {
      RawMonotone(policy, attempt, later - 1);
      Doubling(policy.base, later - 2);
    }
  }

  /** With the same random sample, a later attempt never waits less. */
  lemma BackoffMonotone(attempt: nat, later: nat, policy: Policy, sample: real)
    requires 1 <= attempt <= later && policy.Valid() && 0.0 <= sample <= 1.0
    ensures BackoffSeconds(attempt, policy, sample).value <= BackoffSeconds(later, policy, sample).value
  {
    hide Times;
    RawMonotone(policy, attempt, later);
    JitteredMonotone(Raw(policy, attempt), Raw(policy, later), policy.jitterRatio, sample * 2.0 - 1.0, policy.cap);
  }

  /** The delay that `attempt` doublings of the base, less one, come to under the cap. */
  function Middle(policy: Policy, attempt: nat): real
    requires attempt >= 1
  {
    if policy.cap <= Doubled(policy.base, attempt - 1) then policy.cap else Doubled(policy.base, attempt - 1)
  }

  lemma {:induction false} RawIsMiddle(policy: Policy, attempt: nat)
    requires policy.Valid() && attempt >= 1
    ensures Raw(policy, attempt) == Middle(policy, attempt)
  {
    DoubledIsPow2(policy.base, attempt - 1);
    TimesIs(policy.base, Pow2(attempt - 1));
  }

  /** The point at `sample` on the way from `low` to `high`. */
  function Between(low: real, high: real, sample: real): real {
    low + Times(sample, high - low)
  }

  /**
   Every delay exactly: the sample interpolates linearly between the middle less its jitter
   and the middle plus its jitter, and the cap cuts it off.
   */
  lemma {:induction false} DelayInterpolates(attempt: nat, policy: Policy, sample: real)
    requires attempt >= 1 && policy.Valid() && 0.0 <= sample <= 1.0
    ensures var m, r := Middle(policy, attempt), policy.jitterRatio;
      var delay := Between(Times(m, 1.0 - r), Times(m, 1.0 + r), sample);
      BackoffSeconds(attempt, policy, sample) == Some(if policy.cap <= delay then policy.cap else delay)
  {
    hide Middle, Raw, Times, Between;
    RawIsMiddle(policy, attempt);
    RawMonotone(policy, attempt, attempt);
    var m, r := Middle(policy, attempt), policy.jitterRatio;
    JitterBounds(m, r, sample * 2.0 - 1.0);
    JitterLine(m, r, sample);
  }

  /** The jitter term and the straight line are the same number. */
  lemma JitterLine(m: real, r: real, sample: real)
    ensures Between(Times(m, 1.0 - r), Times(m, 1.0 + r), sample) == m + Times(Times(m, r), sample * 2.0 - 1.0)
  {
    hide Times;
    var w := Times(m, r);
    Distribute(m, 1.0, r);
    Units(m);
    assert Times(m, 1.0 + r) - Times(m, 1.0 - r) == w + w;
    Distribute(sample, w, w);
    Associate(sample, w, 0.0);
    Associate(w, sample, 0.0);
    Distribute(w, sample + sample, 1.0);
    Distribute(w, sample, sample);
    Units(w);
  }

  /**
   What the samples 1/2, 0 and 1 give, and how the middle grows: it is the base at first and
   doubles from one attempt to the next until it meets the cap.
   */
  lemma {:induction false} BackoffDoubles(attempt: nat, policy: Policy)
    requires attempt >= 1 && policy.Valid()
    ensures var m, r := Middle(policy, attempt), policy.jitterRatio;
      && BackoffSeconds(attempt, policy, 0.5) == Some(m)
      && BackoffSeconds(attempt, policy, 0.0) == Some(Times(m, 1.0 - r))
      && BackoffSeconds(attempt, policy, 1.0) == Some(if policy.cap <= Times(m, 1.0 + r) then policy.cap else Times(m, 1.0 + r))
    ensures BackoffSeconds(1, policy, 0.5) == Some(policy.base)
    ensures var m := BackoffSeconds(attempt, policy, 0.5).value;
      BackoffSeconds(attempt + 1, policy, 0.5) == Some(if policy.cap <= m + m then policy.cap else m + m)
  {
    hide BackoffSeconds, Times;
    MiddleSample(attempt, policy);
    MiddleSample(attempt + 1, policy);
    MiddleSample(1, policy);
    EndSamples(attempt, policy);
    DoubledMonotone(policy.base, 0, attempt - 1);
  }

  lemma {:induction false} MiddleSample(attempt: nat, policy: Policy)
    requires attempt >= 1 && policy.Valid()
    ensures BackoffSeconds(attempt, policy, 0.5) == Some(Middle(policy, attempt))
  {
    hide BackoffSeconds, Times, Between;
    var m, r := Middle(policy, attempt), policy.jitterRatio;
    DelayInterpolates(attempt, policy, 0.5);
    JitterLine(m, r, 0.5);
    Associate(0.0, Times(m, r), 0.0);
    Units(Times(m, r));
  }

  lemma {:induction false} EndSamples(attempt: nat, policy: Policy)
    requires attempt >= 1 && policy.Valid()
    ensures var m, r := Middle(policy, attempt), policy.jitterRatio;
      && BackoffSeconds(attempt, policy, 0.0) == Some(Times(m, 1.0 - r))
      && BackoffSeconds(attempt, policy, 1.0) == Some(if policy.cap <= Times(m, 1.0 + r) then policy.cap else Times(m, 1.0 + r))
  {
    hide BackoffSeconds, Times, Middle;
    DelayInterpolates(attempt, policy, 0.0);
    DelayInterpolates(attempt, policy, 1.0);
    var m, r := Middle(policy, attempt), policy.jitterRatio;
    RawIsMiddle(policy, attempt);
    RawMonotone(policy, attempt, attempt);
    hide Raw;
    JitterBounds(m, r, 0.0);
    Distribute(m, 1.0, r);
    Units(m);
    Units(Times(m, 1.0 + r) - Times(m, 1.0 - r));
  }

  function Sum(delays: seq<real>): real {
    if delays == [] then 0.0 else Sum(delays[..|delays| - 1]) + delays[|delays| - 1]
  }

  lemma {:induction false} SumCapped(delays: seq<real>, cap: real)
    requires forall i | 0 <= i < |delays| :: delays[i] <= cap
    ensures Sum(delays) <= Times(|delays| as real, cap)
  {
    hide Times;
    Units(cap);
    if delays != [] {
      SumCapped(delays[..|delays| - 1], cap);
      Distribute(cap, (|delays| - 1) as real, 1.0);
    }
  }

  ghost predicate AtMostScaled(delay: real, k: real, raw: real) {
    delay <= Times(k, raw)
  }

  lemma {:induction false} SumScaled(delays: seq<real>, raws: seq<real>, k: real)
    requires |raws| == |delays|
    requires forall i | 0 <= i < |delays| :: AtMostScaled(delays[i], k, raws[i])
    ensures AtMostScaled(Sum(delays), k, Sum(raws))
  {
    hide Times;
    Units(k);
    Associate(k, 0.0, 0.0);
    if delays != [] {
      var n := |delays| - 1;
      SumScaled(delays[..n], raws[..n], k);
      Distribute(k, Sum(raws[..n]), raws[n]);
    }
  }

  function Doubled(base: real, n: nat): real {
    if n == 0 then base else 2.0 * Doubled(base, n - 1)
  }

  lemma {:induction false} DoubledIsPow2(base: real, n: nat)
    ensures Doubled(base, n) == base * Pow2(n)
  {
    if n > 0 {
      DoubledIsPow2(base, n - 1);
      assert base * (2.0 * Pow2(n - 1)) == 2.0 * (base * Pow2(n - 1));
    }
  }

  lemma {:induction false} SumDoubling(raws: seq<real>, base: real)
    requires forall i | 0 <= i < |raws| :: raws[i] <= Doubled(base, i)
    ensures Sum(raws) <= Doubled(base, |raws|) - base
  {
    if raws != [] {
      SumDoubling(raws[..|raws| - 1], base);
    }
  }

  lemma DelayAtMostScaled(policy: Policy, attempt: nat, sample: real, delay: real, k: real)
    requires attempt >= 1 && policy.Valid() && 0.0 <= sample <= 1.0
    requires Some(delay) == BackoffSeconds(attempt, policy, sample) && k == 1.0 + policy.jitterRatio
    ensures delay <= policy.cap && AtMostScaled(delay, k, Raw(policy, attempt))
    ensures Raw(policy, attempt) <= Doubled(policy.base, attempt - 1)
  {
    BackoffBounds(attempt, policy, sample);
    RawAtMostDoubled(policy, attempt);
    hide Times;
    Associate(Raw(policy, attempt), k, 1.0);
  }

  lemma RawAtMostDoubled(policy: Policy, attempt: nat)
    requires attempt >= 1
    ensures Raw(policy, attempt) <= Doubled(policy.base, attempt - 1)
  {
    DoubledIsPow2(policy.base, attempt - 1);
  }

  /** The delays of attempts 1, 2, ..., each with its own random sample. */
  ghost predicate AreDelays(delays: seq<real>, samples: seq<real>, policy: Policy) {
    && |delays| == |samples|
    && (delays != [] ==>
          var n := |delays| - 1;
          && 0.0 <= samples[n] <= 1.0
          && Some(delays[n]) == BackoffSeconds(n + 1, policy, samples[n])
          && AreDelays(delays[..n], samples[..n], policy))
  }

  lemma SumNonNegative(raws: seq<real>)
    requires forall i | 0 <= i < |raws| :: 0.0 <= raws[i]
    ensures 0.0 <= Sum(raws)
  {
  }

  lemma {:induction false} RawDelays(policy: Policy, samples: seq<real>, delays: seq<real>, k: real)
    returns (raws: seq<real>)
    requires policy.Valid() && AreDelays(delays, samples, policy) && k == 1.0 + policy.jitterRatio
    ensures |raws| == |delays|
    ensures forall i | 0 <= i < |delays| :: delays[i] <= policy.cap
    ensures forall i | 0 <= i < |delays| :: AtMostScaled(delays[i], k, raws[i])
    ensures forall i | 0 <= i < |delays| :: 0.0 <= raws[i] <= Doubled(policy.base, i)
  {
    hide Times, Doubled, AtMostScaled, Raw;
    raws := [];
    if delays != [] {
      var n := |delays| - 1;
      var earlier := RawDelays(policy, samples[..n], delays[..n], k);
      DelayAtMostScaled(policy, n + 1, samples[n], delays[n], k);
      RawMonotone(policy, n + 1, n + 1);
      raws := earlier + [Raw(policy, n + 1)];
    }
  }

  /** However many attempts wait, they wait at most the cap each. */
  lemma {:induction false} RetryBudgetCapped(policy: Policy, samples: seq<real>, delays: seq<real>)
    requires policy.Valid() && AreDelays(delays, samples, policy)
    ensures Sum(delays) <= |delays| as real * policy.cap
  {
    hide AreDelays, AtMostScaled, Doubled, Sum, Times;
    var raws := RawDelays(policy, samples, delays, 1.0 + policy.jitterRatio);
    SumCapped(delays, policy.cap);
    TimesIs(|delays| as real, policy.cap);
  }

  lemma AtMostMore(total: real, k: real, sum: real, more: real)
    requires 0.0 <= k && 0.0 <= sum <= more && AtMostScaled(total, k, sum)
    ensures AtMostScaled(total, k, more)
  {
    hide Times;
    Ordered(sum, more, k);
  }

  lemma {:induction false} SumWithinDoublings(delays: seq<real>, raws: seq<real>, k: real, base: real)
    requires |raws| == |delays| && 0.0 <= k
    requires forall i | 0 <= i < |delays| :: AtMostScaled(delays[i], k, raws[i])
    requires forall i | 0 <= i < |delays| :: 0.0 <= raws[i] <= Doubled(base, i)
    ensures AtMostScaled(Sum(delays), k, Doubled(base, |delays|) - base)
  {
    hide AtMostScaled;
    SumScaled(delays, raws, k);
    SumDoubling(raws, base);
    SumNonNegative(raws);
    AtMostMore(Sum(delays), k, Sum(raws), Doubled(base, |delays|) - base);
  }

  /** And together at most the fully jittered sum of the doublings, base * (2^n - 1). */
  lemma {:induction false} RetryBudgetExponential(policy: Policy, samples: seq<real>, delays: seq<real>, k: real)
    requires policy.Valid() && AreDelays(delays, samples, policy) && k == 1.0 + policy.jitterRatio
    ensures AtMostScaled(Sum(delays), k, Doubled(policy.base, |delays|) - policy.base)
  {
    hide AtMostScaled;
    var raws := RawDelays(policy, samples, delays, k);
    SumWithinDoublings(delays, raws, k, policy.base);
  }

  lemma {:induction false} DoubledMonotone(base: real, m: nat, n: nat)
    requires 0.0 <= base && m <= n
    ensures base <= Doubled(base, m) <= Doubled(base, n)
  {
    if m < n {
      DoubledMonotone(base, m, n - 1);
    } else if m > 0 {
      DoubledMonotone(base, m - 1, m - 1);
    }
  }

  /** base + 2 base + ... + 2^(n-1) base, in closed form. */
  function DoublingSum(base: real, n: nat): real {
    base * (Pow2(n) - 1.0)
  }

  lemma {:induction false} DoublingSumIs(base: real, n: nat)
    ensures DoublingSum(base, n) == Doubled(base, n) - base
  {
    DoubledIsPow2(base, n);
  }

  lemma {:induction false} CapsWithin(total: real, cap: real, m: nat, n: nat)
    requires 0.0 <= cap && m <= n && total <= m as real * cap
    ensures total <= n as real * cap
  {
    Ordered(m as real, n as real, cap);
  }

  /**
   The budget of one message: while each attempt but the last may be followed by a wait, the
   waits number at most max_attempts - 1, and their sum is within both budgets, the one of
   the cap and the fully jittered one of the doublings.
   */
  lemma {:induction false} RetryBudget(policy: Policy, maxAttempts: nat, samples: seq<real>, delays: seq<real>)
    requires policy.Valid() && maxAttempts >= 1 && AreDelays(delays, samples, policy)
    requires forall attempt | 1 <= attempt <= |delays| :: RetryExhausted(attempt, maxAttempts) == Some(false)
    ensures |delays| <= maxAttempts - 1
    ensures Sum(delays) <= (maxAttempts - 1) as real * policy.cap
    ensures AtMostScaled(Sum(delays), 1.0 + policy.jitterRatio, DoublingSum(policy.base, maxAttempts - 1))
  {
    hide AtMostScaled, AreDelays, Sum, DoublingSum, Doubled;
    var m, n, k := |delays|, maxAttempts - 1, 1.0 + policy.jitterRatio;
    assert m > 0 ==> RetryExhausted(m, maxAttempts) == Some(false);
    RetryBudgetCapped(policy, samples, delays);
    CapsWithin(Sum(delays), policy.cap, m, n);
    RetryBudgetExponential(policy, samples, delays, k);
    DoubledMonotone(policy.base, m, n);
    AtMostMore(Sum(delays), k, Doubled(policy.base, m) - policy.base, Doubled(policy.base, n) - policy.base);
    DoublingSumIs(policy.base, n);
  }
}
