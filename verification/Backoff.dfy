/** Retry delays: capped exponential growth with jitter. */
module Backoff {

  datatype RetryPolicy = RetryPolicy(
    maxAttempts: int,
    initialDelayMs: real,
    backoffFactor: real,
    maxDelayMs: real,
    jitter: real
  )

  /** What a sensible policy satisfies; the code checks none of it. */
  predicate Sensible(p: RetryPolicy) {
    p.initialDelayMs >= 0.0 && p.backoffFactor >= 0.0 && p.maxDelayMs >= 0.0 && p.jitter >= 0.0
  }

  function Pow(b: real, e: nat): real {
    if e == 0 then 1.0 else b * Pow(b, e - 1)
  }

  function Min(a: real, b: real): real {
    if a < b then a else b
  }

  /** Math.round: halves go up. */
  function Round(x: real): int {
    (x + 0.5).Floor
  }

  function Capped(p: RetryPolicy, attempt: nat): real
    requires attempt >= 1
  {
    Min(p.initialDelayMs * Pow(p.backoffFactor, attempt - 1), p.maxDelayMs)
  }

  function Times(a: real, b: real): real {
    a * b
  }

  function Jitter(capped: real, jitter: real, draw: real): real {
    Times(Times(capped, jitter), draw)
  }

  /** draw is the value Math.random returned. */
  function ComputeBackoffDelay(p: RetryPolicy, attempt: nat, draw: real): int
    requires attempt >= 1
  {
    var capped := Capped(p, attempt);
    Round(capped + Jitter(capped, p.jitter, draw))
  }

  lemma RoundMonotone(a: real, b: real)
    requires a <= b
    ensures Round(a) <= Round(b)
  {
  }

  lemma MulMonotone(a: real, b: real, c: real)
    requires a <= b && c >= 0.0
    ensures c * a <= c * b && a * c <= b * c
  {
  }

  lemma {:induction false} PowNonNegative(b: real, e: nat)
    requires b >= 0.0
    ensures Pow(b, e) >= 0.0
  {
    if e > 0 {
      PowNonNegative(b, e - 1);
      MulMonotone(0.0, Pow(b, e - 1), b);
    }
  }

  lemma PowGrows(b: real, e: nat)
    requires b >= 1.0
    ensures Pow(b, e) <= Pow(b, e + 1)
  {
    PowNonNegative(b, e);
    MulMonotone(1.0, b, Pow(b, e));
  }

  lemma CappedBounds(p: RetryPolicy, attempt: nat)
    requires Sensible(p) && attempt >= 1
    ensures 0.0 <= Capped(p, attempt) <= p.maxDelayMs
  {
    PowNonNegative(p.backoffFactor, attempt - 1);
    MulMonotone(0.0, Pow(p.backoffFactor, attempt - 1), p.initialDelayMs);
  }

  lemma CappedGrows(p: RetryPolicy, attempt: nat)
    requires Sensible(p) && p.backoffFactor >= 1.0 && attempt >= 1
    ensures Capped(p, attempt) <= Capped(p, attempt + 1)
  {
    PowGrows(p.backoffFactor, attempt - 1);
    MulMonotone(Pow(p.backoffFactor, attempt - 1), Pow(p.backoffFactor, attempt), p.initialDelayMs);
  }

  lemma Unjittered(p: RetryPolicy, attempt: nat, draw: real)
    requires attempt >= 1 && p.jitter == 0.0
    ensures ComputeBackoffDelay(p, attempt, draw) == Round(Capped(p, attempt))
  {
    hide Capped;
    var c := Capped(p, attempt);
    assert c * 0.0 * draw == 0.0;
  }

  /** The first delay: the initial one, capped, jittered and rounded. */
  lemma FirstDelay(p: RetryPolicy, draw: real)
    ensures var capped := if p.initialDelayMs < p.maxDelayMs then p.initialDelayMs else p.maxDelayMs;
            ComputeBackoffDelay(p, 1, draw) == (capped * (1.0 + p.jitter * draw) + 0.5).Floor
  {
    var capped := if p.initialDelayMs < p.maxDelayMs then p.initialDelayMs else p.maxDelayMs;
    assert p.initialDelayMs * Pow(p.backoffFactor, 0) == p.initialDelayMs;
    Distribute(capped, p.jitter, draw);
  }

  lemma Distribute(c: real, j: real, d: real)
    ensures c + Jitter(c, j, d) == c * (1.0 + j * d)
  {
    assert c * j * d == c * (j * d);
  }

  /** Every further delay is the one before it, of the policy whose initial delay is grown by the factor. */
  lemma NextDelay(p: RetryPolicy, attempt: nat, draw: real)
    requires attempt >= 1
    ensures ComputeBackoffDelay(p, attempt + 1, draw)
         == ComputeBackoffDelay(p.(initialDelayMs := p.initialDelayMs * p.backoffFactor), attempt, draw)
  {
    var x, b, q := p.initialDelayMs, p.backoffFactor, Pow(p.backoffFactor, attempt - 1);
    assert Pow(b, attempt) == b * q;
    MulAssoc(x, b, q);
    hide Pow;
  }

  lemma MulAssoc(x: real, b: real, q: real)
    ensures x * (b * q) == (x * b) * q
  {
  }

  /** Without jitter a later attempt never waits less than an earlier one. */
  lemma {:induction false} DelaysNeverShrink(p: RetryPolicy, a: nat, b: nat, draw: real)
    requires Sensible(p) && p.backoffFactor >= 1.0 && p.jitter == 0.0 && 1 <= a <= b
    ensures ComputeBackoffDelay(p, a, draw) <= ComputeBackoffDelay(p, b, draw)
    decreases b
  {
    if a < b {
      DelaysNeverShrink(p, a, b - 1, draw);
      CappedGrows(p, b - 1);
      Unjittered(p, b - 1, draw);
      Unjittered(p, b, draw);
      hide ComputeBackoffDelay;
      hide Capped;
      RoundMonotone(Capped(p, b - 1), Capped(p, b));
    }
  }

  /** round(maxDelayMs * (1 + jitter)) */
  function DelayBound(p: RetryPolicy): int {
    Round(p.maxDelayMs + Jitter(p.maxDelayMs, p.jitter, 1.0))
  }

  lemma TimesMonotone(a: real, b: real, c: real)
    requires 0.0 <= a <= b && c >= 0.0
    ensures 0.0 <= Times(a, c) <= Times(b, c)
  {
    MulMonotone(0.0, a, c);
    MulMonotone(a, b, c);
  }

  lemma TimesAtMost(x: real, d: real)
    requires x >= 0.0 && 0.0 <= d <= 1.0
    ensures 0.0 <= Times(x, d) <= x == Times(x, 1.0)
  {
  }

  lemma JitterBounds(c: real, m: real, j: real, d: real)
    requires 0.0 <= c <= m && j >= 0.0 && 0.0 <= d <= 1.0
    ensures 0.0 <= Jitter(c, j, d) <= Jitter(m, j, 1.0)
  {
    hide Times;
    TimesMonotone(c, m, j);
    TimesAtMost(Times(c, j), d);
    TimesAtMost(Times(m, j), d);
  }

  lemma RoundedBetween(c: real, extra: real, m: real, most: real)
    requires 0.0 <= c <= m && 0.0 <= extra <= most
    ensures 0 <= Round(c) <= Round(c + extra) <= Round(m + most)
  {
  }

  /** With jitter every delay lies between its unjittered value and the cap's largest one. */
  lemma DelayBounds(p: RetryPolicy, attempt: nat, draw: real)
    requires Sensible(p) && attempt >= 1 && 0.0 <= draw < 1.0
    ensures 0 <= Round(Capped(p, attempt)) <= ComputeBackoffDelay(p, attempt, draw) <= DelayBound(p)
  {
    var c := Capped(p, attempt);
    CappedBounds(p, attempt);
    hide Capped;
    hide Round;
    hide Jitter;
    JitterBounds(c, p.maxDelayMs, p.jitter, draw);
    RoundedBetween(c, Jitter(c, p.jitter, draw), p.maxDelayMs, Jitter(p.maxDelayMs, p.jitter, 1.0));
  }
}
