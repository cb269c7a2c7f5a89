/** Backoff on registry rate limits: internal/oci/retry.go. Durations are nanoseconds. */
module Retry {

  import opened Common

  const SECOND := 1_000_000_000
  const BASE_DELAY := 2 * SECOND
  const MAX_DELAY := 60 * SECOND
  const MAX_RETRIES := 8
  const TWO64 := 0x1_0000_0000_0000_0000
  const TWO43 := 0x800_0000_0000
  const TWO21 := 0x20_0000

  function Pow2(n: nat): (p: nat)
    ensures p > 0
  {
    if n == 0 then 1 else 2 * Pow2(n - 1)
  }

  /** The int64 an integer wraps to. */
  function Int64(x: int): int {
    var r := x % TWO64;
    if r < TWO64 / 2 then r else r - TWO64
  }

  /** The capped delay as the code computes it: a shift in int64, capped when too long or overflowed. */
  function Delay(attempt: nat): int {
    var d := Int64(BASE_DELAY * Pow2(attempt));
    if d > MAX_DELAY || d <= 0 then MAX_DELAY else d
  }

  /** backoffFor, with random standing for rnd.Int63n's answer; no generator means no jitter. */
  function BackoffFor(attempt: nat, random: Option<nat>): int {
    var d := Delay(attempt);
    if random.None? then d
    else
      var half := d / 2;
      half + random.value % (half + 1)
  }

  /** The delay without machine arithmetic. */
  function IdealDelay(attempt: nat): nat {
    var d := BASE_DELAY * Pow2(attempt);
    if d < MAX_DELAY then d else MAX_DELAY
  }

  lemma {:induction false} Pow2Add(a: nat, b: nat)
    ensures Pow2(a + b) == Pow2(a) * Pow2(b)
  {
    if a > 0 {
      Pow2Add(a - 1, b);
      assert Pow2(a + b) == 2 * Pow2(a - 1 + b);
      assert 2 * (Pow2(a - 1) * Pow2(b)) == (2 * Pow2(a - 1)) * Pow2(b);
    }
  }

  lemma {:induction false} Pow2Mono(a: nat, b: nat)
    requires a <= b
    ensures Pow2(a) <= Pow2(b)
  {
    if a < b { Pow2Mono(a, b - 1); }
  }

  lemma Pow2Values()
    ensures Pow2(4) == 16 && Pow2(5) == 32 && Pow2(32) == 0x1_0000_0000 && Pow2(33) == 0x2_0000_0000
  {
    assert Pow2(8) == 256;
    Pow2Add(8, 8);
    Pow2Add(16, 16);
  }

  /** A multiple of 2^43 wraps to a multiple of 2^43, so a wrapped positive value is at least that. */
  lemma WrappedMultiple(m: nat)
    ensures Int64(TWO43 * m) <= 0 || Int64(TWO43 * m) >= TWO43
  {
    var q, r := m / TWO21, m % TWO21;
    assert m == TWO21 * q + r;
    assert TWO43 * m == TWO64 * q + TWO43 * r;
    assert 0 <= TWO43 * r < TWO64;
    assert (TWO64 * q + TWO43 * r) % TWO64 == TWO43 * r;
  }

  lemma NoWrap(x: int)
    requires 0 <= x < TWO64 / 2
    ensures Int64(x) == x
  {
  }

  lemma EarlyDelay(attempt: nat)
    requires attempt <= 32
    ensures Delay(attempt) == IdealDelay(attempt)
  {
    Pow2Values();
    Pow2Mono(attempt, 32);
    NoWrap(BASE_DELAY * Pow2(attempt));
  }

  /** From the 33rd doubling on the product may wrap. */
  lemma LateDelay(attempt: nat)
    requires attempt >= 33
    ensures Delay(attempt) == IdealDelay(attempt)
  {
    Pow2Values();
    Pow2Mono(33, attempt);
    Pow2Add(33, attempt - 33);
    var rest := Pow2(attempt - 33);
    // 2s is 2^10 * 5^9 ns.
    var m := 1_953_125 * rest;
    assert BASE_DELAY * Pow2(attempt) == TWO43 * m;
    WrappedMultiple(m);
  }

  /** For every attempt number the wrapping shift with its cap is the unbounded min(2s * 2^n, 60s). */
  lemma DelayIsIdeal(attempt: nat)
    ensures Delay(attempt) == IdealDelay(attempt)
  {
    if attempt <= 32 { EarlyDelay(attempt); } else { LateDelay(attempt); }
  }

  lemma JitterWithin(attempt: nat, random: Option<nat>)
    ensures IdealDelay(attempt) / 2 <= BackoffFor(attempt, random) <= IdealDelay(attempt)
    ensures random.None? ==> BackoffFor(attempt, random) == IdealDelay(attempt)
  {
    DelayIsIdeal(attempt);
  }

  // ----- Which errors are retried -----

  /** A registry error: the status of a typed response, if there was one, and whether its text, in lower
      case, mentions a rate limit. */
  datatype Error = Error(status: Option<int>, mentionsRateLimit: bool)

  predicate IsRateLimited(e: Error) {
    match e.status
    case Some(429) => true
    case Some(403) => e.mentionsRateLimit
    case Some(_) => false
    case None => e.mentionsRateLimit
  }

  datatype Outcome = Ok | Failed(error: Error) | Cancelled(last: Error)

  /** What the caller's environment answers: the error of each call (None is success), how far into each sleep
      the context ends, if it does, and the random numbers. */
  datatype World = World(call: nat -> Option<Error>, cancel: nat -> Option<nat>, random: nat -> Option<nat>)

  /** The k-th call failed with a 429, or with a 403 or an untyped error whose text mentions a rate limit. */
  predicate Retryable(w: World, k: nat) {
    w.call(k).Some? &&
    var e := w.call(k).value;
    e.status == Some(429) || (e.mentionsRateLimit && (e.status == Some(403) || e.status == None))
  }

  function DelayAt(w: World, k: nat): nat {
    BackoffFor(k, w.random(k))
  }

  /** The context ends before the k-th delay is over. */
  predicate CutShort(w: World, k: nat) {
    w.cancel(k).Some? && w.cancel(k).value < DelayAt(w, k)
  }

  /** The first n delays, each in full. */
  function Slept(w: World, n: nat): nat {
    if n == 0 then 0 else Slept(w, n - 1) + DelayAt(w, n - 1)
  }

  /** The longest the first n sleeps can take. */
  function WaitBound(n: nat): nat {
    if n == 0 then 0 else WaitBound(n - 1) + IdealDelay(n - 1)
  }

  lemma WaitBoundIs242(n: nat)
    requires n <= MAX_RETRIES
    ensures WaitBound(n) <= 242 * SECOND
  {
    assert Pow2(2) == 4 && Pow2(3) == 8;
    Pow2Values();
    assert IdealDelay(5) == 60 * SECOND && IdealDelay(6) == 60 * SECOND && IdealDelay(7) == 60 * SECOND;
    assert WaitBound(4) == 30 * SECOND;
    assert WaitBound(8) == 242 * SECOND;
    WaitBoundMono(n, 8);
  }

  lemma {:induction false} WaitBoundMono(a: nat, b: nat)
    requires a <= b
    ensures WaitBound(a) <= WaitBound(b)
  {
    if a < b { WaitBoundMono(a, b - 1); }
  }

  lemma {:induction false} SleptWithin(w: World, n: nat)
    ensures Slept(w, n) <= WaitBound(n)
  {
    if n > 0 {
      SleptWithin(w, n - 1);
      JitterWithin(n - 1, w.random(n - 1));
    }
  }

  /** withRateLimitRetry: the operation is called again only after a rate limit, and then always, up to 9 calls
      in all. Every delay is waited out in full, 242 seconds at most, unless the context ends in it, and the
      outcome is that of the last call. */
  method WithRateLimitRetry(w: World) returns (outcome: Outcome, calls: nat, waited: nat)
    ensures 1 <= calls <= MAX_RETRIES + 1 == 9
    ensures forall k :: 0 <= k < calls - 1 ==> Retryable(w, k) && !CutShort(w, k)
    ensures waited <= 242 * SECOND
    ensures match outcome
            case Ok => w.call(calls - 1).None? && waited == Slept(w, calls - 1)
            case Failed(e) =>
              && w.call(calls - 1) == Some(e) && waited == Slept(w, calls - 1)
              && (!Retryable(w, calls - 1) || calls == MAX_RETRIES + 1)
            case Cancelled(e) =>
              && w.call(calls - 1) == Some(e) && Retryable(w, calls - 1) && CutShort(w, calls - 1)
              && waited == Slept(w, calls - 1) + w.cancel(calls - 1).value
  {
    calls, waited := 0, 0;
    while true
      invariant calls <= MAX_RETRIES
      invariant forall k :: 0 <= k < calls ==> Retryable(w, k) && !CutShort(w, k)
      invariant waited == Slept(w, calls)
      decreases MAX_RETRIES - calls
    {
      var attempt := calls;
      SleptWithin(w, attempt);
      SleptWithin(w, attempt + 1);
      WaitBoundIs242(attempt);
      var err := w.call(attempt);
      calls := calls + 1;
      if err.None? { return Ok, calls, waited; }
      if !IsRateLimited(err.value) || attempt >= MAX_RETRIES { return Failed(err.value), calls, waited; }
      WaitBoundIs242(attempt + 1);
      var delay := BackoffFor(attempt, w.random(attempt));
      var cancel := w.cancel(attempt);
      if cancel.Some? && cancel.value < delay { return Cancelled(err.value), calls, waited + cancel.value; }
      waited := waited + delay;
    }
  }
}
