/** `pkg/ratelimit/token_bucket.go`, with token counts as reals: the rounding of `float64` is not modelled. */
module TokenBucket {
  import opened Clock
  import opened RateLimit

  /** `flow` is the number of tokens gained per nanosecond. */
  datatype Params = Params(rate: int, burst: int, window: int, flow: real) {
    predicate Valid() {
      rate >= 1 && burst >= 1 && window >= 1 && flow > 0.0 && flow * window as real == rate as real
    }
  }

  function New(c: Config): (r: Result<Params>)
    ensures r.Ok? <==> c.rate > 0 && c.burst > 0
    ensures r.Ok? ==> r.value.Valid() && r.value.rate == c.rate && r.value.burst == c.burst
    ensures r.Ok? ==> r.value.window == if c.window > 0 then c.window else SECOND
  {
    if c.rate <= 0 || c.burst <= 0 then InvalidConfig
    else
      var window := if c.window <= 0 then SECOND else c.window;
      Ok(Params(c.rate, c.burst, window, c.rate as real / window as real))
  }

  datatype Bucket = Bucket(tokens: real, last: Time)

  function Ceil(x: real): int {
    if x.Floor as real == x then x.Floor else x.Floor + 1
  }

  function Refill(p: Params, b: Bucket, now: Time): Bucket
    requires p.Valid()
  {
    if now <= b.last then b
    else
      var filled := b.tokens + (now - b.last) as real * p.flow;
      Bucket(if filled < p.burst as real then filled else p.burst as real, now)
  }

  function TimeForTokens(p: Params, tokens: real): int
    requires p.flow > 0.0
  {
    if tokens <= 0.0 then 0 else Ceil(tokens / p.flow)
  }

  function TimeToFull(p: Params, tokens: real): int
    requires p.flow > 0.0
  {
    TimeForTokens(p, p.burst as real - tokens)
  }

  function Step(p: Params, bucket: Bucket, now: Time, n: int): (Bucket, Decision)
    requires p.Valid()
  {
    var b := Refill(p, bucket, now);
    if b.tokens >= n as real then
      var left := b.tokens - n as real;
      (b.(tokens := left), Decision(true, p.burst, left.Floor, 0, TimeToFull(p, left)))
    else
      (b, Decision(false, p.burst, b.tokens.Floor, TimeForTokens(p, n as real - b.tokens), TimeToFull(p, b.tokens)))
  }

  class State {
    var tokens: real
    var last: Time

    constructor (p: Params, now: Time)
      ensures Value() == Bucket(p.burst as real, now)
    {
      tokens, last := p.burst as real, now;
    }

    function Value(): Bucket
      reads this
    {
      Bucket(tokens, last)
    }
  }

  method RefillInPlace(p: Params, bucket: State, now: Time)
    requires p.Valid()
    modifies bucket
    ensures bucket.Value() == Refill(p, old(bucket.Value()), now)
  {
    if now <= bucket.last {
      return;
    }
    var elapsed := now - bucket.last;
    var refill := elapsed as real * p.flow;
    bucket.tokens := if bucket.tokens + refill < p.burst as real then bucket.tokens + refill else p.burst as real;
    bucket.last := now;
  }

  method AllowN(p: Params, bucket: State, now: Time, n: int) returns (d: Decision)
    requires p.Valid()
    modifies bucket
    ensures (bucket.Value(), d) == Step(p, old(bucket.Value()), now, n)
  {
    RefillInPlace(p, bucket, now);
    d := Decision(false, p.burst, bucket.tokens.Floor, 0, TimeToFull(p, bucket.tokens));
    if bucket.tokens >= n as real {
      bucket.tokens := bucket.tokens - n as real;
      d := d.(allowed := true, remaining := bucket.tokens.Floor, resetAfter := TimeToFull(p, bucket.tokens));
      return;
    }
    var missing := n as real - bucket.tokens;
    d := d.(retryAfter := TimeForTokens(p, missing));
  }

  function Limiter(p: Params): Algorithm<Bucket>
    requires p.Valid()
  {
    Algorithm(now => Bucket(p.burst as real, now), (b, now, n) => Step(p, b, now, n))
  }

  // ---- Real arithmetic ----

  /** Waiting is long enough for the missing tokens exactly when it reaches the rounded-up time. */
  lemma CeilOrder(x: real, d: int)
    ensures x <= d as real <==> Ceil(x) <= d
  {
  }

  lemma DivOrderReal(x: real, f: real, d: real)
    requires f > 0.0
    ensures x <= d * f <==> x / f <= d
  {
    var q := x / f;
    assert x == q * f;
    if q <= d {
      assert (d - q) * f >= 0.0;
    } else {
      assert (q - d) * f > 0.0;
    }
  }

  lemma MulOrderReal(x: real, y: real, f: real)
    requires f > 0.0
    ensures x <= y <==> x * f <= y * f
  {
    if x <= y {
      assert (y - x) * f >= 0.0;
    } else {
      assert (x - y) * f > 0.0;
    }
  }

  /** Refilling in two stages is refilling once. */
  lemma RefillComposes(p: Params, b: Bucket, mid: Time, now: Time)
    requires p.Valid() && b.tokens <= p.burst as real && b.last <= mid <= now
    ensures Refill(p, Refill(p, b, mid), now) == Refill(p, b, now)
  {
    var f := p.flow;
    MulOrderReal(0.0, (mid - b.last) as real, f);
    MulOrderReal(0.0, (now - mid) as real, f);
    assert (now - b.last) as real * f == (now - mid) as real * f + (mid - b.last) as real * f by {
      assert (now - b.last) as real == (now - mid) as real + (mid - b.last) as real;
    }
  }

  // ---- Single decisions ----

  /** `Remaining` on an admission is the largest batch that would be admitted at the same instant. */
  lemma RemainingIsLargest(p: Params, b: Bucket, now: Time, n: int, m: int)
    requires p.Valid() && b.tokens <= p.burst as real
    requires Step(p, b, now, n).1.allowed
    ensures Step(p, Step(p, b, now, n).0, now, m).1.allowed <==> m <= Step(p, b, now, n).1.remaining
    ensures n >= 0 ==> 0 <= Step(p, b, now, n).1.remaining <= p.burst
  {
    var left := Step(p, b, now, n).0;
    assert Refill(p, left, now) == left;
    assert m as real <= left.tokens <==> m <= left.tokens.Floor;
  }

  /** The wait for missing tokens is the least whole number of nanoseconds that brings them. */
  lemma WaitIsLeast(p: Params, missing: real, d: int)
    requires p.flow > 0.0 && missing > 0.0
    ensures TimeForTokens(p, missing) > 0
    ensures missing <= d as real * p.flow <==> TimeForTokens(p, missing) <= d
  {
    DivOrderReal(missing, p.flow, d as real);
    CeilOrder(missing / p.flow, d);
    DivOrderReal(missing, p.flow, 0.0);
    CeilOrder(missing / p.flow, 0);
  }

  /** A denied batch that could ever fit is admitted after waiting `d` exactly when `d` reaches `RetryAfter`. */
  lemma RetryAfterIsExact(p: Params, b: Bucket, now: Time, n: int, d: nat)
    requires p.Valid() && b.last <= now && n <= p.burst
    requires !Step(p, b, now, n).1.allowed
    ensures Step(p, b, now, n).1.retryAfter > 0
    ensures Step(p, Step(p, b, now, n).0, now + d, n).1.allowed <==> d >= Step(p, b, now, n).1.retryAfter
  {
    var next := Refill(p, b, now);
    WaitIsLeast(p, n as real - next.tokens, d);
    AdmittedAfterWaiting(p, next, now, n, d);
  }

  lemma AdmittedAfterWaiting(p: Params, b: Bucket, now: Time, n: int, d: nat)
    requires p.Valid() && b.last == now && n <= p.burst && b.tokens < n as real
    ensures Refill(p, b, now + d).tokens >= n as real <==> n as real - b.tokens <= d as real * p.flow
  {
  }

  /** For any denied batch, also one above the burst, `RetryAfter` is the time in which the missing tokens would flow in. */
  lemma RetryAfterIsMissing(p: Params, b: Bucket, now: Time, n: int, d: int)
    requires p.Valid() && !Step(p, b, now, n).1.allowed
    ensures n as real - Step(p, b, now, n).0.tokens <= d as real * p.flow <==> d >= Step(p, b, now, n).1.retryAfter
  {
    WaitIsLeast(p, n as real - Refill(p, b, now).tokens, d);
  }

  /** A denial takes nothing, and its `Remaining` is the largest batch that would have been admitted. */
  lemma DenialFields(p: Params, b: Bucket, now: Time, n: int, m: int)
    requires p.Valid() && 0.0 <= b.tokens && !Step(p, b, now, n).1.allowed
    ensures var (next, d) := Step(p, b, now, n);
            && (Step(p, b, now, m).1.allowed <==> m <= d.remaining)
            && (Step(p, next, now, m).1.allowed <==> m <= d.remaining)
            && 0 <= d.remaining < n && d.limit == p.burst
  {
    var left := Step(p, b, now, n).0;
    assert Refill(p, left, now) == left;
    assert m as real <= left.tokens <==> m <= left.tokens.Floor;
    assert n as real > left.tokens;
    RefillNotNegative(p, b, now);
  }

  lemma RefillNotNegative(p: Params, b: Bucket, now: Time)
    requires p.Valid() && 0.0 <= b.tokens
    ensures 0.0 <= Refill(p, b, now).tokens
  {
    if now > b.last {
      MulOrderReal(0.0, (now - b.last) as real, p.flow);
    }
  }

  /** Admitted or denied, and without other calls, a full batch is admitted after waiting `d` exactly when `d` reaches
      `ResetAfter`. */
  lemma ResetAfterIsExact(p: Params, b: Bucket, now: Time, n: int, d: nat)
    requires p.Valid() && b.last <= now && b.tokens <= p.burst as real && n >= 0
    ensures var (next, first) := Step(p, b, now, n);
            && (Step(p, next, now + d, p.burst).1.allowed <==> d >= first.resetAfter)
            && first.limit == p.burst && (first.allowed ==> first.retryAfter == 0)
  {
    var next := Step(p, b, now, n).0;
    assert next.last == now && next.tokens <= p.burst as real;
    FullAfterWaiting(p, next, now, d);
  }

  lemma FullAfterWaiting(p: Params, b: Bucket, now: Time, d: nat)
    requires p.Valid() && b.last == now && b.tokens <= p.burst as real
    ensures Refill(p, b, now + d).tokens >= p.burst as real <==> d >= TimeToFull(p, b.tokens)
  {
    if b.tokens < p.burst as real {
      WaitIsLeast(p, p.burst as real - b.tokens, d);
      AdmittedAfterWaiting(p, b, now, p.burst, d);
    } else {
      MulOrderReal(0.0, d as real, p.flow);
    }
  }

  /** A batch above the burst is never admitted, whatever its `RetryAfter` says. */
  lemma OversizedNeverAdmitted(p: Params, b: Bucket, now: Time, n: int, later: Time)
    requires p.Valid() && b.tokens <= p.burst as real && n > p.burst
    ensures !Step(p, Step(p, b, now, n).0, later, n).1.allowed
  {
    assert n as real > p.burst as real;
  }

  lemma BatchEqualsSingles(p: Params, b: Bucket, now: Time, n: nat)
    requires p.Valid() && n >= 1
    ensures Admits(Limiter(p), b, now, n) <==> SinglesAdmitted(Limiter(p), b, now, n)
    ensures Admits(Limiter(p), b, now, n) ==> Next(Limiter(p), b, now, n) == AfterSingles(Limiter(p), b, now, n)
  {
    forall k: nat | 1 <= k < n
      ensures BatchGrows(Limiter(p), b, now, k)
    {
      var mid := Step(p, b, now, k).0;
      assert Refill(p, mid, now) == mid;
      assert (k + 1) as real == k as real + 1.0;
    }
    BatchLaw(Limiter(p), b, now, n);
  }
}
