/** GCRA and the token bucket are one limiter seen from two sides: `tokens` is the burst minus how many intervals the
    schedule runs ahead of the clock. */
module Bisimulation {
  import opened Arith
  import opened Clock
  import opened RateLimit
  import Gcra
  import TokenBucket

  /** One configuration of both limiters, where `Rate` divides `Window`. */
  ghost predicate Matched(g: Gcra.Params, t: TokenBucket.Params) {
    && g.Valid() && t.Valid()
    && g.burst == t.burst
    && t.window == g.interval * t.rate
  }

  /** Both constructors accept such a configuration, and agree on it. */
  lemma ConstructorsMatch(c: Config)
    requires c.rate > 0 && c.burst > 0 && c.window > 0 && c.window % c.rate == 0
    ensures Gcra.New(c).Ok? && TokenBucket.New(c).Ok? && Matched(Gcra.New(c).value, TokenBucket.New(c).value)
  {
    var q := c.window / c.rate;
    assert c.window == q * c.rate;
    if q <= 0 {
      MulMonotone(q, 0, c.rate);
    }
  }

  function Ahead(tat: Time, now: Time): int {
    Gcra.Effective(tat, now) - now
  }

  /** At `now`, the bucket (once refilled) is short of full by exactly the intervals the schedule is ahead. */
  ghost predicate Related(g: Gcra.Params, t: TokenBucket.Params, tat: Time, b: TokenBucket.Bucket, now: Time)
  {
    && Matched(g, t)
    && now >= ZERO_TIME
    && b.last <= now
    && b.tokens <= t.burst as real
    && 0 <= Ahead(tat, now)
    && TokenBucket.Refill(t, b, now).tokens == t.burst as real - Ahead(tat, now) as real * t.flow
  }

  /** One interval refills one token. */
  lemma IntervalIsOneToken(g: Gcra.Params, t: TokenBucket.Params)
    requires Matched(g, t)
    ensures t.flow * g.interval as real == 1.0
  {
    RealProduct(g.interval, t.rate);
    Cancel(t.flow, g.interval as real, t.rate as real);
  }

  lemma RealProduct(x: int, y: int)
    ensures (x * y) as real == x as real * y as real
  {
  }

  lemma Cancel(f: real, i: real, r: real)
    requires f * (i * r) == r && r > 0.0
    ensures f * i == 1.0
  {
    assert (f * i) * r == f * (i * r);
    assert (f * i - 1.0) * r == 0.0;
  }

  /** `k` intervals and `ahead` nanoseconds more are worth `k` tokens and the flow of `ahead`. */
  lemma IntervalsFlow(g: Gcra.Params, t: TokenBucket.Params, k: int, ahead: int)
    requires Matched(g, t)
    ensures (k * g.interval + ahead) as real * t.flow == k as real + ahead as real * t.flow
  {
    IntervalIsOneToken(g, t);
    ScaleSum(k as real, g.interval as real, ahead as real, t.flow);
    assert (k * g.interval + ahead) as real == k as real * g.interval as real + ahead as real;
  }

  lemma ScaleSum(k: real, i: real, x: real, f: real)
    requires f * i == 1.0
    ensures (k * i + x) * f == k + x * f
  {
    assert (k * i) * f == k * (i * f);
  }

  /** A new key starts related, whenever it is first seen. */
  lemma FreshRelated(g: Gcra.Params, t: TokenBucket.Params, now: Time)
    requires Matched(g, t) && now >= ZERO_TIME
    ensures Related(g, t, Gcra.Limiter(g).create(now), TokenBucket.Limiter(t).create(now), now)
  {
    assert 0 as real * t.flow == 0.0;
  }

  /** The relation survives the passing of time. */
  lemma RelatedLater(g: Gcra.Params, t: TokenBucket.Params, tat: Time, b: TokenBucket.Bucket, now: Time, later: Time)
    requires Matched(g, t) && Related(g, t, tat, b, now) && later >= now
    ensures Related(g, t, tat, b, later)
  {
    var f := t.flow;
    TokenBucket.RefillComposes(t, b, now, later);
    var ahead := Ahead(tat, now);
    TokenBucket.MulOrderReal((later - now) as real, ahead as real, f);
    if ahead >= later - now {
      assert Ahead(tat, later) == ahead - (later - now);
      assert (ahead - (later - now)) as real == ahead as real - (later - now) as real;
      DistributeReal(ahead as real, (later - now) as real, f);
    } else {
      assert Ahead(tat, later) == 0;
      assert 0 as real * f == 0.0;
    }
  }

  lemma DistributeReal(x: real, y: real, f: real)
    ensures (x - y) * f == x * f - y * f
    ensures (x + y) * f == x * f + y * f
  {
  }

  /** What the two report alike: the verdict always; what is left and when the key is whole again on admissions; when to
      come back on denials that could ever succeed. */
  ghost predicate Agree(g: Gcra.Params, n: int, d: Decision, e: Decision) {
    && d.allowed == e.allowed
    && d.limit == e.limit
    && (d.allowed ==> d.remaining == e.remaining && d.resetAfter == e.resetAfter && d.retryAfter == e.retryAfter)
    && (!d.allowed && n <= g.burst ==> d.retryAfter == e.retryAfter)
  }

  /** Enough tokens for `n` exactly when the schedule leaves room for `n` intervals. */
  lemma VerdictsAgree(g: Gcra.Params, t: TokenBucket.Params, ahead: int, n: int, tokens: real)
    requires Matched(g, t) && ahead >= 0 && tokens == t.burst as real - ahead as real * t.flow
    ensures tokens >= n as real <==> ahead <= (g.burst - n) * g.interval
    ensures tokens >= n as real ==> n <= g.burst
  {
    var room := (g.burst - n) * g.interval;
    IntervalsFlow(g, t, g.burst - n, 0);
    TokenBucket.MulOrderReal(ahead as real, room as real, t.flow);
    TokenBucket.MulOrderReal(0.0, ahead as real, t.flow);
  }

  /** The time until the missing tokens arrive is a whole number of nanoseconds. */
  lemma WaitIsWhole(g: Gcra.Params, t: TokenBucket.Params, ahead: int, k: int, missing: real)
    requires Matched(g, t) && missing == k as real + ahead as real * t.flow
    ensures TokenBucket.TimeForTokens(t, missing) ==
            if k * g.interval + ahead <= 0 then 0 else k * g.interval + ahead
  {
    IntervalsFlow(g, t, k, ahead);
    WholeWait(t, k * g.interval + ahead, missing);
  }

  lemma WholeWait(t: TokenBucket.Params, wait: int, missing: real)
    requires t.flow > 0.0 && wait as real * t.flow == missing
    ensures TokenBucket.TimeForTokens(t, missing) == if wait <= 0 then 0 else wait
  {
    TokenBucket.MulOrderReal(wait as real, 0.0, t.flow);
    if wait > 0 {
      TokenBucket.WaitIsLeast(t, missing, wait);
      TokenBucket.WaitIsLeast(t, missing, wait - 1);
      TokenBucket.MulOrderReal(missing, missing, t.flow);
      TokenBucket.MulOrderReal(wait as real, (wait - 1) as real, t.flow);
    }
  }

  /** Both count the same whole requests left. */
  lemma RemainingAgrees(g: Gcra.Params, t: TokenBucket.Params, now: Time, tat: Time, tokens: real)
    requires Matched(g, t) && now <= tat && 0.0 <= tokens
    requires tokens == t.burst as real - (tat - now) as real * t.flow
    ensures Gcra.Remaining(g, now, tat) == tokens.Floor
  {
    var m := tokens.Floor;
    assert m as real <= tokens && tokens < (m + 1) as real;
    VerdictsAgree(g, t, tat - now, 0, tokens);
    VerdictsAgree(g, t, tat - now, m, tokens);
    VerdictsAgree(g, t, tat - now, m + 1, tokens);
    Gcra.RemainingMeasuresRoom(g, now, tat, m + 1);
    if m >= 1 {
      Gcra.RemainingMeasuresRoom(g, now, tat, m);
    }
  }

  /** What GCRA answers, in terms of how far the schedule is ahead. */
  function GcraAnswer(g: Gcra.Params, tat: Time, now: Time, n: int): (Time, Decision)
    requires g.Valid()
  {
    var ahead := Ahead(tat, now);
    if n > g.burst then (tat, Decision(false, g.burst, 0, g.interval, g.interval))
    else if ahead > (g.burst - n) * g.interval then
      var wait := (n - g.burst) * g.interval + ahead;
      (tat, Decision(false, g.burst, 0, wait, wait))
    else
      var tat' := now + n * g.interval + ahead;
      (tat', Decision(true, g.burst, Gcra.Remaining(g, now, tat'), 0, tat' - now))
  }

  lemma GcraAnswers(g: Gcra.Params, tat: Time, now: Time, n: int)
    requires g.Valid()
    ensures Gcra.Step(g, tat, now, n) == GcraAnswer(g, tat, now, n)
  {
    Gcra.AdmittedIff(g, tat, now, n);
    Distribute(g.burst, n, g.interval);
    Distribute(n, g.burst, g.interval);
    Distribute(g.burst, 1, g.interval);
    Distribute(n, 1, g.interval);
  }

  /** What the token bucket answers once refilled. */
  function TokenBucketAnswer(t: TokenBucket.Params, b: TokenBucket.Bucket, n: int): (TokenBucket.Bucket, Decision)
    requires t.Valid()
  {
    if b.tokens >= n as real then
      var left := b.tokens - n as real;
      (b.(tokens := left), Decision(true, t.burst, left.Floor, 0, TokenBucket.TimeToFull(t, left)))
    else
      (b, Decision(false, t.burst, b.tokens.Floor, TokenBucket.TimeForTokens(t, n as real - b.tokens),
                   TokenBucket.TimeToFull(t, b.tokens)))
  }

  lemma FilledRelated(g: Gcra.Params, t: TokenBucket.Params, tat: Time, now: Time, ahead: int, filled: TokenBucket.Bucket)
    requires Matched(g, t) && now >= ZERO_TIME && ahead == Ahead(tat, now) >= 0 && filled.last == now
    requires filled.tokens <= t.burst as real && filled.tokens == t.burst as real - ahead as real * t.flow
    ensures Related(g, t, tat, filled, now)
  {
  }

  /** Draining `n` tokens moves the schedule `n` intervals ahead. */
  lemma AdmissionKeepsRelation(g: Gcra.Params, t: TokenBucket.Params, tat: Time, now: Time, n: int, ahead: int,
                               left: TokenBucket.Bucket)
    requires Matched(g, t) && now >= ZERO_TIME && n >= 1 && ahead >= 0
    requires tat == now + n * g.interval + ahead && left.last == now
    requires left.tokens == t.burst as real - ahead as real * t.flow - n as real && left.tokens >= 0.0
    ensures Related(g, t, tat, left, now)
    ensures Gcra.Remaining(g, now, tat) == left.tokens.Floor
    ensures TokenBucket.TimeToFull(t, left.tokens) == tat - now
  {
    hide Gcra.Remaining, TokenBucket.TimeForTokens, TokenBucket.Refill, Related;
    MulMonotone(1, n, g.interval);
    var ahead' := n * g.interval + ahead;
    assert Ahead(tat, now) == ahead';
    IntervalsFlow(g, t, n, ahead);
    TokenBucket.MulOrderReal(0.0, ahead as real, t.flow);
    FilledRelated(g, t, tat, now, ahead', left);
    RemainingAgrees(g, t, now, tat, left.tokens);
    WaitIsWhole(g, t, ahead, n, t.burst as real - left.tokens);
  }

  /** The same answers, for a bucket already refilled and a schedule `ahead` nanoseconds ahead. */
  lemma AnswersAgree(g: Gcra.Params, t: TokenBucket.Params, tat: Time, now: Time, n: int, ahead: int,
                     filled: TokenBucket.Bucket, gcra: (Time, Decision), bucket: (TokenBucket.Bucket, Decision))
    requires Matched(g, t) && now >= ZERO_TIME && n >= 1 && ahead == Ahead(tat, now) >= 0 && filled.last == now
    requires filled.tokens <= t.burst as real && filled.tokens == t.burst as real - ahead as real * t.flow
    requires gcra == GcraAnswer(g, tat, now, n)
    requires bucket == TokenBucketAnswer(t, filled, n)
    ensures Related(g, t, gcra.0, bucket.0, now) && Agree(g, n, gcra.1, bucket.1)
  {
    hide Gcra.Remaining, TokenBucket.TimeForTokens, TokenBucket.TimeToFull, TokenBucket.Refill, Related;
    VerdictsAgree(g, t, ahead, n, filled.tokens);
    if filled.tokens >= n as real {
      AdmissionKeepsRelation(g, t, gcra.0, now, n, ahead, bucket.0);
    } else {
      FilledRelated(g, t, tat, now, ahead, filled);
      WaitIsWhole(g, t, ahead, n - g.burst, n as real - filled.tokens);
      Distribute(g.burst, n, g.interval);
      Distribute(n, g.burst, g.interval);
    }
  }

  /** One request keeps the relation and draws the same answer from both. */
  lemma StepAgrees(g: Gcra.Params, t: TokenBucket.Params, tat: Time, b: TokenBucket.Bucket, now: Time, n: int)
    requires Matched(g, t) && Related(g, t, tat, b, now) && n >= 1
    ensures Related(g, t, Gcra.Step(g, tat, now, n).0, TokenBucket.Step(t, b, now, n).0, now)
    ensures Agree(g, n, Gcra.Step(g, tat, now, n).1, TokenBucket.Step(t, b, now, n).1)
  {
    hide Gcra.Step, GcraAnswer;
    var filled := TokenBucket.Refill(t, b, now);
    GcraAnswers(g, tat, now, n);
    AnswersAgree(g, t, tat, now, n, Ahead(tat, now), filled, Gcra.Step(g, tat, now, n), TokenBucket.Step(t, b, now, n));
  }

  // ---- Runs ----

  lemma SimulatesGcra(g: Gcra.Params, t: TokenBucket.Params)
    requires Matched(g, t)
    ensures Simulation(Gcra.Limiter(g), TokenBucket.Limiter(t), (tat, b, now) => Related(g, t, tat, b, now),
                       (n, d, e) => Agree(g, n, d, e))
  {
    forall tat, b, now, later | Related(g, t, tat, b, now) && now <= later
      ensures Related(g, t, tat, b, later)
    {
      RelatedLater(g, t, tat, b, now, later);
    }
    forall tat, b, now, n | Related(g, t, tat, b, now) && n >= 1
      ensures Related(g, t, Gcra.Step(g, tat, now, n).0, TokenBucket.Step(t, b, now, n).0, now)
      ensures Agree(g, n, Gcra.Step(g, tat, now, n).1, TokenBucket.Step(t, b, now, n).1)
    {
      StepAgrees(g, t, tat, b, now, n);
    }
  }

  /** From the first request of a key on, the two limiters cannot be told apart by what they admit. */
  lemma Bisimilar(g: Gcra.Params, t: TokenBucket.Params, calls: seq<Call>)
    requires Matched(g, t) && calls != [] && Orderly(calls, ZERO_TIME)
    ensures var ds := Decisions(Gcra.Limiter(g), Gcra.Limiter(g).create(calls[0].now), calls);
            var es := Decisions(TokenBucket.Limiter(t), TokenBucket.Limiter(t).create(calls[0].now), calls);
            forall i | 0 <= i < |calls| :: Agree(g, calls[i].n, ds[i], es[i])
  {
    var now := calls[0].now;
    FreshRelated(g, t, now);
    SimulatesGcra(g, t);
    RelatedRunsAgree(Gcra.Limiter(g), TokenBucket.Limiter(t), (tat, b, at) => Related(g, t, tat, b, at),
                     (n, d, e) => Agree(g, n, d, e), Gcra.Limiter(g).create(now), TokenBucket.Limiter(t).create(now),
                     calls, now);
  }

  /** Divisibility is not a convenience: when there is at least a nanosecond per request, already the first `Allow` of a
      new key tells the two apart unless `Rate` divides `Window`. */
  lemma DivisibilityNeeded(c: Config, now: Time)
    requires c.rate > 0 && c.burst > 0 && c.window >= c.rate && now >= ZERO_TIME
    ensures var g := Gcra.New(c).value;
            var t := TokenBucket.New(c).value;
            Agree(g, 1, Gcra.Step(g, Gcra.Limiter(g).create(now), now, 1).1,
                        TokenBucket.Step(t, TokenBucket.Limiter(t).create(now), now, 1).1)
            <==> c.window % c.rate == 0
  {
    var g := Gcra.New(c).value;
    var t := TokenBucket.New(c).value;
    if c.window % c.rate == 0 {
      ConstructorsMatch(c);
      FreshRelated(g, t, now);
      StepAgrees(g, t, Gcra.Limiter(g).create(now), TokenBucket.Limiter(t).create(now), now, 1);
    } else {
      DivOrder(1, c.window, c.rate);
      MulMonotone(0, g.burst - 1, g.interval);
      GcraAnswers(g, ZERO_TIME, now, 1);
      FirstReset(t, c.window / c.rate);
    }
  }

  /** A full bucket that has just served one request is full again after more than `q` nanoseconds, if `q` requests' worth
      of time falls short of the window. */
  lemma FirstReset(t: TokenBucket.Params, q: int)
    requires t.Valid() && q * t.rate < t.window
    ensures TokenBucket.TimeToFull(t, t.burst as real - 1.0) > q
  {
    RealProduct(q, t.rate);
    Shortfall(q as real, t.rate as real, t.window as real, t.flow);
    TokenBucket.WaitIsLeast(t, 1.0, q);
  }

  lemma Shortfall(q: real, r: real, w: real, f: real)
    requires w > 0.0 && r > 0.0 && f * w == r && q * r < w
    ensures q * f < 1.0
  {
    assert (q * f) * w == q * (f * w);
    TokenBucket.MulOrderReal(1.0, q * f, w);
  }
}
