/** What the four limiters of `pkg/ratelimit` share: configuration, the decision they return, and the laws a
    keyed limiter is expected to obey, stated once for any algorithm. */
module RateLimit {
  import opened Clock

  const DEFAULT_SHARDS := 256
  const DEFAULT_BUCKET_COUNT := 12

  datatype Decision = Decision(allowed: bool, limit: int, remaining: int, retryAfter: int, resetAfter: int)

  datatype StateFullPolicy = RejectNewKey | AllowNewKey

  datatype Config = Config(rate: int, burst: int, window: int, shards: int, idleTTL: int, maxKeys: int,
                           policy: StateFullPolicy, bucketCount: int)

  datatype Result<+T> = Ok(value: T) | InvalidConfig

  function NormalizeIdleTTL(idleTTL: int, window: int): (ttl: int)
    ensures ttl > 0
    ensures idleTTL > 0 ==> ttl == idleTTL
    ensures idleTTL <= 0 ==> ttl == 10 * if window > 0 then window else SECOND
  {
    if idleTTL > 0 then idleTTL else if window > 0 then 10 * window else 10 * SECOND
  }

  /** An algorithm as the shared store sees it: the state a new key starts with, and one `allowN` on that state. */
  datatype Algorithm<!S> = Algorithm(create: Time -> S, step: (S, Time, int) -> (S, Decision))

  /** One `AllowN` request for a key, the clock already read. */
  datatype Call = Call(now: Time, n: int)

  function Next<S>(a: Algorithm<S>, s: S, now: Time, n: int): S {
    a.step(s, now, n).0
  }

  predicate Admits<S>(a: Algorithm<S>, s: S, now: Time, n: int) {
    a.step(s, now, n).1.allowed
  }

  /** The state after `k` calls of `Allow` (that is, `AllowN` of 1) at the same instant. */
  function AfterSingles<S>(a: Algorithm<S>, s: S, now: Time, k: nat): S {
    if k == 0 then s else Next(a, AfterSingles(a, s, now, k - 1), now, 1)
  }

  /** Whether `k` successive calls of `Allow` at the same instant are all admitted. */
  predicate SinglesAdmitted<S>(a: Algorithm<S>, s: S, now: Time, k: nat) {
    k == 0 || (SinglesAdmitted(a, s, now, k - 1) && Admits(a, AfterSingles(a, s, now, k - 1), now, 1))
  }

  /** Growing a batch by one request is the same as following it with a single one. */
  ghost predicate BatchGrows<S>(a: Algorithm<S>, s: S, now: Time, k: nat) {
    && (Admits(a, s, now, k + 1) <==> Admits(a, s, now, k) && Admits(a, Next(a, s, now, k), now, 1))
    && (Admits(a, s, now, k + 1) ==> Next(a, s, now, k + 1) == Next(a, Next(a, s, now, k), now, 1))
  }

  /** The batch law for any algorithm whose batches grow one request at a time. */
  lemma {:induction false} BatchLaw<S>(a: Algorithm<S>, s: S, now: Time, n: nat)
    requires n >= 1
    requires forall k: nat | 1 <= k < n :: BatchGrows(a, s, now, k)
    ensures Admits(a, s, now, n) <==> SinglesAdmitted(a, s, now, n)
    ensures Admits(a, s, now, n) ==> Next(a, s, now, n) == AfterSingles(a, s, now, n)
  {
    if n == 1 {
      assert AfterSingles(a, s, now, 0) == s;
      assert SinglesAdmitted(a, s, now, 0);
    } else {
      BatchLaw(a, s, now, n - 1);
      assert BatchGrows(a, s, now, n - 1);
    }
  }

  /** The decisions an algorithm takes on a list of calls for one key. */
  function Decisions<S>(a: Algorithm<S>, s: S, calls: seq<Call>): (ds: seq<Decision>)
    ensures |ds| == |calls|
  {
    if calls == [] then []
    else
      var (next, d) := a.step(s, calls[0].now, calls[0].n);
      [d] + Decisions(a, next, calls[1..])
  }

  /** Calls a well-behaved clock can produce: positive sizes, times that never go back. */
  ghost predicate Orderly(calls: seq<Call>, from: Time) {
    && (forall i | 0 <= i < |calls| :: calls[i].n >= 1 && calls[i].now >= from)
    && (forall i, j | 0 <= i < j < |calls| :: calls[i].now <= calls[j].now)
  }

  /** `related` holds on as time passes and as both serve the same request, and related states give `agree`ing answers. */
  ghost predicate Simulation<S(!new), T(!new)>(a: Algorithm<S>, b: Algorithm<T>, related: (S, T, Time) -> bool,
                                               agree: (int, Decision, Decision) -> bool) {
    && (forall s, t, now, later | related(s, t, now) && now <= later :: related(s, t, later))
    && (forall s, t, now, n | related(s, t, now) && n >= 1 ::
          && related(Next(a, s, now, n), Next(b, t, now, n), now)
          && agree(n, a.step(s, now, n).1, b.step(t, now, n).1))
  }

  lemma {:induction false} RelatedRunsAgree<S(!new), T(!new)>(
      a: Algorithm<S>, b: Algorithm<T>, related: (S, T, Time) -> bool, agree: (int, Decision, Decision) -> bool,
      s: S, t: T, calls: seq<Call>, now: Time)
    requires Simulation(a, b, related, agree) && related(s, t, now) && Orderly(calls, now)
    ensures forall i | 0 <= i < |calls| :: agree(calls[i].n, Decisions(a, s, calls)[i], Decisions(b, t, calls)[i])
  {
    if calls != [] {
      var first := calls[0];
      assert related(s, t, first.now);
      RelatedRunsAgree(a, b, related, agree, Next(a, s, first.now, first.n), Next(b, t, first.now, first.n), calls[1..],
                       first.now);
    }
  }
}
