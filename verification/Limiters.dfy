/** The four limiters over the shared store: `AllowN` as callers see it, and why each may forget idle keys. */
module Limiters {
  import opened Arith
  import opened Clock
  import opened RateLimit
  import opened ShardedState
  import opened Eviction
  import Gcra
  import TokenBucket
  import SlidingWindow
  import BucketedWindow

  datatype Answer = ContextDone | InvalidRequest | Answered(outcome: Outcome)

  /** `AllowN` of any of the four limiters; `done` says that the caller's context has ended, `now` is the clock's reading. */
  method AllowN<S>(store: Store<S>, a: Algorithm<S>, done: bool, key: Key, now: Time, n: int)
    returns (answer: Answer, ghost mid: seq<Items<S>>)
    requires store.Valid()
    modifies store`count, store.shards
    ensures store.Valid()
    ensures answer == ContextDone <==> done
    ensures answer == InvalidRequest <==> !done && n <= 0
    ensures !answer.Answered? ==> store.shards[..] == old(store.shards[..])
    ensures answer.Answered? ==>
              && AllCleaned(old(store.shards[..]), mid, now, store.idleTTL)
              && Served(mid, store.shards[..], store.ShardFor(key), key, now, store.maxKeys, store.policy, a.create,
                        Use(a, now, n), answer.outcome)
    ensures answer.Answered? ==>
              && OthersKept(old(store.shards[..]), store.shards[..], store.ShardFor(key), key, now, store.idleTTL)
              && KeyServed(old(store.shards[..]), store.shards[..], store.ShardFor(key), key, now, store.idleTTL, store.maxKeys,
                           store.policy, a.create, Use(a, now, n), answer.outcome)
    ensures answer.Answered? && store.maxKeys <= 0 ==>
              Section(a, store.hash, store.idleTTL, old(store.shards[..]), mid, store.shards[..],
                      Event(now, Serve(key, n), answer.outcome))
    ensures answer.Answered? ==>
              (answer.outcome == StateFull <==>
               && store.policy == RejectNewKey && store.maxKeys > 0 && store.count == store.maxKeys
               && key !in old(store.shards[store.ShardFor(key)])
               && Total(old(store.shards[..])) == store.maxKeys && AllFresh(old(store.shards[..]), now, store.idleTTL))
  {
    mid := store.shards[..];
    if done {
      return ContextDone, mid;
    }
    if n <= 0 {
      return InvalidRequest, mid;
    }
    ghost var before := store.shards[..];
    var outcome;
    outcome, mid := store.WithEntry(key, now, a.create, Use(a, now, n));
    answer := Answered(outcome);
    FullMeansFull(before, mid, store.shards[..], store.ShardFor(key), key, now, store.idleTTL, store.maxKeys, store.policy,
                  a.create, Use(a, now, n), outcome);
    EntryIsServed(before, mid, store.shards[..], store.ShardFor(key), key, now, store.idleTTL, store.maxKeys, store.policy,
                  a.create, Use(a, now, n), outcome);
  }

  // ---- GCRA ----

  ghost predicate GcraLike(x: Time, y: Time, t: Time) {
    ZERO_TIME <= t && Gcra.Effective(x, t) == Gcra.Effective(y, t)
  }

  ghost predicate GcraTouched(p: Gcra.Params, tat: Time, t: Time) {
    ZERO_TIME <= t && tat <= t + p.burst * p.interval
  }

  lemma GcraStepLike(p: Gcra.Params, x: Time, y: Time, now: Time, n: int)
    requires p.Valid() && GcraLike(x, y, now)
    ensures GcraLike(Gcra.Step(p, x, now, n).0, Gcra.Step(p, y, now, n).0, now)
    ensures Gcra.Step(p, x, now, n).1 == Gcra.Step(p, y, now, n).1
  {
  }

  lemma GcraStepTouched(p: Gcra.Params, tat: Time, now: Time, n: int)
    requires p.Valid() && GcraTouched(p, tat, now) && n >= 1
    ensures GcraTouched(p, Gcra.Step(p, tat, now, n).0, now)
  {
    Gcra.AdmittedIff(p, tat, now, n);
    Distribute(p.burst, n, p.interval);
  }

  /** A schedule idle for `burst` intervals has been caught up by the clock. */
  lemma GcraEvictable(p: Gcra.Params, ttl: int)
    requires p.Valid() && ttl + 1 >= p.burst * p.interval
    ensures Evictable(Gcra.Limiter(p), (x, y, t) => GcraLike(x, y, t), (x, t) => GcraTouched(p, x, t), ZERO_TIME, ttl)
  {
    MulMonotone(0, p.burst, p.interval);
    forall x, y, now, n | GcraLike(x, y, now) && n >= 1
      ensures GcraLike(Gcra.Step(p, x, now, n).0, Gcra.Step(p, y, now, n).0, now)
      ensures Gcra.Step(p, x, now, n).1 == Gcra.Step(p, y, now, n).1
    {
      GcraStepLike(p, x, y, now, n);
    }
    var a := Gcra.Limiter(p);
    forall x, now, n {:trigger Next(a, x, now, n)} | GcraTouched(p, x, now) && n >= 1
      ensures GcraTouched(p, Next(a, x, now, n), now)
    {
      GcraStepTouched(p, x, now, n);
    }
  }

  /** The bound on `IdleTTL` is exact: after a full burst, a key forgotten `ttl + 1` later decides the next burst as the kept
      key would exactly when `ttl + 1` covers the drain time. */
  lemma GcraTtlIsExact(p: Gcra.Params, now: Time, ttl: nat)
    requires p.Valid() && now >= ZERO_TIME
    ensures var kept := Gcra.Step(p, ZERO_TIME, now, p.burst).0;
            var later := now + ttl + 1;
            Gcra.Step(p, kept, later, p.burst).1.allowed == Gcra.Step(p, ZERO_TIME, later, p.burst).1.allowed
            <==> ttl + 1 >= p.burst * p.interval
  {
    var kept := Gcra.Step(p, ZERO_TIME, now, p.burst).0;
    Gcra.AdmittedIff(p, ZERO_TIME, now, p.burst);
    Gcra.AdmittedIff(p, ZERO_TIME, now + ttl + 1, p.burst);
    Gcra.AdmittedIff(p, kept, now + ttl + 1, p.burst);
    MulMonotone(1, p.burst, p.interval);
    assert (p.burst - p.burst) * p.interval == 0;
  }

  /** The default of ten windows, for a `Rate` that divides `Window`: it covers the drain time exactly while `Burst` is at most
      ten times `Rate`, and one more if the interval is a single nanosecond. */
  lemma DefaultTtlCovers(c: Config)
    requires c.rate > 0 && c.window > 0 && c.window % c.rate == 0 && c.idleTTL <= 0
    ensures var p := Gcra.New(c).value;
            NormalizeIdleTTL(c.idleTTL, c.window) + 1 >= p.burst * p.interval
            <==> p.burst <= 10 * c.rate + if p.interval == 1 then 1 else 0
  {
    var p := Gcra.New(c).value;
    var tenRates := 10 * c.rate;
    DivOrder(1, c.window, c.rate);
    assert c.window == p.interval * c.rate;
    assert tenRates * p.interval == 10 * c.window;
    MulOrder(p.burst, tenRates, p.interval);
    if p.burst > tenRates {
      Distribute(tenRates, 1, p.interval);
      MulMonotone(tenRates + 1, p.burst, p.interval);
    }
  }

  lemma GcraTransparent(p: Gcra.Params, ttl: int, hash: Key -> nat, events: seq<Event>, stores: seq<seq<Items<Time>>>,
                        mids: seq<seq<Items<Time>>>)
    requires p.Valid() && ttl + 1 >= p.burst * p.interval
    requires Run(Gcra.Limiter(p), hash, ttl, events, stores, mids) && ClockAdvances(events, ZERO_TIME)
    requires forall i | 0 <= i < |stores[0]| :: stores[0][i] == map[]
    ensures AllSame(Gcra.Limiter(p), map[], events)
  {
    GcraEvictable(p, ttl);
    EvictionIsTransparent(Gcra.Limiter(p), (x, y, t) => GcraLike(x, y, t), (x, t) => GcraTouched(p, x, t), ZERO_TIME, ttl,
                          hash, events, stores, mids);
  }

  // ---- Token bucket ----

  ghost predicate BucketTouched(p: TokenBucket.Params, b: TokenBucket.Bucket, t: Time) {
    b.last <= t && 0.0 <= b.tokens <= p.burst as real
  }

  ghost predicate BucketLike(p: TokenBucket.Params, b: TokenBucket.Bucket, c: TokenBucket.Bucket, t: Time)
    requires p.Valid()
  {
    BucketTouched(p, b, t) && BucketTouched(p, c, t) && TokenBucket.Refill(p, b, t) == TokenBucket.Refill(p, c, t)
  }

  lemma RefillTouched(p: TokenBucket.Params, b: TokenBucket.Bucket, now: Time)
    requires p.Valid() && BucketTouched(p, b, now)
    ensures BucketTouched(p, TokenBucket.Refill(p, b, now), now)
  {
    TokenBucket.MulOrderReal(0.0, (now - b.last) as real, p.flow);
  }

  lemma BucketStepTouched(p: TokenBucket.Params, b: TokenBucket.Bucket, now: Time, n: int)
    requires p.Valid() && BucketTouched(p, b, now) && n >= 1
    ensures BucketTouched(p, TokenBucket.Step(p, b, now, n).0, now)
  {
    RefillTouched(p, b, now);
  }

  lemma BucketStepLike(p: TokenBucket.Params, b: TokenBucket.Bucket, c: TokenBucket.Bucket, now: Time, n: int)
    requires p.Valid() && BucketLike(p, b, c, now) && n >= 1
    ensures BucketLike(p, TokenBucket.Step(p, b, now, n).0, TokenBucket.Step(p, c, now, n).0, now)
    ensures TokenBucket.Step(p, b, now, n).1 == TokenBucket.Step(p, c, now, n).1
  {
    BucketStepTouched(p, b, now, n);
  }

  lemma BucketLikeLater(p: TokenBucket.Params, b: TokenBucket.Bucket, c: TokenBucket.Bucket, now: Time, later: Time)
    requires p.Valid() && BucketLike(p, b, c, now) && now <= later
    ensures BucketLike(p, b, c, later)
  {
    TokenBucket.RefillComposes(p, b, now, later);
    TokenBucket.RefillComposes(p, c, now, later);
  }

  /** A bucket refilled for `elapsed` nanoseconds or more is full if `elapsed` nanoseconds fill it. */
  lemma FilledUp(p: TokenBucket.Params, b: TokenBucket.Bucket, now: Time, elapsed: int)
    requires p.Valid() && 0.0 <= b.tokens && b.last < now && elapsed <= now - b.last
    requires elapsed as real * p.flow >= p.burst as real
    ensures TokenBucket.Refill(p, b, now) == TokenBucket.Bucket(p.burst as real, now)
  {
    TokenBucket.MulOrderReal(elapsed as real, (now - b.last) as real, p.flow);
    assert b.tokens + (now - b.last) as real * p.flow >= p.burst as real;
  }

  lemma IdleBucketIsFull(p: TokenBucket.Params, b: TokenBucket.Bucket, t: Time, now: Time, ttl: int)
    requires p.Valid() && BucketTouched(p, b, t) && now - t > ttl >= 0 && (ttl + 1) as real * p.flow >= p.burst as real
    ensures BucketLike(p, TokenBucket.Bucket(p.burst as real, now), b, now)
  {
    FilledUp(p, b, now, ttl + 1);
    hide TokenBucket.Params.Valid;
    var full := TokenBucket.Bucket(p.burst as real, now);
    assert TokenBucket.Refill(p, full, now) == full;
  }

  /** A bucket idle for the time it takes to fill is full. */
  lemma TokenBucketEvictable(p: TokenBucket.Params, from: Time, ttl: int)
    requires p.Valid() && ttl >= 0 && (ttl + 1) as real * p.flow >= p.burst as real
    ensures Evictable(TokenBucket.Limiter(p), (b, c, t) => BucketLike(p, b, c, t), (b, t) => BucketTouched(p, b, t), from,
                      ttl)
  {
    forall b, c, now, later | BucketLike(p, b, c, now) && now <= later
      ensures BucketLike(p, b, c, later)
    {
      BucketLikeLater(p, b, c, now, later);
    }
    forall b, c, now, n | BucketLike(p, b, c, now) && n >= 1
      ensures BucketLike(p, TokenBucket.Step(p, b, now, n).0, TokenBucket.Step(p, c, now, n).0, now)
      ensures TokenBucket.Step(p, b, now, n).1 == TokenBucket.Step(p, c, now, n).1
    {
      BucketStepLike(p, b, c, now, n);
    }
    var a := TokenBucket.Limiter(p);
    forall b, now, n {:trigger Next(a, b, now, n)} | BucketTouched(p, b, now) && n >= 1
      ensures BucketTouched(p, Next(a, b, now, n), now)
    {
      BucketStepTouched(p, b, now, n);
    }
    forall b, t, now | BucketTouched(p, b, t) && now - t > ttl
      ensures BucketLike(p, a.create(now), b, now)
    {
      IdleBucketIsFull(p, b, t, now, ttl);
    }
  }

  /** Here too the bound is exact: a bucket emptied by a full burst serves the next burst as a new one would exactly when the
      idle time fills it. */
  lemma TokenBucketTtlIsExact(p: TokenBucket.Params, now: Time, ttl: nat)
    requires p.Valid()
    ensures var (a, later) := (TokenBucket.Limiter(p), now + ttl + 1);
            var kept := Next(a, a.create(now), now, p.burst);
            Admits(a, kept, later, p.burst) == Admits(a, a.create(later), later, p.burst)
            <==> (ttl + 1) as real * p.flow >= p.burst as real
  {
    var later := now + ttl + 1;
    var kept := TokenBucket.Step(p, TokenBucket.Limiter(p).create(now), now, p.burst).0;
    assert kept == TokenBucket.Bucket(0.0, now);
    assert (later - now) as real == (ttl + 1) as real;
  }

  lemma TokenBucketTransparent(p: TokenBucket.Params, from: Time, ttl: int, hash: Key -> nat, events: seq<Event>,
                               stores: seq<seq<Items<TokenBucket.Bucket>>>, mids: seq<seq<Items<TokenBucket.Bucket>>>)
    requires p.Valid() && ttl >= 0 && (ttl + 1) as real * p.flow >= p.burst as real
    requires Run(TokenBucket.Limiter(p), hash, ttl, events, stores, mids) && ClockAdvances(events, from)
    requires forall i | 0 <= i < |stores[0]| :: stores[0][i] == map[]
    ensures AllSame(TokenBucket.Limiter(p), map[], events)
  {
    TokenBucketEvictable(p, from, ttl);
    EvictionIsTransparent(TokenBucket.Limiter(p), (b, c, t) => BucketLike(p, b, c, t), (b, t) => BucketTouched(p, b, t),
                          from, ttl, hash, events, stores, mids);
  }

  // ---- Sliding window ----

  ghost predicate RecordsLike(p: SlidingWindow.Params, r: seq<Time>, s: seq<Time>, t: Time) {
    SlidingWindow.Prune(p, r, t) == SlidingWindow.Prune(p, s, t)
  }

  lemma {:induction false} PruneComposes(p: SlidingWindow.Params, r: seq<Time>, now: Time, later: Time)
    requires now <= later
    ensures SlidingWindow.Prune(p, SlidingWindow.Prune(p, r, now), later) == SlidingWindow.Prune(p, r, later)
  {
    if r != [] && r[0] <= now - p.window {
      PruneComposes(p, r[1..], now, later);
    }
  }

  lemma {:induction false} PruneAll(p: SlidingWindow.Params, r: seq<Time>, now: Time)
    requires SlidingWindow.UpTo(r, now - p.window)
    ensures SlidingWindow.Prune(p, r, now) == []
  {
    if r != [] {
      PruneAll(p, r[1..], now);
    }
  }

  lemma RecordsStepLike(p: SlidingWindow.Params, r: seq<Time>, s: seq<Time>, now: Time, n: int)
    requires p.Valid() && RecordsLike(p, r, s, now)
    ensures SlidingWindow.Step(p, r, now, n) == SlidingWindow.Step(p, s, now, n)
  {
  }

  lemma RecordsStepTouched(p: SlidingWindow.Params, r: seq<Time>, now: Time, n: int)
    requires p.Valid() && SlidingWindow.UpTo(r, now)
    ensures SlidingWindow.UpTo(SlidingWindow.Step(p, r, now, n).0, now)
  {
    SlidingWindow.PruneStops(p, r, now);
  }

  /** Records idle for a whole window have all expired. */
  lemma SlidingWindowEvictable(p: SlidingWindow.Params, from: Time, ttl: int)
    requires p.Valid() && ttl + 1 >= p.window
    ensures Evictable(SlidingWindow.Limiter(p), (r, s, t) => RecordsLike(p, r, s, t), (r, t) => SlidingWindow.UpTo(r, t),
                      from, ttl)
  {
    forall r, s, now, later | RecordsLike(p, r, s, now) && now <= later
      ensures RecordsLike(p, r, s, later)
    {
      PruneComposes(p, r, now, later);
      PruneComposes(p, s, now, later);
    }
    forall r, s, now, n | RecordsLike(p, r, s, now) && n >= 1
      ensures SlidingWindow.Step(p, r, now, n) == SlidingWindow.Step(p, s, now, n)
    {
      RecordsStepLike(p, r, s, now, n);
    }
    var a := SlidingWindow.Limiter(p);
    forall r, now, n {:trigger Next(a, r, now, n)} | SlidingWindow.UpTo(r, now) && n >= 1
      ensures SlidingWindow.UpTo(Next(a, r, now, n), now)
    {
      RecordsStepTouched(p, r, now, n);
    }
    forall r, t, now | SlidingWindow.UpTo(r, t) && now - t > ttl
      ensures RecordsLike(p, a.create(now), r, now)
    {
      PruneAll(p, r, now);
    }
  }

  /** And here: a window filled by a full burst serves the next burst as an empty one would exactly when the idle time covers
      the window. */
  lemma SlidingWindowTtlIsExact(p: SlidingWindow.Params, now: Time, ttl: nat)
    requires p.Valid()
    ensures var kept := SlidingWindow.Step(p, [], now, p.limit).0;
            var later := now + ttl + 1;
            SlidingWindow.Step(p, kept, later, p.limit).1.allowed == SlidingWindow.Step(p, [], later, p.limit).1.allowed
            <==> ttl + 1 >= p.window
  {
    var kept := SlidingWindow.Fill(now, p.limit);
    var later := now + ttl + 1;
    assert [] + kept == kept;
    if ttl + 1 >= p.window {
      PruneAll(p, kept, later);
    }
  }

  lemma SlidingWindowTransparent(p: SlidingWindow.Params, from: Time, ttl: int, hash: Key -> nat, events: seq<Event>,
                                 stores: seq<seq<Items<seq<Time>>>>, mids: seq<seq<Items<seq<Time>>>>)
    requires p.Valid() && ttl + 1 >= p.window
    requires Run(SlidingWindow.Limiter(p), hash, ttl, events, stores, mids) && ClockAdvances(events, from)
    requires forall i | 0 <= i < |stores[0]| :: stores[0][i] == map[]
    ensures AllSame(SlidingWindow.Limiter(p), map[], events)
  {
    SlidingWindowEvictable(p, from, ttl);
    EvictionIsTransparent(SlidingWindow.Limiter(p), (r, s, t) => RecordsLike(p, r, s, t),
                          (r, t) => SlidingWindow.UpTo(r, t), from, ttl, hash, events, stores, mids);
  }

  // ---- Bucketed window ----

  ghost predicate CountersTouched(p: BucketedWindow.Params, m: BucketedWindow.Buckets, t: Time)
    requires p.size >= 1
  {
    t >= 0 && forall i <- m :: i <= BucketedWindow.Index(p, t)
  }

  ghost predicate CountersLike(p: BucketedWindow.Params, m: BucketedWindow.Buckets, k: BucketedWindow.Buckets, t: Time)
    requires p.size >= 1
  {
    var current := BucketedWindow.Index(p, t);
    CountersTouched(p, m, t) && CountersTouched(p, k, t)
    && BucketedWindow.Prune(p, m, current) == BucketedWindow.Prune(p, k, current)
  }

  lemma CountersLikeLater(p: BucketedWindow.Params, m: BucketedWindow.Buckets, k: BucketedWindow.Buckets, now: Time,
                          later: Time)
    requires p.size >= 1 && CountersLike(p, m, k, now) && now <= later
    ensures CountersLike(p, m, k, later)
  {
    BucketedWindow.IndexMonotone(p, now, later);
    var (current, current') := (BucketedWindow.Index(p, now), BucketedWindow.Index(p, later));
    assert BucketedWindow.Prune(p, BucketedWindow.Prune(p, m, current), current') == BucketedWindow.Prune(p, m, current');
    assert BucketedWindow.Prune(p, BucketedWindow.Prune(p, k, current), current') == BucketedWindow.Prune(p, k, current');
  }

  lemma CountersTouchedLater(p: BucketedWindow.Params, m: BucketedWindow.Buckets, now: Time, later: Time)
    requires p.size >= 1 && CountersTouched(p, m, now) && now <= later
    ensures CountersTouched(p, m, later)
  {
    BucketedWindow.IndexMonotone(p, now, later);
  }

  lemma CountersStepLike(p: BucketedWindow.Params, m: BucketedWindow.Buckets, k: BucketedWindow.Buckets, now: Time, n: int)
    requires p.Valid() && p.size >= 1 && CountersLike(p, m, k, now)
    ensures CountersLike(p, BucketedWindow.Step(p, m, now, n).0, BucketedWindow.Step(p, k, now, n).0, now)
    ensures BucketedWindow.Step(p, m, now, n).1 == BucketedWindow.Step(p, k, now, n).1
  {
  }

  /** After `count` buckets' worth of idleness every counter has left the window. */
  lemma IdleCountersLeft(p: BucketedWindow.Params, m: BucketedWindow.Buckets, t: Time, now: Time)
    requires p.size >= 1 && p.count >= 1 && CountersTouched(p, m, t) && now - t >= p.count * p.size
    ensures CountersLike(p, map[], m, now)
  {
    MulMonotone(0, p.count, p.size);
    BucketedWindow.IndexMonotone(p, t, now);
    var idx := BucketedWindow.Index(p, t);
    BucketedWindow.IndexReaches(p, t, idx);
    Distribute(idx, p.count, p.size);
    BucketedWindow.IndexReaches(p, now, idx + p.count);
    assert BucketedWindow.Prune(p, m, BucketedWindow.Index(p, now)) == map[];
    assert BucketedWindow.Prune(p, map[], BucketedWindow.Index(p, now)) == map[];
  }

  lemma BucketedWindowEvictable(p: BucketedWindow.Params, ttl: int)
    requires p.Valid() && p.size >= 1 && ttl + 1 >= p.count * p.size
    ensures Evictable(BucketedWindow.Limiter(p), (m, k, t) => CountersLike(p, m, k, t), (m, t) => CountersTouched(p, m, t),
                      0, ttl)
  {
    forall m, k, now, later | CountersLike(p, m, k, now) && now <= later
      ensures CountersLike(p, m, k, later)
    {
      CountersLikeLater(p, m, k, now, later);
    }
    forall m, k, now, n | CountersLike(p, m, k, now) && n >= 1
      ensures CountersLike(p, BucketedWindow.Step(p, m, now, n).0, BucketedWindow.Step(p, k, now, n).0, now)
      ensures BucketedWindow.Step(p, m, now, n).1 == BucketedWindow.Step(p, k, now, n).1
    {
      CountersStepLike(p, m, k, now, n);
    }
    var a := BucketedWindow.Limiter(p);
    forall m, now, later | CountersTouched(p, m, now) && now <= later
      ensures CountersTouched(p, m, later)
    {
      CountersTouchedLater(p, m, now, later);
    }
    forall m, now, n {:trigger Next(a, m, now, n)} | CountersTouched(p, m, now) && n >= 1
      ensures CountersTouched(p, Next(a, m, now, n), now)
    {
      CountersStepLike(p, m, m, now, n);
    }
    forall m, t, now | CountersTouched(p, m, t) && now - t > ttl
      ensures CountersLike(p, a.create(now), m, now)
    {
      IdleCountersLeft(p, m, t, now);
    }
  }

  /** And here, for a full burst at the beginning of any bucket: the idle time has to cover all buckets. */
  lemma BucketedWindowTtlIsExact(p: BucketedWindow.Params, bucket: nat, ttl: nat)
    requires p.Valid() && p.size >= 1
    ensures var now := bucket * p.size;
            var kept := BucketedWindow.Step(p, map[], now, p.limit).0;
            var later := now + ttl + 1;
            BucketedWindow.Step(p, kept, later, p.limit).1.allowed
            == BucketedWindow.Step(p, map[], later, p.limit).1.allowed
            <==> ttl + 1 >= p.count * p.size
  {
    var now := bucket * p.size;
    var later := now + ttl + 1;
    MulMonotone(0, bucket, p.size);
    BucketedWindow.BucketStarts(p, bucket);
    BucketedWindow.FullBatchFits(p, map[], now);
    BucketedWindow.FullBatchFits(p, map[], later);
    var current := BucketedWindow.Index(p, later);
    Distribute(bucket, p.count, p.size);
    BucketedWindow.IndexReaches(p, later, bucket + p.count);
    BucketedWindow.IndexMonotone(p, now, later);
    BucketedWindow.OneBucketLeft(p, bucket, p.limit, later);
  }

  lemma BucketedWindowTransparent(p: BucketedWindow.Params, ttl: int, hash: Key -> nat, events: seq<Event>,
                                  stores: seq<seq<Items<BucketedWindow.Buckets>>>,
                                  mids: seq<seq<Items<BucketedWindow.Buckets>>>)
    requires p.Valid() && p.size >= 1 && ttl + 1 >= p.count * p.size
    requires Run(BucketedWindow.Limiter(p), hash, ttl, events, stores, mids) && ClockAdvances(events, 0)
    requires forall i | 0 <= i < |stores[0]| :: stores[0][i] == map[]
    ensures AllSame(BucketedWindow.Limiter(p), map[], events)
  {
    BucketedWindowEvictable(p, ttl);
    EvictionIsTransparent(BucketedWindow.Limiter(p), (m, k, t) => CountersLike(p, m, k, t),
                          (m, t) => CountersTouched(p, m, t), 0, ttl, hash, events, stores, mids);
  }
}
