/** `pkg/ratelimit/bucketed_sliding_window.go`: the approximate window, one counter per bucket of time. */
module BucketedWindow {
  import opened Arith
  import opened Clock
  import opened Collections
  import opened RateLimit

  datatype Params = Params(limit: int, window: int, count: int, size: int) {
    predicate Valid() {
      limit >= 1 && window >= 1 && count >= 1 && size == if window / count <= 0 then 1 else window / count
    }
  }

  function New(c: Config): (r: Result<Params>)
    ensures r.Ok? <==> c.rate > 0 && c.window > 0
    ensures r.Ok? ==> r.value.Valid() && r.value.limit == c.rate && r.value.window == c.window
    ensures r.Ok? ==> r.value.count == if c.bucketCount > 0 then c.bucketCount else 12
    ensures r.Ok? ==> Share(r.value.size, r.value.window, r.value.count)
  {
    if c.rate <= 0 || c.window <= 0 then InvalidConfig
    else
      var count := if c.bucketCount <= 0 then DEFAULT_BUCKET_COUNT else c.bucketCount;
      ShareOf(c.window, count);
      Ok(Params(c.rate, c.window, count, if c.window / count <= 0 then 1 else c.window / count))
  }

  type Buckets = map<int, int>

  /** Go's division truncates toward zero. */
  function Index(p: Params, t: Time): int
    requires p.size >= 1
  {
    if t >= 0 then t / p.size else -(-t / p.size)
  }

  function Expires(p: Params, idx: int): Time {
    idx * p.size + p.window
  }

  function Get(m: Buckets, i: int): int {
    if i in m then m[i] else 0
  }

  /** The units counted in buckets `lo` to `hi - 1`. */
  function RangeSum(m: Buckets, lo: int, hi: int): int
    decreases hi - lo
  {
    if hi <= lo then 0 else RangeSum(m, lo, hi - 1) + Get(m, hi - 1)
  }

  function First(p: Params, current: int): int {
    current - p.count + 1
  }

  function Prune(p: Params, m: Buckets, current: int): Buckets {
    map i | i in m && First(p, current) <= i <= current :: m[i]
  }

  function Total(p: Params, m: Buckets, current: int): int {
    RangeSum(m, First(p, current), current + 1)
  }

  /** The first bucket in use from `lo` on, or `current`. */
  function Oldest(m: Buckets, lo: int, current: int): int
    decreases current - lo
  {
    if lo >= current || lo in m then lo else Oldest(m, lo + 1, current)
  }

  function Step(p: Params, m: Buckets, now: Time, n: int): (Buckets, Decision)
    requires p.Valid()
  {
    var current := Index(p, now);
    var kept := Prune(p, m, current);
    var total := Total(p, kept, current);
    if n <= p.limit - total then
      (kept[current := Get(kept, current) + n],
       Decision(true, p.limit, p.limit - total - n, 0, NotNegative(Expires(p, current) - now)))
    else
      (kept, Decision(false, p.limit, NotNegative(p.limit - total),
                      NotNegative(Expires(p, Oldest(kept, First(p, current), current)) - now),
                      NotNegative(Expires(p, current) - now)))
  }

  class State {
    var buckets: Buckets

    constructor ()
      ensures buckets == map[]
    {
      buckets := map[];
    }
  }

  method PruneBuckets(p: Params, state: State, current: int)
    modifies state
    ensures state.buckets == Prune(p, old(state.buckets), current)
  {
    var min := current - p.count + 1;
    var rest := state.buckets.Keys;
    ghost var all := state.buckets;
    while rest != {}
      invariant rest <= all.Keys
      invariant state.buckets == map i | i in all && (i in rest || First(p, current) <= i <= current) :: all[i]
      decreases rest
    {
      ghost var _ := SomeElement(rest);
      var idx :| idx in rest;
      rest := rest - {idx};
      if idx < min || idx > current {
        state.buckets := state.buckets - {idx};
      }
    }
  }

  /** The buckets an iteration has already met. */
  function Visited(m: Buckets, rest: set<int>): Buckets {
    map i | i in m && i !in rest :: m[i]
  }

  /** The counting loop of `allowN`: it meets the buckets in no particular order. */
  method Tally(p: Params, buckets: Buckets, current: int) returns (total: int, oldest: int, latest: int)
    requires p.Valid() && forall i <- buckets :: First(p, current) <= i <= current
    ensures total == Total(p, buckets, current)
    ensures oldest == Oldest(buckets, First(p, current), current)
    ensures latest == current
  {
    total, oldest, latest := 0, current, current;
    var rest := buckets.Keys;
    RangeSumEmpty(First(p, current), current + 1);
    while rest != {}
      invariant rest <= buckets.Keys
      invariant total == RangeSum(Visited(buckets, rest), First(p, current), current + 1)
      invariant latest == current
      invariant First(p, current) <= oldest <= current && (oldest == current || oldest in buckets)
      invariant forall i | i in buckets && i !in rest :: oldest <= i
      decreases rest
    {
      ghost var _ := SomeElement(rest);
      var idx :| idx in rest;
      ghost var before := Visited(buckets, rest);
      rest := rest - {idx};
      RangeSumAdd(before, Visited(buckets, rest), idx, First(p, current), current + 1);
      total := total + buckets[idx];
      if idx < oldest {
        oldest := idx;
      }
      if idx > latest {
        latest := idx;
      }
    }
    RangeSumSame(buckets, Visited(buckets, {}), First(p, current), current + 1);
    OldestIsLeast(buckets, First(p, current), current, oldest);
  }

  method AllowN(p: Params, state: State, now: Time, n: int) returns (d: Decision)
    requires p.Valid()
    modifies state
    ensures (state.buckets, d) == Step(p, old(state.buckets), now, n)
  {
    var current := Index(p, now);
    PruneBuckets(p, state, current);
    var total, oldest, latest := Tally(p, state.buckets, current);
    var remaining := p.limit - total;
    d := Decision(false, p.limit, NotNegative(remaining), 0, 0);
    if n <= remaining {
      state.buckets := state.buckets[current := Get(state.buckets, current) + n];
      total := total + n;
      d := d.(allowed := true, remaining := p.limit - total, resetAfter := NotNegative(Expires(p, current) - now));
      return;
    }
    d := d.(retryAfter := NotNegative(Expires(p, oldest) - now), resetAfter := NotNegative(Expires(p, latest) - now));
  }

  function Limiter(p: Params): Algorithm<Buckets>
    requires p.Valid()
  {
    Algorithm(now => map[], (m, now, n) => Step(p, m, now, n))
  }

  // ---- Sums over buckets ----

  lemma {:induction false} RangeSumEmpty(lo: int, hi: int)
    ensures RangeSum(map[], lo, hi) == 0
    decreases hi - lo
  {
    if lo < hi {
      RangeSumEmpty(lo, hi - 1);
    }
  }

  /** Counting one more bucket adds its units, whatever order the buckets come in. */
  lemma {:induction false} RangeSumAdd(m: Buckets, m': Buckets, k: int, lo: int, hi: int)
    requires forall i :: i != k ==> Get(m, i) == Get(m', i)
    ensures RangeSum(m', lo, hi) == RangeSum(m, lo, hi) + if lo <= k < hi then Get(m', k) - Get(m, k) else 0
    decreases hi - lo
  {
    if lo < hi {
      RangeSumAdd(m, m', k, lo, hi - 1);
    }
  }

  lemma {:induction false} RangeSumSplit(m: Buckets, lo: int, mid: int, hi: int)
    requires lo <= mid <= hi
    ensures RangeSum(m, lo, hi) == RangeSum(m, lo, mid) + RangeSum(m, mid, hi)
    decreases hi - mid
  {
    if mid < hi {
      RangeSumSplit(m, lo, mid, hi - 1);
    }
  }

  lemma {:induction false} RangeSumSame(m: Buckets, m': Buckets, lo: int, hi: int)
    requires forall i | lo <= i < hi :: Get(m, i) == Get(m', i)
    ensures RangeSum(m, lo, hi) == RangeSum(m', lo, hi)
    decreases hi - lo
  {
    if lo < hi {
      RangeSumSame(m, m', lo, hi - 1);
    }
  }

  lemma {:induction false} OldestIsLeast(m: Buckets, lo: int, current: int, oldest: int)
    requires lo <= oldest <= current && (oldest == current || oldest in m)
    requires forall i <- m :: oldest <= i
    ensures Oldest(m, lo, current) == oldest
    decreases current - lo
  {
    if lo < oldest {
      OldestIsLeast(m, lo + 1, current, oldest);
    }
  }

  // ---- Bucket indexes ----

  lemma IndexMonotone(p: Params, s: Time, t: Time)
    requires p.size >= 1 && 0 <= s <= t
    ensures 0 <= Index(p, s) <= Index(p, t)
  {
    DivOrder(Index(p, s), s, p.size);
    DivOrder(Index(p, s), t, p.size);
    DivOrder(0, s, p.size);
  }

  /** Times at most `k` whole buckets apart lie at most `k` indexes apart. */
  lemma IndexSpan(p: Params, s: Time, t: Time, k: int)
    requires p.size >= 1 && 0 <= s <= t && t - s <= k * p.size
    ensures Index(p, t) - Index(p, s) <= k
  {
    var (i, j) := (Index(p, s), Index(p, t));
    DivOrder(j - k, s, p.size);
    DivOrder(j, t, p.size);
    Distribute(j, k, p.size);
  }

  /** An instant has reached bucket `idx` exactly when it is not earlier than the bucket's start. */
  lemma IndexReaches(p: Params, t: Time, idx: int)
    requires p.size >= 1 && t >= 0
    ensures idx <= Index(p, t) <==> idx * p.size <= t
  {
    DivOrder(idx, t, p.size);
  }

  lemma BucketStarts(p: Params, bucket: nat)
    requires p.size >= 1
    ensures bucket * p.size >= 0 && Index(p, bucket * p.size) == bucket
  {
    MulMonotone(0, bucket, p.size);
    Distribute(bucket, 1, p.size);
    DivOrder(bucket, bucket * p.size, p.size);
    DivOrder(bucket + 1, bucket * p.size, p.size);
  }

  // ---- Single decisions ----

  lemma PrunedTotal(p: Params, m: Buckets, current: int)
    ensures Total(p, Prune(p, m, current), current) == Total(p, m, current)
  {
    RangeSumSame(m, Prune(p, m, current), First(p, current), current + 1);
  }

  /** What an admission does: the current bucket grows by `n`, and so does the total. */
  lemma AdmissionCounts(p: Params, m: Buckets, now: Time, n: int)
    requires p.Valid() && Step(p, m, now, n).1.allowed
    ensures var (current, next) := (Index(p, now), Step(p, m, now, n).0);
            Prune(p, next, current) == next && Total(p, next, current) == Total(p, m, current) + n
  {
    var (current, next) := (Index(p, now), Step(p, m, now, n).0);
    PrunedTotal(p, m, current);
    RangeSumAdd(Prune(p, m, current), next, current, First(p, current), current + 1);
  }

  /** `Remaining` on an admission is the largest batch that would be admitted at the same instant. */
  lemma RemainingIsLargest(p: Params, m: Buckets, now: Time, n: int, k: int)
    requires p.Valid() && Step(p, m, now, n).1.allowed
    ensures Step(p, Step(p, m, now, n).0, now, k).1.allowed <==> k <= Step(p, m, now, n).1.remaining
    ensures Step(p, m, now, n).1.remaining >= 0
  {
    AdmissionCounts(p, m, now, n);
    PrunedTotal(p, m, Index(p, now));
  }

  lemma GrowBatch(p: Params, m: Buckets, now: Time, k: nat)
    requires p.Valid() && k >= 1
    ensures BatchGrows(Limiter(p), m, now, k)
  {
    PrunedTotal(p, m, Index(p, now));
    if Step(p, m, now, k).1.allowed {
      AdmissionCounts(p, m, now, k);
      var (current, next) := (Index(p, now), Step(p, m, now, k).0);
      var kept := Prune(p, m, current);
      assert next[current := Get(next, current) + 1] == kept[current := Get(kept, current) + (k + 1)];
    }
  }

  lemma BatchEqualsSingles(p: Params, m: Buckets, now: Time, n: nat)
    requires p.Valid() && n >= 1
    ensures Admits(Limiter(p), m, now, n) <==> SinglesAdmitted(Limiter(p), m, now, n)
    ensures Admits(Limiter(p), m, now, n) ==> Next(Limiter(p), m, now, n) == AfterSingles(Limiter(p), m, now, n)
  {
    forall k: nat | 1 <= k < n
      ensures BatchGrows(Limiter(p), m, now, k)
    {
      GrowBatch(p, m, now, k);
    }
    BatchLaw(Limiter(p), m, now, n);
  }

  /** The instant the oldest bucket in use leaves the window. */
  function OldestLeaves(p: Params, m: Buckets, now: Time): Time
    requires p.Valid()
  {
    var current := Index(p, now);
    (Oldest(Prune(p, m, current), First(p, current), current) + p.count) * p.size
  }

  /** Buckets hold admitted units, never more of them than the limit: see `RunIsTallied`. */
  ghost predicate Filled(p: Params, m: Buckets, current: int) {
    (forall i <- m :: m[i] >= 1 && i <= current) && Total(p, m, current) <= p.limit
  }

  lemma {:induction false} RangeSumPositive(m: Buckets, lo: int, hi: int)
    requires forall i <- m :: m[i] >= 1
    ensures RangeSum(m, lo, hi) >= 0
    ensures RangeSum(m, lo, hi) > 0 <==> exists i :: lo <= i < hi && i in m
    decreases hi - lo
  {
    if lo < hi {
      RangeSumPositive(m, lo, hi - 1);
    }
  }

  lemma {:induction false} OldestInUse(m: Buckets, lo: int, current: int)
    requires lo <= current && exists i :: lo <= i <= current && i in m
    ensures lo <= Oldest(m, lo, current) <= current && Oldest(m, lo, current) in m
    ensures forall i | lo <= i < Oldest(m, lo, current) :: i !in m
    decreases current - lo
  {
    if lo < current && lo !in m {
      OldestInUse(m, lo + 1, current);
    }
  }

  /** After a denial nothing changes until the oldest bucket leaves; then there is room for one unit more than before. */
  lemma AdmittedWhenOldestLeaves(p: Params, m: Buckets, now: Time, n: int, d: nat)
    requires p.Valid() && now >= 0 && Filled(p, m, Index(p, now))
    requires !Step(p, m, now, n).1.allowed && Step(p, m, now, n).1.remaining < p.limit
    ensures var (next, denial) := Step(p, m, now, n);
            Step(p, next, now + d, denial.remaining + 1).1.allowed <==> now + d >= OldestLeaves(p, m, now)
    ensures OldestLeaves(p, m, now) > now
  {
    var (current, later) := (Index(p, now), Index(p, now + d));
    var (lo, kept) := (First(p, current), Prune(p, m, current));
    PrunedTotal(p, m, current);
    PrunedTotal(p, kept, later);
    RangeSumPositive(kept, lo, current + 1);
    OldestInUse(kept, lo, current);
    var oldest := Oldest(kept, lo, current);
    IndexMonotone(p, now, now + d);
    IndexReaches(p, now, oldest + p.count);
    IndexReaches(p, now + d, oldest + p.count);
    if later < oldest + p.count {
      OnlyEmptyLeave(p, kept, current, later, oldest);
    } else {
      OldestLeft(p, kept, current, later, oldest);
    }
  }

  lemma OnlyEmptyLeave(p: Params, kept: Buckets, current: int, later: int, oldest: int)
    requires p.count >= 1 && First(p, current) <= oldest <= current <= later < oldest + p.count
    requires forall i <- kept :: i <= current
    requires forall i | First(p, current) <= i < oldest :: i !in kept
    ensures Total(p, kept, later) == Total(p, kept, current)
  {
    var (lo, lo') := (First(p, current), First(p, later));
    RangeSumSplit(kept, lo, lo', current + 1);
    RangeSumEmpty(lo, lo');
    RangeSumSame(kept, map[], lo, lo');
    RangeSumSplit(kept, lo', current + 1, later + 1);
    RangeSumEmpty(current + 1, later + 1);
    RangeSumSame(kept, map[], current + 1, later + 1);
  }

  lemma OldestLeft(p: Params, kept: Buckets, current: int, later: int, oldest: int)
    requires p.count >= 1 && First(p, current) <= oldest <= current <= later && oldest + p.count <= later
    requires forall i <- kept :: i <= current && kept[i] >= 1
    requires oldest in kept
    ensures Total(p, kept, later) < Total(p, kept, current)
  {
    var (lo, lo') := (First(p, current), First(p, later));
    var from := if lo' <= current + 1 then lo' else current + 1;
    RangeSumSplit(kept, lo, from, current + 1);
    RangeSumPositive(kept, lo, from);
    RangeSumSplit(kept, lo', if lo' <= current + 1 then current + 1 else lo', later + 1);
    RangeSumPositive(kept, current + 1, later + 1);
    RangeSumPositive(kept, lo', later + 1);
  }

  /** After a denial of whatever size, `RetryAfter` is long enough for one unit more than `Remaining` exactly when the window has
      a nanosecond for every bucket; then it overshoots the first instant at which that is admitted by the part of the window
      that the buckets do not cover. With nothing counted it is the rest of the window that began with the current bucket. */
  lemma RetryAfterOvershoots(p: Params, m: Buckets, now: Time, n: int)
    requires p.Valid() && now >= 0 && Filled(p, m, Index(p, now))
    requires !Step(p, m, now, n).1.allowed
    ensures var (next, denial) := Step(p, m, now, n);
            if denial.remaining == p.limit then denial.retryAfter == p.window - now % p.size && n > p.limit
            else
              && (Step(p, next, now + denial.retryAfter, denial.remaining + 1).1.allowed <==> p.window >= p.count)
              && (p.window >= p.count ==> now + denial.retryAfter == OldestLeaves(p, m, now) + p.window % p.count)
  {
    var current := Index(p, now);
    var kept := Prune(p, m, current);
    var oldest := Oldest(kept, First(p, current), current);
    var denial := Step(p, m, now, n).1;
    PrunedTotal(p, m, current);
    if denial.remaining < p.limit {
      AdmittedWhenOldestLeaves(p, m, now, n, denial.retryAfter);
      Distribute(oldest, p.count, p.size);
      BucketsFitWindow(p);
    } else {
      EmptyHasNoOldest(p, kept, current);
      ResetAfterIsRest(p, m, now, n);
      assert denial.retryAfter == denial.resetAfter;
    }
  }

  lemma EmptyHasNoOldest(p: Params, kept: Buckets, current: int)
    requires p.count >= 1 && (forall i <- kept :: kept[i] >= 1 && First(p, current) <= i <= current)
    requires Total(p, kept, current) <= 0
    ensures Oldest(kept, First(p, current), current) == current && Total(p, kept, current) == 0
  {
    RangeSumPositive(kept, First(p, current), current + 1);
    OldestIsLeast(kept, First(p, current), current, current);
  }

  /** `ResetAfter`, of an admission or a denial, is the rest of the window that began with the current bucket. */
  lemma ResetAfterIsRest(p: Params, m: Buckets, now: Time, n: int)
    requires p.Valid() && now >= 0
    ensures Step(p, m, now, n).1.resetAfter == p.window - now % p.size > 0
  {
    var q := now / p.size;
    assert now == q * p.size + now % p.size;
    BucketsFitWindow(p);
    if p.window >= p.count {
      MulMonotone(1, p.count, p.size);
    }
  }

  /** After an admission, and without other calls, a full batch is admitted exactly when the current bucket has left the
      window: after `ResetAfter`, less the part of the window that the buckets do not cover, or more by what they cover beyond
      it. So `ResetAfter` is exact if and only if the buckets divide the window. */
  lemma FullBatchAfterReset(p: Params, m: Buckets, now: Time, n: int, d: nat)
    requires p.Valid() && now >= 0 && n >= 1 && Filled(p, m, Index(p, now)) && Step(p, m, now, n).1.allowed
    ensures var (next, first) := Step(p, m, now, n);
            && (Step(p, next, now + d, p.limit).1.allowed <==> d >= first.resetAfter - (p.window - p.count * p.size))
            && (p.window == p.count * p.size <==> p.window % p.count == 0)
            && first.limit == p.limit && first.retryAfter == 0
  {
    BucketsFitWindow(p);
    ResetAfterIsRest(p, m, now, n);
    FullWhenCurrentLeaves(p, m, now, n, d);
    hide Step, Filled;
    var current := Index(p, now);
    IndexReaches(p, now + d, current + p.count);
    Distribute(current, p.count, p.size);
    assert now == current * p.size + now % p.size;
  }

  lemma FullWhenCurrentLeaves(p: Params, m: Buckets, now: Time, n: int, d: nat)
    requires p.Valid() && now >= 0 && n >= 1 && Filled(p, m, Index(p, now)) && Step(p, m, now, n).1.allowed
    ensures Step(p, Step(p, m, now, n).0, now + d, p.limit).1.allowed <==> Index(p, now) + p.count <= Index(p, now + d)
    ensures Step(p, m, now, n).1.limit == p.limit && Step(p, m, now, n).1.retryAfter == 0
  {
    var (current, later) := (Index(p, now), Index(p, now + d));
    var next := Step(p, m, now, n).0;
    IndexMonotone(p, now, now + d);
    PrunedTotal(p, next, later);
    if later < current + p.count {
      CurrentCounts(p, next, current, later);
    } else {
      assert Prune(p, next, later) == map[];
      FullBatchFits(p, next, now + d);
    }
  }

  lemma CurrentCounts(p: Params, m: Buckets, current: int, later: int)
    requires p.count >= 1 && (forall i <- m :: m[i] >= 1) && current in m && First(p, later) <= current <= later
    ensures Total(p, m, later) >= 1
  {
    RangeSumPositive(m, First(p, later), later + 1);
  }

  /** A denial drops only what has left the window, and its `Remaining` is the largest batch that would have been admitted. */
  lemma DenialFields(p: Params, m: Buckets, now: Time, n: int, k: int)
    requires p.Valid() && Filled(p, m, Index(p, now)) && !Step(p, m, now, n).1.allowed
    ensures var (next, d) := Step(p, m, now, n);
            && (Step(p, m, now, k).1.allowed <==> k <= d.remaining)
            && (Step(p, next, now, k).1.allowed <==> k <= d.remaining)
            && 0 <= d.remaining < n && d.limit == p.limit
  {
    PrunedTotal(p, m, Index(p, now));
    PrunedTotal(p, Step(p, m, now, n).0, Index(p, now));
  }

  /** Go's division: bucket 0 is twice as wide as the others, and the buckets before the epoch mirror those after it. */
  lemma IndexTruncates(p: Params, t: Time)
    requires p.size >= 1
    ensures t >= 0 ==> Index(p, t) * p.size <= t < (Index(p, t) + 1) * p.size
    ensures t < 0 ==> Index(p, t) == -Index(p, -t)
    ensures Index(p, t) == 0 <==> -p.size < t < p.size
  {
    var a := if t >= 0 then t else -t;
    DivOrder(a / p.size, a, p.size);
    DivOrder(a / p.size + 1, a, p.size);
    DivOrder(1, a, p.size);
    DivOrder(0, a, p.size);
  }

  lemma BucketsFitWindow(p: Params)
    requires p.Valid()
    ensures p.window >= p.count ==> p.count * p.size + p.window % p.count == p.window
    ensures p.window < p.count ==> p.size == 1 && p.count * p.size > p.window
    ensures p.size >= 1
  {
    var q := p.window / p.count;
    assert p.window == q * p.count + p.window % p.count;
    if p.window >= p.count {
      DivOrder(1, p.window, p.count);
    } else {
      DivOrder(1, p.window, p.count);
    }
  }

  // ---- Runs ----

  function After(p: Params, calls: seq<Call>): Buckets
    requires p.Valid()
  {
    if calls == [] then map[]
    else
      var last := calls[|calls| - 1];
      Step(p, After(p, calls[..|calls| - 1]), last.now, last.n).0
  }

  /** Every admission since the key was first seen. */
  function History(p: Params, calls: seq<Call>): seq<Call>
    requires p.Valid()
  {
    if calls == [] then []
    else
      var (before, last) := (calls[..|calls| - 1], calls[|calls| - 1]);
      History(p, before) + if Step(p, After(p, before), last.now, last.n).1.allowed then [last] else []
  }

  /** The units admitted in buckets `lo` to `hi - 1`. */
  function UnitsIn(p: Params, history: seq<Call>, lo: int, hi: int): int
    requires p.size >= 1
  {
    if history == [] then 0
    else
      var last := history[|history| - 1];
      UnitsIn(p, history[..|history| - 1], lo, hi) + if lo <= Index(p, last.now) < hi then last.n else 0
  }

  /** The units admitted from `s` to `t`, both included. */
  function UnitsBetween(history: seq<Call>, s: Time, t: Time): int {
    if history == [] then 0
    else
      var last := history[|history| - 1];
      UnitsBetween(history[..|history| - 1], s, t) + if s <= last.now <= t then last.n else 0
  }

  /** Every `count` consecutive buckets together admitted at most `limit` units. */
  ghost predicate Bounded(p: Params, history: seq<Call>)
    requires p.size >= 1
  {
    forall lo, hi | hi - lo <= p.count :: UnitsIn(p, history, lo, hi) <= p.limit
  }

  /** The buckets still in the window count exactly the admissions that fell into them. */
  ghost predicate Tallied(p: Params, history: seq<Call>, m: Buckets, current: int)
    requires p.size >= 1
  {
    && (forall i <- m :: m[i] >= 1 && i <= current)
    && (forall i | First(p, current) <= i :: Get(m, i) == UnitsIn(p, history, i, i + 1))
  }

  ghost predicate Served(history: seq<Call>, upTo: Time) {
    forall i | 0 <= i < |history| :: history[i].n >= 1 && 0 <= history[i].now <= upTo
  }

  lemma {:induction false} UnitsInSplit(p: Params, history: seq<Call>, lo: int, mid: int, hi: int)
    requires p.size >= 1 && lo <= mid <= hi
    ensures UnitsIn(p, history, lo, hi) == UnitsIn(p, history, lo, mid) + UnitsIn(p, history, mid, hi)
  {
    if history != [] {
      UnitsInSplit(p, history[..|history| - 1], lo, mid, hi);
    }
  }

  lemma {:induction false} UnitsInEmpty(p: Params, history: seq<Call>, lo: int, hi: int)
    requires p.size >= 1 && hi <= lo
    ensures UnitsIn(p, history, lo, hi) == 0
  {
    if history != [] {
      UnitsInEmpty(p, history[..|history| - 1], lo, hi);
    }
  }

  lemma {:induction false} UnitsInGrows(p: Params, history: seq<Call>, upTo: Time, lo: int, hi: int)
    requires p.size >= 1 && Served(history, upTo)
    ensures UnitsIn(p, history, lo, hi) >= 0
  {
    if history != [] {
      UnitsInGrows(p, history[..|history| - 1], upTo, lo, hi);
    }
  }

  /** The counters in the window add up to the admissions in it. */
  lemma {:induction false} TallyAddsUp(p: Params, history: seq<Call>, m: Buckets, current: int, hi: int)
    requires p.size >= 1 && Tallied(p, history, m, current) && First(p, current) <= hi
    ensures RangeSum(m, First(p, current), hi) == UnitsIn(p, history, First(p, current), hi)
    decreases hi - First(p, current)
  {
    if hi == First(p, current) {
      UnitsInEmpty(p, history, hi, hi);
    } else {
      TallyAddsUp(p, history, m, current, hi - 1);
      UnitsInSplit(p, history, First(p, current), hi - 1, hi);
    }
  }

  lemma UnitsInAppend(p: Params, history: seq<Call>, call: Call, lo: int, hi: int)
    requires p.size >= 1
    ensures UnitsIn(p, history + [call], lo, hi) ==
            UnitsIn(p, history, lo, hi) + if lo <= Index(p, call.now) < hi then call.n else 0
  {
    assert (history + [call])[..|history|] == history;
  }

  /** An admission keeps every `count` consecutive buckets within the limit: those that contain it lie, as far as they
      have been used, within the window it was held against. */
  lemma AdmissionBounded(p: Params, history: seq<Call>, call: Call)
    requires p.Valid() && call.now >= 0 && Served(history, call.now) && Bounded(p, history)
    requires UnitsIn(p, history, First(p, Index(p, call.now)), Index(p, call.now) + 1) + call.n <= p.limit
    ensures Bounded(p, history + [call])
  {
    var current := Index(p, call.now);
    forall lo, hi | hi - lo <= p.count
      ensures UnitsIn(p, history + [call], lo, hi) <= p.limit
    {
      UnitsInAppend(p, history, call, lo, hi);
      if lo <= current < hi {
        UnitsInSplit(p, history, lo, current + 1, hi);
        NothingAhead(p, history, call.now, current + 1, hi);
        UnitsInSplit(p, history, First(p, current), lo, current + 1);
        UnitsInGrows(p, history, call.now, First(p, current), lo);
      }
    }
  }

  lemma {:induction false} NothingAhead(p: Params, history: seq<Call>, now: Time, lo: int, hi: int)
    requires p.size >= 1 && Served(history, now) && Index(p, now) < lo
    ensures UnitsIn(p, history, lo, hi) == 0
  {
    if history != [] {
      IndexMonotone(p, history[|history| - 1].now, now);
      NothingAhead(p, history[..|history| - 1], now, lo, hi);
    }
  }

  /** As time passes, pruning drops only buckets that have left the window. */
  lemma PruneKeepsTally(p: Params, history: seq<Call>, m: Buckets, at: int, current: int)
    requires p.Valid() && Tallied(p, history, m, at) && at <= current
    ensures Tallied(p, history, Prune(p, m, current), current)
  {
    forall i | First(p, current) <= i
      ensures Get(Prune(p, m, current), i) == UnitsIn(p, history, i, i + 1)
    {
      assert Get(m, i) == UnitsIn(p, history, i, i + 1);
    }
  }

  lemma AdmissionKeepsTally(p: Params, history: seq<Call>, m: Buckets, call: Call)
    requires p.Valid() && call.n >= 1 && Tallied(p, history, m, Index(p, call.now))
    ensures var current := Index(p, call.now);
            Tallied(p, history + [call], m[current := Get(m, current) + call.n], current)
  {
    var current := Index(p, call.now);
    var m' := m[current := Get(m, current) + call.n];
    forall i | First(p, current) <= i
      ensures Get(m', i) == UnitsIn(p, history + [call], i, i + 1)
    {
      UnitsInAppend(p, history, call, i, i + 1);
      assert Get(m, i) == UnitsIn(p, history, i, i + 1);
    }
    assert current in m ==> m[current] >= 1;
  }

  /** The invariant of every run with a clock that never goes back, nor before the epoch. */
  lemma {:induction false} RunIsTallied(p: Params, calls: seq<Call>, from: Time)
    requires p.Valid() && from >= 0 && Orderly(calls, from)
    ensures var last := if calls == [] then from else calls[|calls| - 1].now;
            && Served(History(p, calls), last)
            && Tallied(p, History(p, calls), After(p, calls), Index(p, last))
            && Bounded(p, History(p, calls))
  {
    if calls != [] {
      var (before, last) := (calls[..|calls| - 1], calls[|calls| - 1]);
      RunIsTallied(p, before, from);
      var at := if before == [] then from else before[|before| - 1].now;
      ServeKeepsTally(p, History(p, before), After(p, before), at, last);
    }
  }

  lemma ServeKeepsTally(p: Params, history: seq<Call>, m: Buckets, at: Time, call: Call)
    requires p.Valid() && 0 <= at <= call.now && call.n >= 1
    requires Served(history, at) && Tallied(p, history, m, Index(p, at)) && Bounded(p, history)
    ensures var (next, d) := Step(p, m, call.now, call.n);
            var history' := history + if d.allowed then [call] else [];
            Served(history', call.now) && Tallied(p, history', next, Index(p, call.now)) && Bounded(p, history')
  {
    var current := Index(p, call.now);
    var kept := Prune(p, m, current);
    IndexMonotone(p, at, call.now);
    PruneKeepsTally(p, history, m, Index(p, at), current);
    TallyAddsUp(p, history, kept, current, current + 1);
    if call.n <= p.limit - Total(p, kept, current) {
      AdmissionKeepsTally(p, history, kept, call);
      AdmissionBounded(p, history, call);
    } else {
      assert history + [] == history;
    }
  }

  /** The invariant the retry lemmas rely on holds in every run. */
  lemma RunIsFilled(p: Params, calls: seq<Call>, from: Time, now: Time)
    requires p.Valid() && from >= 0 && Orderly(calls, from)
    requires now >= if calls == [] then from else calls[|calls| - 1].now
    ensures Filled(p, After(p, calls), Index(p, now))
  {
    RunIsTallied(p, calls, from);
    var (history, m) := (History(p, calls), After(p, calls));
    var at := if calls == [] then from else calls[|calls| - 1].now;
    IndexMonotone(p, at, now);
    PruneKeepsTally(p, history, m, Index(p, at), Index(p, now));
    PrunedTotal(p, m, Index(p, now));
    TallyAddsUp(p, history, Prune(p, m, Index(p, now)), Index(p, now), Index(p, now) + 1);
    assert UnitsIn(p, history, First(p, Index(p, now)), Index(p, now) + 1) <= p.limit;
  }

  // ---- Bounds in time ----

  lemma {:induction false} SpanInBuckets(p: Params, history: seq<Call>, upTo: Time, s: Time, t: Time)
    requires p.size >= 1 && 0 <= s <= t && Served(history, upTo)
    ensures UnitsBetween(history, s, t) <= UnitsIn(p, history, Index(p, s), Index(p, t) + 1)
  {
    if history != [] {
      var last := history[|history| - 1];
      SpanInBuckets(p, history[..|history| - 1], upTo, s, t);
      if s <= last.now <= t {
        IndexMonotone(p, s, last.now);
        IndexMonotone(p, last.now, t);
      }
    }
  }

  /** A span of `count - 1` buckets or less admits at most `Rate` units. */
  lemma ShortSpanBound(p: Params, calls: seq<Call>, from: Time, s: Time, t: Time)
    requires p.Valid() && from >= 0 && Orderly(calls, from)
    requires 0 <= s <= t && t - s <= (p.count - 1) * p.size
    ensures UnitsBetween(History(p, calls), s, t) <= p.limit
  {
    RunIsTallied(p, calls, from);
    BucketsFitWindow(p);
    IndexSpan(p, s, t, p.count - 1);
    SpanInBuckets(p, History(p, calls), if calls == [] then from else calls[|calls| - 1].now, s, t);
  }

  /** Any span as long as the window admits at most twice `Rate`, also when the buckets do not divide the window. */
  lemma WindowSpanBound(p: Params, calls: seq<Call>, from: Time, s: Time, t: Time)
    requires p.Valid() && from >= 0 && Orderly(calls, from)
    requires 0 <= s <= t && t - s <= p.window
    ensures UnitsBetween(History(p, calls), s, t) <= 2 * p.limit
  {
    RunIsTallied(p, calls, from);
    var history := History(p, calls);
    var (lo, hi) := (Index(p, s), Index(p, t) + 1);
    BucketsFitWindow(p);
    WindowBuckets(p, s, t);
    SpanInBuckets(p, history, if calls == [] then from else calls[|calls| - 1].now, s, t);
    IndexMonotone(p, s, t);
    var mid := if lo + p.count <= hi then lo + p.count else hi;
    UnitsInSplit(p, history, lo, mid, hi);
  }

  /** A span as long as the window touches at most twice as many buckets as the window has. */
  lemma WindowBuckets(p: Params, s: Time, t: Time)
    requires p.Valid() && 0 <= s <= t && t - s <= p.window
    ensures Index(p, t) + 1 - Index(p, s) <= 2 * p.count
  {
    BucketsFitWindow(p);
    var k := 2 * p.count - 1;
    assert k * p.size >= p.window by {
      if p.window >= p.count {
        MulMonotone(1, p.size, p.count - 1);
        Distribute(p.count, p.count - 1, p.size);
      } else {
        assert k >= p.count;
      }
    }
    IndexSpan(p, s, t, k);
  }

  /** The last nanosecond of bucket 0 and the first of bucket `count`. */
  lemma EdgeIndexes(p: Params)
    requires p.count >= 1 && p.size >= 1
    ensures Index(p, p.size - 1) == 0 && Index(p, p.count * p.size) == p.count
    ensures p.size - 1 < p.count * p.size == (p.count - 1) * p.size + p.size
  {
    MulMonotone(1, p.count, p.size);
    Distribute(p.count, 1, p.size);
    DivOrder(0, p.size - 1, p.size);
    DivOrder(1, p.size - 1, p.size);
    DivOrder(p.count, p.count * p.size, p.size);
    DivOrder(p.count + 1, p.count * p.size, p.size);
  }

  /** With nothing left in the window, a full batch fits. */
  lemma FullBatchFits(p: Params, m: Buckets, now: Time)
    requires p.Valid() && Prune(p, m, Index(p, now)) == map[]
    ensures Step(p, m, now, p.limit).1.allowed && Step(p, m, now, p.limit).0 == map[Index(p, now) := p.limit]
  {
    RangeSumEmpty(First(p, Index(p, now)), Index(p, now) + 1);
  }

  /** Both bounds are reached, whatever the parameters: one nanosecond more than `count - 1` buckets can admit `2 * Rate`. */
  lemma BoundsAreSharp(p: Params)
    requires p.Valid()
    ensures var calls := [Call(p.size - 1, p.limit), Call(p.count * p.size, p.limit)];
            && Orderly(calls, 0)
            && calls[1].now - calls[0].now == (p.count - 1) * p.size + 1
            && UnitsBetween(History(p, calls), calls[0].now, calls[1].now) == 2 * p.limit
  {
    var (first, second) := (Call(p.size - 1, p.limit), Call(p.count * p.size, p.limit));
    BucketsFitWindow(p);
    EdgeIndexes(p);
    FullBatchFits(p, map[], first.now);
    FullBatchFits(p, map[0 := p.limit], second.now);
    TwoAdmitted(p, first, second);
  }

  /** With a single bucket in use, and that full, a full batch fits exactly when that bucket has left the window. */
  lemma OneBucketLeft(p: Params, bucket: int, units: int, now: Time)
    requires p.Valid() && units >= 1 && bucket <= Index(p, now)
    ensures Step(p, map[bucket := units], now, p.limit).1.allowed <==> bucket + p.count <= Index(p, now)
  {
    var current := Index(p, now);
    var kept := Prune(p, map[bucket := units], current);
    if bucket + p.count <= current {
      assert kept == map[];
      FullBatchFits(p, map[bucket := units], now);
    } else {
      assert kept == map[bucket := units];
      RangeSumEmpty(First(p, current), current + 1);
      RangeSumAdd(map[], kept, bucket, First(p, current), current + 1);
    }
  }

  lemma TwoAdmitted(p: Params, first: Call, second: Call)
    requires p.Valid() && first.now <= second.now
    requires Step(p, map[], first.now, first.n).1.allowed
    requires Step(p, Step(p, map[], first.now, first.n).0, second.now, second.n).1.allowed
    ensures UnitsBetween(History(p, [first, second]), first.now, second.now) == first.n + second.n
  {
    assert [first, second][..1] == [first] && [first][..0] == [];
    assert After(p, [first]) == Step(p, After(p, []), first.now, first.n).0;
    assert History(p, [first]) == [first];
    assert History(p, [first, second]) == [first, second];
    assert UnitsBetween([first], first.now, second.now) == first.n;
  }
}
