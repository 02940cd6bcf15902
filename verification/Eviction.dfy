/** Deleting idle keys is invisible: whatever cleanup deletes, the store decides as if it kept every key for ever. */
module Eviction {
  import opened Clock
  import opened RateLimit
  import opened ShardedState

  /** What makes an algorithm safe to evict. `like(s, u, t)`: from `t` on, `s` and `u` cannot be told apart.
      `touched(s, t)`: `s` was last used no later than `t`. A state idle for longer than `ttl` must be like a new one. */
  ghost predicate Evictable<S(!new)>(a: Algorithm<S>, like: (S, S, Time) -> bool, touched: (S, Time) -> bool,
                                     from: Time, ttl: int) {
    && Simulation(a, a, like, (n, d, e) => d == e)
    && (forall t | from <= t :: like(a.create(t), a.create(t), t) && touched(a.create(t), t))
    && (forall s, t, now | touched(s, t) && t <= now :: touched(s, now))
    && (forall s, now, n {:trigger Next(a, s, now, n)} | touched(s, now) && n >= 1 :: touched(Next(a, s, now, n), now))
    && (forall s, t, now | touched(s, t) && now - t > ttl :: like(a.create(now), s, now))
  }

  /** What one lock section does after its cleanup: nothing more, serve a request, or forget a key. */
  datatype Op = Tidy | Serve(key: Key, n: int) | Forget(key: Key)

  datatype Event = Event(now: Time, op: Op, outcome: Outcome)

  function Use<S>(a: Algorithm<S>, now: Time, n: int): (S, bool) -> (S, Decision) {
    (s, _) => a.step(s, now, n)
  }

  function ShardOf(hash: Key -> nat, key: Key, shards: nat): nat
    requires shards > 0
  {
    hash(key) % shards
  }

  /** The lock sections of a store without `MaxKeys`; cleanup may have deleted any expired entries, in any shards. */
  ghost predicate Section<S>(a: Algorithm<S>, hash: Key -> nat, ttl: int, before: seq<Items<S>>, mid: seq<Items<S>>,
                             after: seq<Items<S>>, e: Event)
    requires |before| > 0
  {
    && AllCleaned(before, mid, e.now, ttl)
    && match e.op
       case Tidy => after == mid
       case Forget(key) =>
         var i := ShardOf(hash, key, |before|);
         after == mid[i := mid[i] - {key}]
       case Serve(key, n) =>
         n >= 1 && Served(mid, after, ShardOf(hash, key, |before|), key, e.now, 0, RejectNewKey, a.create,
                          Use(a, e.now, n), e.outcome)
  }

  // ---- The store that never evicts ----

  function StateOf<S>(a: Algorithm<S>, kept: map<Key, S>, key: Key, now: Time): S {
    if key in kept then kept[key] else a.create(now)
  }

  function KeepAll<S>(a: Algorithm<S>, kept: map<Key, S>, e: Event): map<Key, S> {
    match e.op
    case Tidy => kept
    case Forget(key) => kept - {key}
    case Serve(key, n) => kept[key := Next(a, StateOf(a, kept, key, e.now), e.now, n)]
  }

  /** Whether an event reports what the store that never evicts would decide. */
  predicate SameDecision<S>(a: Algorithm<S>, kept: map<Key, S>, e: Event) {
    e.op.Serve? ==> e.outcome == Decided(a.step(StateOf(a, kept, e.op.key, e.now), e.now, e.op.n).1)
  }

  predicate AllSame<S>(a: Algorithm<S>, kept: map<Key, S>, events: seq<Event>)
    decreases |events|
  {
    events == [] || (SameDecision(a, kept, events[0]) && AllSame(a, KeepAll(a, kept, events[0]), events[1..]))
  }

  // ---- The simulation ----

  /** How one key of the evicting store stands to the same key of the one that never evicts, at time `clock`. */
  ghost predicate KeyMirrors<S(!new)>(a: Algorithm<S>, like: (S, S, Time) -> bool, touched: (S, Time) -> bool,
                                      items: Items<S>, kept: map<Key, S>, clock: Time, key: Key) {
    if key in items then
      && key in kept
      && items[key].lastSeen <= clock
      && touched(kept[key], items[key].lastSeen)
      && like(items[key].value, kept[key], items[key].lastSeen)
    else
      key in kept ==> touched(kept[key], clock) && forall now | clock <= now :: like(a.create(now), kept[key], now)
  }

  ghost predicate Mirrors<S(!new)>(a: Algorithm<S>, like: (S, S, Time) -> bool, touched: (S, Time) -> bool,
                                   hash: Key -> nat, shards: seq<Items<S>>, kept: map<Key, S>, clock: Time) {
    && Placed(shards, hash)
    && forall key :: KeyMirrors(a, like, touched, shards[ShardOf(hash, key, |shards|)], kept, clock, key)
  }

  /** Cleanup may drop the key or keep it: either way its mirror stands. */
  lemma CleanupMirrors<S(!new)>(a: Algorithm<S>, like: (S, S, Time) -> bool, touched: (S, Time) -> bool, from: Time,
                                ttl: int, before: Items<S>, after: Items<S>, kept: map<Key, S>, clock: Time, now: Time,
                                key: Key)
    requires Evictable(a, like, touched, from, ttl) && clock <= now && Cleaned(before, after, now, ttl)
    requires KeyMirrors(a, like, touched, before, kept, clock, key)
    ensures KeyMirrors(a, like, touched, after, kept, now, key)
  {
    if key in before && key !in after {
      assert Expired(before[key], now, ttl);
    }
  }

  lemma ServeMirrors<S(!new)>(a: Algorithm<S>, like: (S, S, Time) -> bool, touched: (S, Time) -> bool, from: Time,
                              ttl: int, items: Items<S>, kept: map<Key, S>, now: Time, key: Key, n: int)
    requires Evictable(a, like, touched, from, ttl) && from <= now && n >= 1
    requires KeyMirrors(a, like, touched, items, kept, now, key)
    ensures var s := if key in items then items[key].value else a.create(now);
            var u := StateOf(a, kept, key, now);
            && a.step(s, now, n).1 == a.step(u, now, n).1
            && KeyMirrors(a, like, touched, items[key := Entry(Next(a, s, now, n), now)], kept[key := Next(a, u, now, n)],
                          now, key)
  {
    var s := if key in items then items[key].value else a.create(now);
    var u := StateOf(a, kept, key, now);
    assert like(s, u, now);
    assert touched(u, now);
    assert touched(Next(a, u, now, n), now);
  }

  lemma TidyMirrors<S(!new)>(a: Algorithm<S>, like: (S, S, Time) -> bool, touched: (S, Time) -> bool, from: Time,
                             ttl: int, hash: Key -> nat, before: seq<Items<S>>, mid: seq<Items<S>>, kept: map<Key, S>,
                             clock: Time, now: Time)
    requires Evictable(a, like, touched, from, ttl) && clock <= now && AllCleaned(before, mid, now, ttl)
    requires Mirrors(a, like, touched, hash, before, kept, clock)
    ensures Mirrors(a, like, touched, hash, mid, kept, now)
  {
    CleanedStaysPlaced(before, mid, now, ttl, hash);
    forall key
      ensures KeyMirrors(a, like, touched, mid[ShardOf(hash, key, |mid|)], kept, now, key)
    {
      var i := ShardOf(hash, key, |before|);
      CleanupMirrors(a, like, touched, from, ttl, before[i], mid[i], kept, clock, now, key);
    }
  }

  /** Updating one key in both stores concerns no other key. */
  lemma PutMirrors<S(!new)>(a: Algorithm<S>, like: (S, S, Time) -> bool, touched: (S, Time) -> bool, hash: Key -> nat,
                            shards: seq<Items<S>>, kept: map<Key, S>, now: Time, key: Key, entry: Entry<S>, s: S)
    requires Mirrors(a, like, touched, hash, shards, kept, now)
    requires KeyMirrors(a, like, touched, shards[ShardOf(hash, key, |shards|)][key := entry], kept[key := s], now, key)
    ensures var i := ShardOf(hash, key, |shards|);
            Mirrors(a, like, touched, hash, shards[i := shards[i][key := entry]], kept[key := s], now)
  {
    var i := ShardOf(hash, key, |shards|);
    var after := shards[i := shards[i][key := entry]];
    PutStaysPlaced(shards, i, key, entry, hash);
    forall other
      ensures KeyMirrors(a, like, touched, after[ShardOf(hash, other, |after|)], kept[key := s], now, other)
    {
      assert KeyMirrors(a, like, touched, shards[ShardOf(hash, other, |shards|)], kept, now, other);
    }
  }

  lemma DropMirrors<S(!new)>(a: Algorithm<S>, like: (S, S, Time) -> bool, touched: (S, Time) -> bool, hash: Key -> nat,
                             shards: seq<Items<S>>, kept: map<Key, S>, now: Time, key: Key)
    requires Mirrors(a, like, touched, hash, shards, kept, now)
    ensures var i := ShardOf(hash, key, |shards|);
            Mirrors(a, like, touched, hash, shards[i := shards[i] - {key}], kept - {key}, now)
  {
    var i := ShardOf(hash, key, |shards|);
    var after := shards[i := shards[i] - {key}];
    forall other
      ensures KeyMirrors(a, like, touched, after[ShardOf(hash, other, |after|)], kept - {key}, now, other)
    {
      assert KeyMirrors(a, like, touched, shards[ShardOf(hash, other, |shards|)], kept, now, other);
    }
  }

  /** One lock section decides as the store that never evicts, and the mirror stands. */
  lemma SectionMirrors<S(!new)>(a: Algorithm<S>, like: (S, S, Time) -> bool, touched: (S, Time) -> bool, from: Time,
                                ttl: int, hash: Key -> nat, before: seq<Items<S>>, mid: seq<Items<S>>,
                                after: seq<Items<S>>, kept: map<Key, S>, clock: Time, e: Event)
    requires Evictable(a, like, touched, from, ttl) && from <= e.now && clock <= e.now
    requires Mirrors(a, like, touched, hash, before, kept, clock)
    requires Section(a, hash, ttl, before, mid, after, e)
    ensures SameDecision(a, kept, e)
    ensures Mirrors(a, like, touched, hash, after, KeepAll(a, kept, e), e.now)
  {
    TidyMirrors(a, like, touched, from, ttl, hash, before, mid, kept, clock, e.now);
    match e.op
    case Tidy =>
    case Forget(key) => DropMirrors(a, like, touched, hash, mid, kept, e.now, key);
    case Serve(key, n) => ServeSection(a, like, touched, from, ttl, hash, mid, after, kept, e);
  }

  lemma ServeSection<S(!new)>(a: Algorithm<S>, like: (S, S, Time) -> bool, touched: (S, Time) -> bool, from: Time,
                              ttl: int, hash: Key -> nat, mid: seq<Items<S>>, after: seq<Items<S>>, kept: map<Key, S>,
                              e: Event)
    requires Evictable(a, like, touched, from, ttl) && from <= e.now && e.op.Serve? && e.op.n >= 1
    requires Mirrors(a, like, touched, hash, mid, kept, e.now)
    requires Served(mid, after, ShardOf(hash, e.op.key, |mid|), e.op.key, e.now, 0, RejectNewKey, a.create,
                    Use(a, e.now, e.op.n), e.outcome)
    ensures SameDecision(a, kept, e)
    ensures Mirrors(a, like, touched, hash, after, KeepAll(a, kept, e), e.now)
  {
    var (key, n) := (e.op.key, e.op.n);
    var items := mid[ShardOf(hash, key, |mid|)];
    var s := if key in items then items[key].value else a.create(e.now);
    ServeMirrors(a, like, touched, from, ttl, items, kept, e.now, key, n);
    PutMirrors(a, like, touched, hash, mid, kept, e.now, key, Entry(Next(a, s, e.now, n), e.now),
               Next(a, StateOf(a, kept, key, e.now), e.now, n));
  }

  /** A run: its events, the store before each, the store its cleanup leaves, and the store after the last. */
  ghost predicate Run<S>(a: Algorithm<S>, hash: Key -> nat, ttl: int, events: seq<Event>, stores: seq<seq<Items<S>>>,
                         mids: seq<seq<Items<S>>>) {
    && |stores| == |events| + 1 && |mids| == |events|
    && (forall i | 0 <= i < |stores| :: |stores[i]| > 0)
    && (forall i | 0 <= i < |events| :: Section(a, hash, ttl, stores[i], mids[i], stores[i + 1], events[i]))
  }

  ghost predicate ClockAdvances(events: seq<Event>, from: Time) {
    && (forall i | 0 <= i < |events| :: from <= events[i].now)
    && (forall i, j | 0 <= i < j < |events| :: events[i].now <= events[j].now)
  }

  lemma {:induction false} MirroredRun<S(!new)>(
      a: Algorithm<S>, like: (S, S, Time) -> bool, touched: (S, Time) -> bool, from: Time, ttl: int, hash: Key -> nat,
      events: seq<Event>, stores: seq<seq<Items<S>>>, mids: seq<seq<Items<S>>>, kept: map<Key, S>, clock: Time)
    requires Evictable(a, like, touched, from, ttl) && Run(a, hash, ttl, events, stores, mids)
    requires from <= clock && ClockAdvances(events, clock)
    requires Mirrors(a, like, touched, hash, stores[0], kept, clock)
    ensures AllSame(a, kept, events)
    decreases |events|
  {
    if events != [] {
      var e := events[0];
      SectionMirrors(a, like, touched, from, ttl, hash, stores[0], mids[0], stores[1], kept, clock, e);
      MirroredRun(a, like, touched, from, ttl, hash, events[1..], stores[1..], mids[1..], KeepAll(a, kept, e), e.now);
    }
  }

  /** Every run of the evicting store from empty, under a clock that never goes back, takes exactly the decisions of the
      store that never evicts. */
  lemma EvictionIsTransparent<S(!new)>(
      a: Algorithm<S>, like: (S, S, Time) -> bool, touched: (S, Time) -> bool, from: Time, ttl: int, hash: Key -> nat,
      events: seq<Event>, stores: seq<seq<Items<S>>>, mids: seq<seq<Items<S>>>)
    requires Evictable(a, like, touched, from, ttl) && Run(a, hash, ttl, events, stores, mids)
    requires ClockAdvances(events, from) && forall i | 0 <= i < |stores[0]| :: stores[0][i] == map[]
    ensures AllSame(a, map[], events)
  {
    MirroredRun(a, like, touched, from, ttl, hash, events, stores, mids, map[], from);
  }
}
