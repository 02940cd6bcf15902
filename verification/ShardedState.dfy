/** `pkg/ratelimit/sharded_state.go`: the keyed store all limiters share, used sequentially. Keys live in shards chosen by
    their hash; each call first deletes a bounded number of idle entries, in whatever order the map is met. */
module ShardedState {
  import opened Clock
  import opened Collections
  import opened RateLimit

  const CLEANUP_LIMIT: nat := 16

  type Key = string

  datatype Entry<+T> = Entry(value: T, lastSeen: Time)

  type Items<+T> = map<Key, Entry<T>>

  datatype Outcome = Decided(decision: Decision) | StateFull

  function Total<T>(shards: seq<Items<T>>): nat {
    if shards == [] then 0 else Total(shards[..|shards| - 1]) + |shards[|shards| - 1]|
  }

  predicate Expired<T>(entry: Entry<T>, now: Time, ttl: int) {
    now - entry.lastSeen > ttl
  }

  /** `after` is `before` without some expired entries. */
  ghost predicate Cleaned<T>(before: Items<T>, after: Items<T>, now: Time, ttl: int) {
    && after.Keys <= before.Keys
    && (forall k | k in after :: after[k] == before[k])
    && (forall k | k in before && k !in after :: Expired(before[k], now, ttl))
  }

  ghost predicate NoneExpired<T>(items: Items<T>, now: Time, ttl: int) {
    forall k | k in items :: !Expired(items[k], now, ttl)
  }

  /** One pass of cleanup: it stops at the limit, and otherwise leaves nothing expired. */
  ghost predicate CleanedOnce<T>(before: Items<T>, after: Items<T>, now: Time, ttl: int) {
    && Cleaned(before, after, now, ttl)
    && |before| <= |after| + CLEANUP_LIMIT
    && (|before| < |after| + CLEANUP_LIMIT ==> NoneExpired(after, now, ttl))
  }

  ghost predicate AllCleaned<T>(before: seq<Items<T>>, after: seq<Items<T>>, now: Time, ttl: int) {
    |after| == |before| && forall i | 0 <= i < |before| :: Cleaned(before[i], after[i], now, ttl)
  }

  ghost predicate AllFresh<T>(shards: seq<Items<T>>, now: Time, ttl: int) {
    forall i | 0 <= i < |shards| :: NoneExpired(shards[i], now, ttl)
  }

  /** Each key lives only in the shard its hash selects. */
  ghost predicate Placed<T>(shards: seq<Items<T>>, hash: Key -> nat) {
    |shards| > 0 && forall i, k | 0 <= i < |shards| && k in shards[i] :: hash(k) % |shards| == i
  }

  /** What `WithEntry` does once cleanup has left the shards at `mid`. */
  ghost predicate Served<T>(mid: seq<Items<T>>, after: seq<Items<T>>, i: nat, key: Key, now: Time, maxKeys: int,
                                  policy: StateFullPolicy, create: Time -> T, use: (T, bool) -> (T, Decision),
                                  outcome: Outcome)
    requires i < |mid|
  {
    if key in mid[i] then
      var (value, d) := use(mid[i][key].value, false);
      after == mid[i := mid[i][key := Entry(value, now)]] && outcome == Decided(d)
    else if maxKeys > 0 && Total(mid) >= maxKeys then
      after == mid && outcome == if policy == AllowNewKey then Decided(use(create(now), true).1) else StateFull
    else
      var (value, d) := use(create(now), true);
      after == mid[i := mid[i][key := Entry(value, now)]] && outcome == Decided(d)
  }

  class Store<T> {
    const shards: array<Items<T>>
    const idleTTL: int
    const maxKeys: int
    const policy: StateFullPolicy
    const hash: Key -> nat
    var count: int

    ghost predicate Valid()
      reads this, shards
    {
      && idleTTL > 0
      && Placed(shards[..], hash)
      && count == Total(shards[..])
      && (maxKeys > 0 ==> count <= maxKeys)
    }

    constructor (config: Config, window: int, hash: Key -> nat)
      ensures Valid() && fresh(shards)
      ensures shards.Length == if config.shards <= 0 then 256 else config.shards
      ensures forall i | 0 <= i < shards.Length :: shards[i] == map[]
      ensures idleTTL == NormalizeIdleTTL(config.idleTTL, window)
      ensures maxKeys == config.maxKeys && policy == config.policy && this.hash == hash
    {
      var n := if config.shards <= 0 then DEFAULT_SHARDS else config.shards;
      var made := new Items<T>[n](i => map[]);
      shards := made;
      idleTTL := NormalizeIdleTTL(config.idleTTL, window);
      maxKeys, policy, this.hash := config.maxKeys, config.policy, hash;
      count := 0;
      new;
      TotalEmpty(shards[..]);
    }

    function ShardFor(key: Key): (i: nat)
      requires shards.Length > 0
      ensures i < shards.Length
    {
      hash(key) % shards.Length
    }

    method CleanupLocked(i: nat, now: Time)
      requires i < shards.Length && count == Total(shards[..])
      modifies this`count, shards
      ensures idleTTL > 0 ==> CleanedOnce(old(shards[i]), shards[i], now, idleTTL)
      ensures idleTTL <= 0 ==> shards[i] == old(shards[i])
      ensures shards[..] == old(shards[..])[i := shards[i]]
      ensures AllCleaned(old(shards[..]), shards[..], now, idleTTL)
      ensures count == Total(shards[..])
      ensures idleTTL > 0 ==>
                var (before, after) := (old(shards[i]), shards[i]);
                && 0 <= |before| - |after| <= 16
                && (forall k | k in after :: k in before && after[k] == before[k])
                && (forall k | k in before && k !in after :: now - before[k].lastSeen > idleTTL)
                && (|before| - |after| < 16 ==> forall k | k in after :: now - after[k].lastSeen <= idleTTL)
    {
      hide Total;
      if idleTTL <= 0 {
        return;
      }
      ghost var before := shards[i];
      var cleaned := 0;
      var rest := shards[i].Keys;
      while rest != {}
        invariant rest <= shards[i].Keys
        invariant cleaned <= CLEANUP_LIMIT && |before| == |shards[i]| + cleaned
        invariant Cleaned(before, shards[i], now, idleTTL)
        invariant forall k | k in shards[i] && k !in rest :: !Expired(shards[i][k], now, idleTTL)
        invariant shards[..] == old(shards[..])[i := shards[i]]
        invariant count == Total(shards[..])
        decreases rest
      {
        if cleaned >= CLEANUP_LIMIT {
          return;
        }
        ghost var _ := SomeElement(rest);
        var key :| key in rest;
        rest := rest - {key};
        if now - shards[i][key].lastSeen <= idleTTL {
          continue;
        }
        ghost var shards0 := shards[..];
        DropKey(shards[i], key);
        shards[i] := shards[i] - {key};
        count := count - 1;
        TotalUpdate(shards0, i, shards[i]);
        cleaned := cleaned + 1;
        assert shards[..] == shards0[i := shards[i]];
      }
    }

    method CleanupExpired(now: Time)
      requires idleTTL > 0 && count == Total(shards[..])
      modifies this`count, shards
      ensures forall i | 0 <= i < shards.Length :: CleanedOnce(old(shards[..])[i], shards[..][i], now, idleTTL)
      ensures AllCleaned(old(shards[..]), shards[..], now, idleTTL)
      ensures count == Total(shards[..])
    {
      hide Total, CleanedOnce;
      for i := 0 to shards.Length
        invariant forall j | 0 <= j < i :: CleanedOnce(old(shards[..])[j], shards[j], now, idleTTL)
        invariant forall j | i <= j < shards.Length :: shards[j] == old(shards[..])[j]
        invariant count == Total(shards[..])
      {
        ghost var before := shards[..];
        CleanupLocked(i, now);
        assert forall j | 0 <= j < shards.Length && j != i :: shards[j] == shards[..][j] == before[j];
      }
      EachCleaned(old(shards[..]), shards[..], now, idleTTL);
    }

    method WithEntry(key: Key, now: Time, create: Time -> T, use: (T, bool) -> (T, Decision))
      returns (outcome: Outcome, ghost mid: seq<Items<T>>)
      requires Valid()
      modifies this`count, shards
      ensures Valid()
      ensures AllCleaned(old(shards[..]), mid, now, idleTTL)
      ensures Served(mid, shards[..], ShardFor(key), key, now, maxKeys, policy, create, use, outcome)
      ensures key !in mid[ShardFor(key)] && maxKeys > 0 && Total(mid) >= maxKeys ==>
                mid == old(shards[..]) && AllFresh(mid, now, idleTTL)
    {
      var i := ShardFor(key);
      ghost var pre := shards[..];

      CleanupLocked(i, now);
      ghost var first := shards[..];
      CleanedStaysPlaced(pre, first, now, idleTTL, hash);
      if key in shards[i] {
        mid := first;
        outcome := UseEntry(i, key, now, use);
        return;
      }

      if maxKeys > 0 && count >= maxKeys {
        CleanupExpired(now);
      }
      ghost var second := shards[..];
      CleanedStaysPlaced(first, second, now, idleTTL, hash);

      CleanupLocked(i, now);
      mid := shards[..];
      CleanedStaysPlaced(second, mid, now, idleTTL, hash);
      CleanedTwice(pre, first, second, now, idleTTL);
      CleanedTwice(pre, second, mid, now, idleTTL);
      if key in shards[i] {
        // Only another goroutine can have stored the key since the first look: see `ConcurrentStore`.
        assert false;
      }

      if maxKeys > 0 && count >= maxKeys {
        NothingDeleted(first, second, now, idleTTL);
        if policy == AllowNewKey {
          var value := create(now);
          var (_, decision) := use(value, true);
          outcome := Decided(decision);
          return;
        }
        outcome := StateFull;
        return;
      }

      outcome := InsertEntry(i, key, now, create, use);
    }

    /** The branch of a new key: store it, count it, then let the algorithm update its value in place. */
    method InsertEntry(i: nat, key: Key, now: Time, create: Time -> T, use: (T, bool) -> (T, Decision))
      returns (outcome: Outcome)
      requires Valid() && i == ShardFor(key) && key !in shards[i] && (maxKeys > 0 ==> count < maxKeys)
      modifies this`count, shards
      ensures Valid()
      ensures var (value, d) := use(create(now), true);
              outcome == Decided(d)
              && shards[..] == old(shards[..])[i := old(shards[i])[key := Entry(value, now)]]
    {
      ghost var before := shards[..];
      var value := create(now);
      shards[i] := shards[i][key := Entry(value, now)];
      count := count + 1;
      var (used, decision) := use(value, true);
      shards[i] := shards[i][key := Entry(used, now)];
      assert shards[i] == before[i][key := Entry(used, now)];
      assert shards[..] == before[i := before[i][key := Entry(used, now)]];
      PutStaysPlaced(before, i, key, Entry(used, now), hash);
      outcome := Decided(decision);
    }

    /** The branch of a stored key: stamp the entry and let the algorithm update its value in place. */
    method UseEntry(i: nat, key: Key, now: Time, use: (T, bool) -> (T, Decision)) returns (outcome: Outcome)
      requires Valid() && i == ShardFor(key) && key in shards[i]
      modifies shards
      ensures Valid()
      ensures var (value, d) := use(old(shards[i])[key].value, false);
              outcome == Decided(d)
              && shards[..] == old(shards[..])[i := old(shards[i])[key := Entry(value, now)]]
    {
      ghost var before := shards[..];
      var (value, decision) := use(shards[i][key].value, false);
      shards[i] := shards[i][key := Entry(value, now)];
      assert shards[..] == before[i := before[i][key := Entry(value, now)]];
      PutStaysPlaced(before, i, key, Entry(value, now), hash);
      outcome := Decided(decision);
    }

    method Reset(key: Key) returns (ok: bool)
      requires Valid()
      modifies this`count, shards
      ensures Valid()
      ensures ok == (key in old(shards[ShardFor(key)]))
      ensures shards[..] == old(shards[..])[ShardFor(key) := old(shards[ShardFor(key)]) - {key}]
    {
      var i := ShardFor(key);
      ghost var before := shards[..];
      if key !in shards[i] {
        assert shards[i] - {key} == shards[i];
        return false;
      }
      DropKey(shards[i], key);
      shards[i] := shards[i] - {key};
      count := count - 1;
      TotalUpdate(before, i, shards[i]);
      assert shards[..] == before[i := shards[i]];
      return true;
    }
  }

  lemma {:induction false} TotalEmpty<T>(shards: seq<Items<T>>)
    requires forall i | 0 <= i < |shards| :: shards[i] == map[]
    ensures Total(shards) == 0
  {
    if shards != [] {
      TotalEmpty(shards[..|shards| - 1]);
    }
  }

  lemma {:induction false} TotalUpdate<T>(shards: seq<Items<T>>, i: nat, items: Items<T>)
    requires i < |shards|
    ensures Total(shards[i := items]) == Total(shards) - |shards[i]| + |items|
  {
    var last := |shards| - 1;
    if i == last {
      assert shards[i := items][..last] == shards[..last];
    } else {
      assert shards[i := items][..last] == shards[..last][i := items];
      TotalUpdate(shards[..last], i, items);
    }
  }

  lemma PutStaysPlaced<T>(shards: seq<Items<T>>, i: nat, key: Key, entry: Entry<T>, hash: Key -> nat)
    requires Placed(shards, hash) && i < |shards| && hash(key) % |shards| == i
    ensures Placed(shards[i := shards[i][key := entry]], hash)
    ensures Total(shards[i := shards[i][key := entry]]) == Total(shards) + if key in shards[i] then 0 else 1
  {
    TotalUpdate(shards, i, shards[i][key := entry]);
    PutKey(shards[i], key, entry);
  }

  lemma EachCleaned<T>(before: seq<Items<T>>, after: seq<Items<T>>, now: Time, ttl: int)
    requires |before| == |after| && forall i | 0 <= i < |before| :: CleanedOnce(before[i], after[i], now, ttl)
    ensures AllCleaned(before, after, now, ttl)
  {
    hide Cleaned, NoneExpired;
  }

  /** Cleanup never adds entries, and if it keeps their number it keeps them all. */
  lemma {:induction false} CleanedShrinks<T>(before: seq<Items<T>>, after: seq<Items<T>>, now: Time, ttl: int)
    requires AllCleaned(before, after, now, ttl)
    ensures Total(after) <= Total(before)
    ensures Total(after) == Total(before) ==> after == before
  {
    if before != [] {
      var last := |before| - 1;
      CleanedShrinks(before[..last], after[..last], now, ttl);
      SubsetSize(after[last].Keys, before[last].Keys);
      if |after[last]| == |before[last]| {
        assert after[last] == before[last];
      }
      if Total(after) == Total(before) {
        assert after == after[..last] + [after[last]];
        assert before == before[..last] + [before[last]];
      }
    }
  }

  lemma CleanedTwice<T>(a: seq<Items<T>>, b: seq<Items<T>>, c: seq<Items<T>>, now: Time, ttl: int)
    requires AllCleaned(a, b, now, ttl) && AllCleaned(b, c, now, ttl)
    ensures AllCleaned(a, c, now, ttl)
  {
    forall i | 0 <= i < |a|
      ensures Cleaned(a[i], c[i], now, ttl)
    {
      assert Cleaned(a[i], b[i], now, ttl) && Cleaned(b[i], c[i], now, ttl);
    }
  }

  lemma CleanedStaysPlaced<T>(before: seq<Items<T>>, after: seq<Items<T>>, now: Time, ttl: int, hash: Key -> nat)
    requires AllCleaned(before, after, now, ttl) && Placed(before, hash)
    ensures Placed(after, hash) && Total(after) <= Total(before)
    ensures Total(after) == Total(before) ==> after == before
  {
    CleanedShrinks(before, after, now, ttl);
    forall i, k | 0 <= i < |after| && k in after[i]
      ensures hash(k) % |after| == i
    {
      assert Cleaned(before[i], after[i], now, ttl);
      assert k in before[i];
    }
  }

  /** A pass over every shard that deletes nothing has met nothing to delete. */
  lemma NothingDeleted<T>(before: seq<Items<T>>, after: seq<Items<T>>, now: Time, ttl: int)
    requires |before| == |after| && forall i | 0 <= i < |before| :: CleanedOnce(before[i], after[i], now, ttl)
    ensures after == before ==> AllFresh(before, now, ttl)
  {
  }

  /** A call that may store keys without limit, or finds room, never meets `StateFull`; one that does has found the store
      full of live keys. In terms of the state before the call: the cleanup cap of 16 never causes a refusal. */
  lemma FullMeansFull<T>(pre: seq<Items<T>>, mid: seq<Items<T>>, post: seq<Items<T>>, i: nat, key: Key, now: Time, ttl: int,
                         maxKeys: int, policy: StateFullPolicy, create: Time -> T, use: (T, bool) -> (T, Decision),
                         outcome: Outcome)
    requires i < |pre| && (maxKeys > 0 ==> Total(pre) <= maxKeys)
    requires AllCleaned(pre, mid, now, ttl)
    requires Served(mid, post, i, key, now, maxKeys, policy, create, use, outcome)
    requires key !in mid[i] && maxKeys > 0 && Total(mid) >= maxKeys ==> mid == pre && AllFresh(mid, now, ttl)
    ensures outcome == StateFull <==>
            policy == RejectNewKey && maxKeys > 0 && key !in pre[i] && Total(pre) == maxKeys && AllFresh(pre, now, ttl)
    ensures outcome == StateFull ==> post == pre
  {
    CleanedShrinks(pre, mid, now, ttl);
    if key !in pre[i] && AllFresh(pre, now, ttl) {
      forall j | 0 <= j < |pre|
        ensures mid[j] == pre[j]
      {
        assert Cleaned(pre[j], mid[j], now, ttl) && NoneExpired(pre[j], now, ttl);
        assert mid[j].Keys == pre[j].Keys;
      }
      assert mid == pre;
    }
  }

  /** Nothing but the entry of `key` in shard `i` has changed, except that long idle entries may have gone. */
  ghost predicate OthersKept<T>(pre: seq<Items<T>>, post: seq<Items<T>>, i: nat, key: Key, now: Time, ttl: int) {
    && |post| == |pre|
    && forall j, k | 0 <= j < |pre| && (j != i || k != key) ::
         && (k in post[j] ==> k in pre[j] && post[j][k] == pre[j][k])
         && (k in pre[j] && k !in post[j] ==> now - pre[j][k].lastSeen > ttl)
  }

  /** Every entry has been seen within the time to live. */
  ghost predicate AllLive<T>(shards: seq<Items<T>>, now: Time, ttl: int) {
    forall j, k | 0 <= j < |shards| && k in shards[j] :: now - shards[j][k].lastSeen <= ttl
  }

  /** A key that is stored is served from its value; it may be served from a fresh one only after it has been idle for longer
      than the time to live. A key that is not stored is served from a fresh value, and stored, unless the store is full of
      live keys. Whatever the call stores has been seen now. */
  ghost predicate KeyServed<T>(pre: seq<Items<T>>, post: seq<Items<T>>, i: nat, key: Key, now: Time, ttl: int, maxKeys: int,
                               policy: StateFullPolicy, create: Time -> T, use: (T, bool) -> (T, Decision), outcome: Outcome)
    requires i < |pre|
  {
    var (value, d) := use(create(now), true);
    var anew := |post| == |pre| && key in post[i] && post[i][key] == Entry(value, now) && outcome == Decided(d);
    if key in pre[i] then
      var (value', d') := use(pre[i][key].value, false);
      || (|post| == |pre| && key in post[i] && post[i][key] == Entry(value', now) && outcome == Decided(d'))
      || (now - pre[i][key].lastSeen > ttl && anew)
    else if maxKeys > 0 && Total(pre) == maxKeys && AllLive(pre, now, ttl) then
      post == pre && outcome == if policy.AllowNewKey? then Decided(d) else StateFull
    else anew
  }

  lemma FreshMeans<T>(shards: seq<Items<T>>, now: Time, ttl: int)
    ensures AllFresh(shards, now, ttl) <==> AllLive(shards, now, ttl)
  {
    if AllLive(shards, now, ttl) {
      forall j | 0 <= j < |shards|
        ensures NoneExpired(shards[j], now, ttl)
      {
      }
    }
  }

  lemma ServedKeepsOthers<T>(pre: seq<Items<T>>, mid: seq<Items<T>>, post: seq<Items<T>>, i: nat, key: Key, now: Time, ttl: int)
    requires AllCleaned(pre, mid, now, ttl) && |post| == |mid|
    requires forall j, k | 0 <= j < |mid| && (j != i || k != key) ::
               (k in post[j] <==> k in mid[j]) && (k in post[j] ==> post[j][k] == mid[j][k])
    ensures OthersKept(pre, post, i, key, now, ttl)
  {
    forall j, k | 0 <= j < |pre| && (j != i || k != key)
      ensures (k in post[j] ==> k in pre[j] && post[j][k] == pre[j][k])
              && (k in pre[j] && k !in post[j] ==> now - pre[j][k].lastSeen > ttl)
    {
      assert Cleaned(pre[j], mid[j], now, ttl);
      assert k in post[j] <==> k in mid[j];
    }
  }

  /** What a call does, in terms of the state before it. */
  lemma EntryIsServed<T>(pre: seq<Items<T>>, mid: seq<Items<T>>, post: seq<Items<T>>, i: nat, key: Key, now: Time, ttl: int,
                         maxKeys: int, policy: StateFullPolicy, create: Time -> T, use: (T, bool) -> (T, Decision),
                         outcome: Outcome)
    requires i < |pre| && (maxKeys > 0 ==> Total(pre) <= maxKeys)
    requires AllCleaned(pre, mid, now, ttl)
    requires Served(mid, post, i, key, now, maxKeys, policy, create, use, outcome)
    requires key !in mid[i] && maxKeys > 0 && Total(mid) >= maxKeys ==> mid == pre && AllFresh(mid, now, ttl)
    ensures OthersKept(pre, post, i, key, now, ttl)
    ensures KeyServed(pre, post, i, key, now, ttl, maxKeys, policy, create, use, outcome)
  {
    ServedKeepsOthers(pre, mid, post, i, key, now, ttl);
    KeyIsServed(pre, mid, post, i, key, now, ttl, maxKeys, policy, create, use, outcome);
    hide Served, KeyServed, AllCleaned, AllFresh, Total;
  }

  lemma KeyIsServed<T>(pre: seq<Items<T>>, mid: seq<Items<T>>, post: seq<Items<T>>, i: nat, key: Key, now: Time, ttl: int,
                       maxKeys: int, policy: StateFullPolicy, create: Time -> T, use: (T, bool) -> (T, Decision),
                       outcome: Outcome)
    requires i < |pre| && (maxKeys > 0 ==> Total(pre) <= maxKeys)
    requires AllCleaned(pre, mid, now, ttl)
    requires Served(mid, post, i, key, now, maxKeys, policy, create, use, outcome)
    requires key !in mid[i] && maxKeys > 0 && Total(mid) >= maxKeys ==> mid == pre && AllFresh(mid, now, ttl)
    ensures KeyServed(pre, post, i, key, now, ttl, maxKeys, policy, create, use, outcome)
  {
    hide AllFresh, Total, AllLive;
    FreshMeans(pre, now, ttl);
    assert Cleaned(pre[i], mid[i], now, ttl);
    if key !in pre[i] && maxKeys > 0 && Total(pre) == maxKeys && AllLive(pre, now, ttl) {
      NothingToClean(pre, mid, now, ttl);
    }
  }

  lemma NothingToClean<T>(pre: seq<Items<T>>, mid: seq<Items<T>>, now: Time, ttl: int)
    requires AllCleaned(pre, mid, now, ttl) && AllLive(pre, now, ttl)
    ensures mid == pre
  {
    forall j | 0 <= j < |pre|
      ensures mid[j] == pre[j]
    {
      assert Cleaned(pre[j], mid[j], now, ttl);
      assert mid[j].Keys == pre[j].Keys;
    }
  }
}
