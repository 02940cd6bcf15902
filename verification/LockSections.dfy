/** What a finished lock section of the concurrent store has done, whatever other callers do meanwhile; and that a caller which
    is alone does what the sequential store does. */
module LockSections {
  import opened Clock
  import opened Collections
  import opened RateLimit
  import opened ShardedState
  import opened ConcurrentStore

  type Times = map<Key, Time>

  /** `after` is `before`, less at most sixteen entries, all of them idle for longer than `ttl`; if it is fewer, no such entry
      is left. */
  ghost predicate Tidied(p: Params, before: Times, after: Times, now: Time) {
    && (forall k | k in after :: k in before && after[k] == before[k])
    && (forall k | k in before && k !in after :: p.ttl > 0 && now - before[k] > p.ttl)
    && |before.Keys - after.Keys| <= 16
    && (p.ttl > 0 && |before.Keys - after.Keys| < 16 ==> forall k | k in after :: now - after[k] <= p.ttl)
  }

  /** Whether a section has looked at the counter: if so, what the shard held then, and whether the store seemed full. */
  datatype Seen = NotLooked | Looked(items: Times, full: bool)

  /** What a section has done between taking the lock and letting go, and what its caller does next: a reset takes exactly its
      key away; every other section tidies up; the sweep does no more; a first look stamps a stored key; a second look stores
      its key, unless it sees the store full. */
  ghost predicate SectionDone(p: Params, caller: Outside, before: Times, after: Times, next: Outside, seen: Seen) {
    match caller
    case EnterReset(key) => after == before - {key} && next == Done
    case Sweep(key, now, at) => Tidied(p, before, after, now) && next == Sweep(key, now, at + 1)
    case Enter(key, now) =>
      exists mid :: Tidied(p, before, mid, now)
                    && if key in mid then after == mid[key := now] && next == Done
                       else after == mid && next == CheckFull(key, now)
    case Relock(key, now) =>
      exists mid :: Tidied(p, before, mid, now) && next == Done
                    && if key in mid then after == mid[key := now]
                       else seen.Looked? && seen.items == mid && after == if seen.full then mid else mid[key := now]
    case _ => false
  }

  ghost predicate PurposeOf(caller: Outside, purpose: Purpose) {
    match purpose
    case First(key, now) => caller == Enter(key, now)
    case Sweeping(key, now, at) => caller == Sweep(key, now, at)
    case Second(key, now) => caller == Relock(key, now)
  }

  /** The cleanup loop: `cleaned` entries have gone, and what is not in `rest` any more is to stay. */
  ghost predicate Loop(p: Params, before: Times, items: Times, cleaned: nat, rest: set<Key>, now: Time) {
    && (forall k | k in items :: k in before && items[k] == before[k])
    && (forall k | k in before && k !in items :: p.ttl > 0 && now - before[k] > p.ttl)
    && |before.Keys - items.Keys| == cleaned
    && (forall k | k in items && k !in rest :: p.ttl > 0 ==> now - items[k] <= p.ttl)
  }

  /** What the holder of a lock has done so far. */
  ghost predicate SoFar(p: Params, caller: Outside, before: Times, items: Times, holder: Inside, seen: Seen) {
    match holder
    case Cleaning(cleaned, rest, purpose) =>
      PurposeOf(caller, purpose) && Loop(p, before, items, cleaned, rest, purpose.now) && cleaned <= CLEANUP_LIMIT
    case Deleted(cleaned, rest, purpose) =>
      PurposeOf(caller, purpose) && Loop(p, before, items, cleaned + 1, rest, purpose.now) && cleaned < CLEANUP_LIMIT
    case Act(purpose) => PurposeOf(caller, purpose) && Tidied(p, before, items, purpose.now)
    case LoadCount(key, now) => caller == Relock(key, now) && key !in items && Tidied(p, before, items, now)
    case Insert(key, now) => caller == Relock(key, now) && key !in items && Tidied(p, before, items, now) && seen == Looked(items, false)
    case Inserted => caller.Relock? && SectionDone(p, caller, before, items, Done, seen)
    case Resetting(key) => caller == EnterReset(key) && items == before
    case ResetDeleted => caller.EnterReset? && items == before - {caller.key}
    case Release(next) => SectionDone(p, caller, before, items, next, seen)
  }

  lemma LoopBegins(p: Params, items: Times, now: Time)
    ensures Loop(p, items, items, 0, items.Keys, now)
  {
    assert items.Keys - items.Keys == {};
  }

  lemma LoopDeletes(p: Params, before: Times, items: Times, cleaned: nat, rest: set<Key>, now: Time, pick: Key)
    requires Loop(p, before, items, cleaned, rest, now) && pick in items && p.ttl > 0 && now - items[pick] > p.ttl
    ensures Loop(p, before, items - {pick}, cleaned + 1, rest - {pick}, now)
  {
    assert before.Keys - (items - {pick}).Keys == (before.Keys - items.Keys) + {pick};
  }

  lemma LoopPasses(p: Params, before: Times, items: Times, cleaned: nat, rest: set<Key>, now: Time, pick: Key)
    requires Loop(p, before, items, cleaned, rest, now)
    requires pick in items && p.ttl > 0 ==> now - items[pick] <= p.ttl
    ensures Loop(p, before, items, cleaned, rest - {pick}, now)
  {
  }

  lemma LoopEnds(p: Params, before: Times, items: Times, cleaned: nat, rest: set<Key>, now: Time)
    requires Loop(p, before, items, cleaned, rest, now) && cleaned <= CLEANUP_LIMIT
    requires p.ttl <= 0 || rest == {} || cleaned >= CLEANUP_LIMIT
    ensures Tidied(p, before, items, now)
  {
    if p.ttl <= 0 {
      assert before.Keys - items.Keys == {};
    }
  }

  lemma SectionBegins(p: Params, caller: Outside, i: nat, shards: nat, items: Times)
    requires shards > 0 && Wants(p, caller, i, shards)
    ensures SoFar(p, caller, items, items, Begin(caller, items), NotLooked)
  {
    if !caller.EnterReset? {
      LoopBegins(p, items, caller.now);
    }
    hide Loop;
  }

  /** What a section has seen after one more step. */
  function Look(p: Params, seen: Seen, items: Times, count: int, holder: Inside): Seen {
    if holder.LoadCount? then Looked(items, p.maxKeys > 0 && count >= p.maxKeys) else seen
  }

  lemma CleaningStops(p: Params, caller: Outside, before: Times, items: Times, holder: Inside, seen: Seen)
    requires SoFar(p, caller, before, items, holder, seen) && holder.Cleaning?
    requires p.ttl <= 0 || holder.rest == {} || holder.cleaned >= CLEANUP_LIMIT
    ensures SoFar(p, caller, before, items, Act(holder.purpose), seen)
  {
    hide Loop, Tidied, SectionDone, PurposeOf;
    LoopEnds(p, before, items, holder.cleaned, holder.rest, holder.purpose.now);
  }

  lemma CleaningDeletes(p: Params, caller: Outside, before: Times, items: Times, holder: Inside, pick: Key, seen: Seen)
    requires SoFar(p, caller, before, items, holder, seen) && holder.Cleaning? && holder.cleaned < CLEANUP_LIMIT
    requires p.ttl > 0 && pick in items && holder.purpose.now - items[pick] > p.ttl
    ensures SoFar(p, caller, before, items - {pick}, Deleted(holder.cleaned, holder.rest - {pick}, holder.purpose), seen)
  {
    hide *;
    var Cleaning(cleaned, rest, purpose) := holder;
    InTheLoop(p, caller, before, items, cleaned, rest, purpose, seen);
    LoopDeletes(p, before, items, cleaned, rest, purpose.now, pick);
    OneDeleted(p, caller, before, items - {pick}, cleaned, rest - {pick}, purpose, seen);
  }

  lemma InTheLoop(p: Params, caller: Outside, before: Times, items: Times, cleaned: nat, rest: set<Key>, purpose: Purpose,
                  seen: Seen)
    ensures SoFar(p, caller, before, items, Cleaning(cleaned, rest, purpose), seen) <==>
            PurposeOf(caller, purpose) && Loop(p, before, items, cleaned, rest, purpose.now) && cleaned <= CLEANUP_LIMIT
  {
  }

  lemma OneDeleted(p: Params, caller: Outside, before: Times, items: Times, cleaned: nat, rest: set<Key>, purpose: Purpose,
                   seen: Seen)
    requires PurposeOf(caller, purpose) && Loop(p, before, items, cleaned + 1, rest, purpose.now) && cleaned < CLEANUP_LIMIT
    ensures SoFar(p, caller, before, items, Deleted(cleaned, rest, purpose), seen)
  {
    hide Loop, PurposeOf;
  }

  lemma CleaningPasses(p: Params, caller: Outside, before: Times, items: Times, holder: Inside, pick: Key, seen: Seen)
    requires SoFar(p, caller, before, items, holder, seen) && holder.Cleaning?
    requires pick in items ==> holder.purpose.now - items[pick] <= p.ttl
    ensures SoFar(p, caller, before, items, Cleaning(holder.cleaned, holder.rest - {pick}, holder.purpose), seen)
  {
    hide Loop, Tidied, SectionDone, PurposeOf;
    LoopPasses(p, before, items, holder.cleaned, holder.rest, holder.purpose.now, pick);
  }

  lemma DeletedCounts(p: Params, caller: Outside, before: Times, items: Times, holder: Inside, seen: Seen)
    requires SoFar(p, caller, before, items, holder, seen) && holder.Deleted?
    ensures SoFar(p, caller, before, items, Cleaning(holder.cleaned + 1, holder.rest, holder.purpose), seen)
  {
    hide Loop, Tidied;
  }

  lemma CleaningGoesOn(p: Params, caller: Outside, before: Times, items: Times, count: int, holder: Inside, pick: Key, seen: Seen)
    requires SoFar(p, caller, before, items, holder, seen) && (holder.Cleaning? || holder.Deleted?)
    requires holder.Cleaning? && holder.rest != {} ==> pick in holder.rest
    ensures var (items', _, holder') := Worked(p, items, count, holder, pick);
            SoFar(p, caller, before, items', holder', Look(p, seen, items, count, holder))
  {
    hide SoFar;
    if holder.Deleted? {
      DeletedCounts(p, caller, before, items, holder, seen);
    } else if p.ttl <= 0 || holder.rest == {} || holder.cleaned >= CLEANUP_LIMIT {
      CleaningStops(p, caller, before, items, holder, seen);
    } else if pick in items && holder.purpose.now - items[pick] > p.ttl {
      CleaningDeletes(p, caller, before, items, holder, pick, seen);
    } else {
      CleaningPasses(p, caller, before, items, holder, pick, seen);
    }
  }

  lemma ActGoesOn(p: Params, caller: Outside, before: Times, items: Times, count: int, holder: Inside, pick: Key, seen: Seen)
    requires SoFar(p, caller, before, items, holder, seen) && !holder.Cleaning? && !holder.Deleted? && !holder.Release?
    ensures var (items', _, holder') := Worked(p, items, count, holder, pick);
            SoFar(p, caller, before, items', holder', Look(p, seen, items, count, holder))
  {
    hide Loop, Tidied;
    if holder.ResetDeleted? || holder.Resetting? {
      var key := caller.key;
      assert key !in before ==> before - {key} == before;
    }
  }

  lemma SectionGoesOn(p: Params, caller: Outside, before: Times, items: Times, count: int, holder: Inside, pick: Key, seen: Seen)
    requires SoFar(p, caller, before, items, holder, seen) && !holder.Release?
    requires holder.Cleaning? && holder.rest != {} ==> pick in holder.rest
    ensures var (items', _, holder') := Worked(p, items, count, holder, pick);
            SoFar(p, caller, before, items', holder', Look(p, seen, items, count, holder))
  {
    if holder.Cleaning? || holder.Deleted? {
      CleaningGoesOn(p, caller, before, items, count, holder, pick, seen);
    } else {
      ActGoesOn(p, caller, before, items, count, holder, pick, seen);
    }
    hide SoFar, Worked;
  }

  /** A step changes only the shard whose lock it takes, holds or lets go. */
  lemma OtherShardsKept(p: Params, s: State, a: Action, i: nat)
    requires |s.shards| > 0 && Enabled(p, s, a) && i < |s.shards|
    requires !(a.Work? && a.i == i) && !(a.Acquire? && a.i == i)
    ensures |Step(p, s, a).shards| == |s.shards| && Step(p, s, a).shards[i] == s.shards[i]
  {
    hide Worked, Begin, Thought, Leave;
  }

  /** Shard `i` is locked without interruption from state `a + 1` to state `b`. */
  ghost predicate HeldFrom(states: seq<State>, i: nat, a: nat, b: nat) {
    a < b < |states| && forall m | a < m <= b :: i < |states[m].shards| && states[m].shards[i].lock.Held?
  }

  /** What a section has seen between the states `a + 1` and `b`, it has seen in one of them. */
  ghost predicate SeenBetween(p: Params, states: seq<State>, i: nat, a: nat, b: nat, seen: Seen)
    requires b < |states|
  {
    seen.Looked? ==>
      exists m :: a < m < b && i < |states[m].shards| && states[m].shards[i].items == seen.items
                  && (seen.full <==> p.maxKeys > 0 && states[m].count >= p.maxKeys)
  }

  lemma SeenGrows(p: Params, states: seq<State>, i: nat, a: nat, b: nat, seen: Seen, later: Seen)
    requires a < b && b + 1 < |states| && i < |states[b].shards| && SeenBetween(p, states, i, a, b, seen)
    requires later == seen
             || later == Looked(states[b].shards[i].items, p.maxKeys > 0 && states[b].count >= p.maxKeys)
    ensures SeenBetween(p, states, i, a, b + 1, later)
  {
  }

  lemma StepAt(p: Params, states: seq<State>, actions: seq<Action>, k: nat)
    requires Run(p, states, actions) && k + 1 < |states|
    ensures |states| == |actions| + 1 && |states[k].shards| > 0
    ensures Enabled(p, states[k], actions[k]) && states[k + 1] == Step(p, states[k], actions[k])
  {
  }

  /** Taking the lock begins a section. */
  lemma LockTaken(p: Params, s: State, caller: Outside, i: nat)
    requires |s.shards| > 0 && Enabled(p, s, Acquire(caller, i))
    ensures var shard := Step(p, s, Acquire(caller, i)).shards[i];
            shard.items == s.shards[i].items
            && shard.lock.Held? && SoFar(p, caller, shard.items, shard.items, shard.lock.holder, NotLooked)
  {
    SectionBegins(p, caller, i, |s.shards|, s.shards[i].items);
    hide SoFar, Begin, Wants;
  }

  /** One step of whichever caller, as the section on shard `i` sees it. */
  lemma SectionSteps(p: Params, s: State, a: Action, i: nat, caller: Outside, before: Times, seen: Seen) returns (later: Seen)
    requires |s.shards| > 0 && Enabled(p, s, a) && i < |s.shards| && s.shards[i].lock.Held?
    requires SoFar(p, caller, before, s.shards[i].items, s.shards[i].lock.holder, seen)
    requires Step(p, s, a).shards[i].lock.Held?
    ensures later == seen || later == Looked(s.shards[i].items, p.maxKeys > 0 && s.count >= p.maxKeys)
    ensures var shard := Step(p, s, a).shards[i];
            shard.lock.Held? && SoFar(p, caller, before, shard.items, shard.lock.holder, later)
  {
    if a.Work? && a.i == i {
      SectionGoesOn(p, caller, before, s.shards[i].items, s.count, s.shards[i].lock.holder, a.pick, seen);
      later := Look(p, seen, s.shards[i].items, s.count, s.shards[i].lock.holder);
    } else {
      OtherShardsKept(p, s, a, i);
      later := seen;
    }
    hide SoFar, Worked, Begin, Wants, Thought;
  }

  lemma {:induction false} SectionRuns(p: Params, states: seq<State>, actions: seq<Action>, a: nat, b: nat, i: nat,
                                       caller: Outside) returns (seen: Seen)
    requires Run(p, states, actions) && a < |actions| && actions[a] == Acquire(caller, i) && HeldFrom(states, i, a, b)
    ensures i < |states[a].shards| && SeenBetween(p, states, i, a, b, seen)
    ensures SoFar(p, caller, states[a].shards[i].items, states[b].shards[i].items, states[b].shards[i].lock.holder, seen)
    decreases b
  {
    hide Run, SoFar, Look, Step;
    StepAt(p, states, actions, b - 1);
    if b == a + 1 {
      seen := NotLooked;
      LockTaken(p, states[a], caller, i);
    } else {
      seen := SectionRuns(p, states, actions, a, b - 1, i, caller);
      var before := seen;
      seen := SectionSteps(p, states[b - 1], actions[b - 1], i, caller, states[a].shards[i].items, before);
      SeenGrows(p, states, i, a, b - 1, before, seen);
    }
  }

  /** Every lock section, in every interleaving, when it lets go: its shard has gone from what it was when the lock was taken to
      what such a section is to make of it, and nobody else has touched it. */
  lemma SectionIsDone(p: Params, states: seq<State>, actions: seq<Action>, a: nat, b: nat, i: nat, caller: Outside)
    returns (seen: Seen)
    requires Run(p, states, actions) && a < |actions| && actions[a] == Acquire(caller, i) && HeldFrom(states, i, a, b)
    requires states[b].shards[i].lock.holder.Release?
    ensures i < |states[a].shards| && SeenBetween(p, states, i, a, b, seen)
    ensures SectionDone(p, caller, states[a].shards[i].items, states[b].shards[i].items, states[b].shards[i].lock.holder.next,
                        seen)
  {
    seen := SectionRuns(p, states, actions, a, b, i, caller);
    hide Run, SectionDone, HeldFrom, SeenBetween;
  }

  /** Between two sections of a shard its entries stay as they are. */
  lemma {:induction false} FreeShardStays(p: Params, states: seq<State>, actions: seq<Action>, a: nat, b: nat, i: nat)
    requires Run(p, states, actions) && a <= b < |states| && i < |states[a].shards|
    requires forall m | a <= m < b :: !(actions[m].Work? && actions[m].i == i)
    ensures i < |states[b].shards| && states[b].shards[i].items == states[a].shards[i].items
    decreases b
  {
    if a < b {
      FreeShardStays(p, states, actions, a, b - 1, i);
      StepAt(p, states, actions, b - 1);
      OnlyWorkChanges(p, states[b - 1], actions[b - 1], i);
    }
    hide Step, Enabled;
  }

  lemma OnlyWorkChanges(p: Params, s: State, a: Action, i: nat)
    requires |s.shards| > 0 && Enabled(p, s, a) && i < |s.shards| && !(a.Work? && a.i == i)
    ensures |Step(p, s, a).shards| == |s.shards| && Step(p, s, a).shards[i].items == s.shards[i].items
  {
    hide Worked, Begin, Thought, Leave, Wants;
  }
}
