/** `pkg/ratelimit/sharded_state.go` under concurrent callers, at the grain of its atomic steps: taking or releasing a shard
    lock, one access to a shard's map, one operation on the atomic counter. */
module ConcurrentStore {
  import opened Clock
  import opened Collections
  import opened RateLimit
  import opened ShardedState

  datatype Params = Params(maxKeys: int, ttl: int, hash: Key -> nat)

  /** Where a caller that holds no lock stands. */
  datatype Outside =
    | Enter(key: Key, now: Time)
    | CheckFull(key: Key, now: Time)
    | Sweep(key: Key, now: Time, next: nat)
    | Relock(key: Key, now: Time)
    | EnterReset(key: Key)
    | Done

  /** Why a lock section cleans its shard, and so what it does next. */
  datatype Purpose = First(key: Key, now: Time) | Sweeping(key: Key, now: Time, at: nat) | Second(key: Key, now: Time)

  /** Where the holder of a shard lock stands. */
  datatype Inside =
    | Cleaning(cleaned: nat, rest: set<Key>, purpose: Purpose)
    | Deleted(cleaned: nat, rest: set<Key>, purpose: Purpose)
    | Act(purpose: Purpose)
    | LoadCount(key: Key, now: Time)
    | Insert(key: Key, now: Time)
    | Inserted
    | Resetting(key: Key)
    | ResetDeleted
    | Release(next: Outside)

  datatype Lock = Free | Held(holder: Inside)

  /** The times stand for the entries; their values do not matter here. */
  datatype Shard = Shard(items: map<Key, Time>, lock: Lock)

  /** Every caller is either in `outside` or the holder of exactly one shard lock. */
  datatype State = State(shards: seq<Shard>, count: int, outside: multiset<Outside>)

  datatype Action =
    | Spawn(caller: Outside)
    | Think(caller: Outside)
    | Acquire(caller: Outside, i: nat)
    | Work(i: nat, pick: Key)

  // ---- Steps ----

  function Home(p: Params, key: Key, shards: nat): nat
    requires shards > 0
  {
    p.hash(key) % shards
  }

  /** A step outside the locks: read the counter, or finish sweeping. */
  function Thought(p: Params, s: State, caller: Outside): Outside {
    match caller
    case CheckFull(key, now) => if p.maxKeys > 0 && s.count >= p.maxKeys then Sweep(key, now, 0) else Relock(key, now)
    case Sweep(key, now, next) => if next >= |s.shards| then Relock(key, now) else caller
    case _ => caller
  }

  /** The shard a caller asks for, and what it does there. */
  predicate Wants(p: Params, caller: Outside, i: nat, shards: nat)
    requires shards > 0
  {
    match caller
    case Enter(key, _) => i == Home(p, key, shards)
    case Sweep(_, _, next) => i == next
    case Relock(key, _) => i == Home(p, key, shards)
    case EnterReset(key) => i == Home(p, key, shards)
    case _ => false
  }

  function Begin(caller: Outside, items: map<Key, Time>): Inside {
    match caller
    case Enter(key, now) => Cleaning(0, items.Keys, First(key, now))
    case Sweep(key, now, next) => Cleaning(0, items.Keys, Sweeping(key, now, next))
    case Relock(key, now) => Cleaning(0, items.Keys, Second(key, now))
    case EnterReset(key) => Resetting(key)
    case _ => Release(Done)
  }

  /** One step under a lock: the shard and the counter after it. `pick` is the key the map iteration meets next. */
  function Worked(p: Params, items: map<Key, Time>, count: int, holder: Inside, pick: Key): (map<Key, Time>, int, Inside) {
    match holder
    case Cleaning(cleaned, rest, purpose) =>
      if p.ttl <= 0 || rest == {} || cleaned >= CLEANUP_LIMIT then (items, count, Act(purpose))
      else if pick in rest && pick in items && purpose.now - items[pick] > p.ttl then
        (items - {pick}, count, Deleted(cleaned, rest - {pick}, purpose))
      else (items, count, Cleaning(cleaned, rest - {pick}, purpose))
    case Deleted(cleaned, rest, purpose) => (items, count - 1, Cleaning(cleaned + 1, rest, purpose))
    case Act(purpose) =>
      (match purpose
       case Sweeping(key, now, at) => (items, count, Release(Sweep(key, now, at + 1)))
       case First(key, now) =>
         if key in items then (items[key := now], count, Release(Done)) else (items, count, Release(CheckFull(key, now)))
       case Second(key, now) =>
         if key in items then (items[key := now], count, Release(Done)) else (items, count, LoadCount(key, now)))
    case LoadCount(key, now) =>
      if p.maxKeys > 0 && count >= p.maxKeys then (items, count, Release(Done)) else (items, count, Insert(key, now))
    case Insert(key, now) => (items[key := now], count, Inserted)
    case Inserted => (items, count + 1, Release(Done))
    case Resetting(key) =>
      if key in items then (items - {key}, count, ResetDeleted) else (items, count, Release(Done))
    case ResetDeleted => (items, count - 1, Release(Done))
    case Release(_) => (items, count, holder)
  }

  function Leave(outside: multiset<Outside>, caller: Outside): multiset<Outside> {
    if caller == Done then outside else outside + multiset{caller}
  }

  predicate Enabled(p: Params, s: State, a: Action)
    requires |s.shards| > 0
  {
    match a
    case Spawn(caller) => caller.Enter? || caller.EnterReset?
    case Think(caller) => caller in s.outside
    case Acquire(caller, i) =>
      caller in s.outside && i < |s.shards| && s.shards[i].lock == Free && Wants(p, caller, i, |s.shards|)
    case Work(i, pick) =>
      i < |s.shards| && s.shards[i].lock.Held?
      && (s.shards[i].lock.holder.Cleaning? && s.shards[i].lock.holder.rest != {} ==> pick in s.shards[i].lock.holder.rest)
  }

  function Step(p: Params, s: State, a: Action): State
    requires |s.shards| > 0 && Enabled(p, s, a)
  {
    match a
    case Spawn(caller) => s.(outside := s.outside + multiset{caller})
    case Think(caller) => s.(outside := s.outside - multiset{caller} + multiset{Thought(p, s, caller)})
    case Acquire(caller, i) =>
      var shard := s.shards[i];
      s.(shards := s.shards[i := shard.(lock := Held(Begin(caller, shard.items)))], outside := s.outside - multiset{caller})
    case Work(i, pick) =>
      var shard := s.shards[i];
      if shard.lock.holder.Release? then
        s.(shards := s.shards[i := shard.(lock := Free)], outside := Leave(s.outside, shard.lock.holder.next))
      else
        var (items, count, holder) := Worked(p, shard.items, s.count, shard.lock.holder, pick);
        s.(shards := s.shards[i := Shard(items, Held(holder))], count := count)
  }

  ghost predicate Initial(s: State) {
    && |s.shards| > 0
    && (forall i | 0 <= i < |s.shards| :: s.shards[i] == Shard(map[], Free))
    && s.count == 0 && s.outside == multiset{}
  }

  /** An interleaving: `states[k + 1]` follows from `states[k]` by `actions[k]`. */
  ghost predicate Run(p: Params, states: seq<State>, actions: seq<Action>) {
    && |states| == |actions| + 1
    && Initial(states[0])
    && (forall k | 0 <= k < |actions| ::
          |states[k].shards| > 0 && Enabled(p, states[k], actions[k]) && states[k + 1] == Step(p, states[k], actions[k]))
  }

  // ---- The invariant ----

  function Sum(shards: seq<Shard>, f: Shard -> int): int {
    if shards == [] then 0 else Sum(shards[..|shards| - 1], f) + f(shards[|shards| - 1])
  }

  function Stored(s: Shard): int {
    |s.items|
  }

  /** How far the counter lags behind this shard's map: deletions not yet subtracted, an insertion not yet added. */
  function Lag(s: Shard): int {
    if s.lock.Free? then 0
    else match s.lock.holder
      case Deleted(_, _, _) => 1
      case ResetDeleted => 1
      case Inserted => -1
      case _ => 0
  }

  /** Whether the holder has passed the capacity check and not yet counted its entry. */
  function Reserved(s: Shard): int {
    if s.lock.Held? && (s.lock.holder.Insert? || s.lock.holder.Inserted?) then 1 else 0
  }

  ghost predicate ShardInv(p: Params, s: Shard, i: nat, shards: nat)
    requires shards > 0
  {
    && (forall key | key in s.items :: Home(p, key, shards) == i)
    && (s.lock.Held? ==>
          match s.lock.holder
          case Cleaning(_, rest, purpose) => rest <= s.items.Keys && PurposeInv(p, purpose, i, shards)
          case Deleted(_, rest, purpose) => rest <= s.items.Keys && PurposeInv(p, purpose, i, shards)
          case Act(purpose) => PurposeInv(p, purpose, i, shards)
          case LoadCount(key, _) => Home(p, key, shards) == i && key !in s.items
          case Insert(key, _) => Home(p, key, shards) == i && key !in s.items
          case _ => true)
  }

  ghost predicate PurposeInv(p: Params, purpose: Purpose, i: nat, shards: nat)
    requires shards > 0
  {
    purpose.Sweeping? || Home(p, purpose.key, shards) == i
  }

  ghost predicate Inv(p: Params, s: State) {
    && |s.shards| > 0
    && (forall i | 0 <= i < |s.shards| :: ShardInv(p, s.shards[i], i, |s.shards|))
    && s.count == Sum(s.shards, Stored) + Sum(s.shards, Lag)
    && (p.maxKeys > 0 ==> s.count + Sum(s.shards, Reserved) <= p.maxKeys + |s.shards| - 1)
  }

  lemma {:induction false} SumUpdate(shards: seq<Shard>, i: nat, shard: Shard, f: Shard -> int)
    requires i < |shards|
    ensures Sum(shards[i := shard], f) == Sum(shards, f) - f(shards[i]) + f(shard)
  {
    var last := |shards| - 1;
    if i == last {
      assert shards[i := shard][..last] == shards[..last];
    } else {
      assert shards[i := shard][..last] == shards[..last][i := shard];
      SumUpdate(shards[..last], i, shard, f);
    }
  }

  lemma {:induction false} SumZero(shards: seq<Shard>, f: Shard -> int)
    requires forall i | 0 <= i < |shards| :: f(shards[i]) == 0
    ensures Sum(shards, f) == 0
  {
    if shards != [] {
      SumZero(shards[..|shards| - 1], f);
    }
  }

  lemma {:induction false} SumOrder(shards: seq<Shard>, f: Shard -> int, g: Shard -> int)
    requires forall i | 0 <= i < |shards| :: f(shards[i]) <= g(shards[i])
    ensures Sum(shards, f) <= Sum(shards, g)
  {
    if shards != [] {
      SumOrder(shards[..|shards| - 1], f, g);
    }
  }

  /** At most one caller per shard holds a reservation; a shard without one leaves room for it. */
  lemma {:induction false} ReservationsFit(shards: seq<Shard>)
    ensures Sum(shards, Reserved) <= |shards|
    ensures (exists i :: 0 <= i < |shards| && Reserved(shards[i]) == 0) ==> Sum(shards, Reserved) < |shards|
  {
    if shards != [] {
      var front := shards[..|shards| - 1];
      ReservationsFit(front);
      if i :| 0 <= i < |shards| && Reserved(shards[i]) == 0 {
        assert i < |front| ==> Reserved(front[i]) == 0;
      }
    }
  }

  /** A step under the lock keeps its shard's part of the invariant. */
  lemma WorkedKeepsShard(p: Params, s: Shard, count: int, pick: Key, i: nat, shards: nat)
    requires shards > 0 && ShardInv(p, s, i, shards) && s.lock.Held? && !s.lock.holder.Release?
    ensures var (items, _, holder) := Worked(p, s.items, count, s.lock.holder, pick);
            ShardInv(p, Shard(items, Held(holder)), i, shards)
  {
    match s.lock.holder
    case Cleaning(_, _, _) =>
    case Deleted(_, _, _) =>
    case Act(_) =>
    case _ =>
  }

  /** The counter moves with the map, but for the change in lag. */
  ghost predicate Counted(p: Params, s: Shard, count: int, pick: Key)
    requires s.lock.Held?
  {
    var (items, count', holder) := Worked(p, s.items, count, s.lock.holder, pick);
    var s' := Shard(items, Held(holder));
    count' - count == (Stored(s') + Lag(s')) - (Stored(s) + Lag(s))
  }

  lemma CleaningCounts(p: Params, s: Shard, count: int, pick: Key)
    requires s.lock.Held? && s.lock.holder.Cleaning?
    ensures Counted(p, s, count, pick)
  {
    if pick in s.items {
      DropKey(s.items, pick);
    }
  }

  lemma ActCounts(p: Params, s: Shard, count: int, pick: Key)
    requires s.lock.Held? && s.lock.holder.Act?
    ensures Counted(p, s, count, pick)
  {
    PutKey(s.items, s.lock.holder.purpose.key, s.lock.holder.purpose.now);
  }

  lemma InsertCounts(p: Params, s: Shard, count: int, pick: Key)
    requires s.lock.Held? && s.lock.holder.Insert? && s.lock.holder.key !in s.items
    ensures Counted(p, s, count, pick)
  {
    PutKey(s.items, s.lock.holder.key, s.lock.holder.now);
  }

  lemma ResettingCounts(p: Params, s: Shard, count: int, pick: Key)
    requires s.lock.Held? && s.lock.holder.Resetting?
    ensures Counted(p, s, count, pick)
  {
    if s.lock.holder.key in s.items {
      DropKey(s.items, s.lock.holder.key);
    }
  }

  lemma OthersCount(p: Params, s: Shard, count: int, pick: Key)
    requires s.lock.Held?
    requires var h := s.lock.holder; h.Deleted? || h.LoadCount? || h.Inserted? || h.ResetDeleted?
    ensures Counted(p, s, count, pick)
  {
  }

  lemma WorkedCounts(p: Params, s: Shard, count: int, pick: Key)
    requires s.lock.Held? && !s.lock.holder.Release?
    requires s.lock.holder.Insert? ==> s.lock.holder.key !in s.items
    ensures Counted(p, s, count, pick)
  {
    hide Counted;
    match s.lock.holder
    case Cleaning(_, _, _) => CleaningCounts(p, s, count, pick);
    case Act(_) => ActCounts(p, s, count, pick);
    case Insert(_, _) => InsertCounts(p, s, count, pick);
    case Resetting(_) => ResettingCounts(p, s, count, pick);
    case _ => OthersCount(p, s, count, pick);
  }

  /** Only the capacity check makes a reservation, and only while it sees room. */
  lemma WorkedReserves(p: Params, s: Shard, count: int, pick: Key)
    requires s.lock.Held? && !s.lock.holder.Release?
    ensures var (items, count', holder) := Worked(p, s.items, count, s.lock.holder, pick);
            var s' := Shard(items, Held(holder));
            if holder.Insert? then Reserved(s) == 0 && count' == count && (p.maxKeys > 0 ==> count < p.maxKeys)
            else count' + Reserved(s') <= count + Reserved(s)
  {
  }

  lemma ReplaceShard(p: Params, s: State, i: nat, shard: Shard, count: int, outside: multiset<Outside>)
    requires Inv(p, s) && i < |s.shards| && ShardInv(p, shard, i, |s.shards|)
    requires count - s.count == (Stored(shard) + Lag(shard)) - (Stored(s.shards[i]) + Lag(s.shards[i]))
    requires p.maxKeys > 0 ==>
               count + Sum(s.shards, Reserved) - Reserved(s.shards[i]) + Reserved(shard) <= p.maxKeys + |s.shards| - 1
    ensures Inv(p, State(s.shards[i := shard], count, outside))
  {
    SumUpdate(s.shards, i, shard, Stored);
    SumUpdate(s.shards, i, shard, Lag);
    SumUpdate(s.shards, i, shard, Reserved);
  }

  lemma AcquireKeepsInv(p: Params, s: State, caller: Outside, i: nat)
    requires Inv(p, s) && Enabled(p, s, Acquire(caller, i))
    ensures Inv(p, Step(p, s, Acquire(caller, i)))
  {
    var shard := s.shards[i];
    var held := shard.(lock := Held(Begin(caller, shard.items)));
    assert ShardInv(p, shard, i, |s.shards|);
    assert ShardInv(p, held, i, |s.shards|) && Lag(held) == Reserved(held) == 0;
    hide Inv, ShardInv;
    ReplaceShard(p, s, i, held, s.count, s.outside - multiset{caller});
  }

  lemma ReleaseKeepsInv(p: Params, s: State, i: nat, pick: Key)
    requires Inv(p, s) && Enabled(p, s, Work(i, pick)) && s.shards[i].lock.holder.Release?
    ensures Inv(p, Step(p, s, Work(i, pick)))
  {
    var shard := s.shards[i];
    assert ShardInv(p, shard, i, |s.shards|);
    assert Lag(shard) == Reserved(shard) == 0;
    hide Inv;
    ReplaceShard(p, s, i, shard.(lock := Free), s.count, Leave(s.outside, shard.lock.holder.next));
  }

  lemma WorkKeepsInv(p: Params, s: State, i: nat, pick: Key)
    requires Inv(p, s) && Enabled(p, s, Work(i, pick)) && !s.shards[i].lock.holder.Release?
    ensures Inv(p, Step(p, s, Work(i, pick)))
  {
    hide Worked;
    var shard := s.shards[i];
    var (items, count, holder) := Worked(p, shard.items, s.count, shard.lock.holder, pick);
    assert ShardInv(p, shard, i, |s.shards|);
    WorkedKeepsShard(p, shard, s.count, pick, i, |s.shards|);
    WorkedCounts(p, shard, s.count, pick);
    WorkedReserves(p, shard, s.count, pick);
    ReservationsFit(s.shards);
    ReservationsLeave(p, s, i, Shard(items, Held(holder)), count);
    hide Inv, ShardInv, Stored, Lag, Reserved;
    ReplaceShard(p, s, i, Shard(items, Held(holder)), count, s.outside);
  }

  /** A new reservation is made while the counter is below the cap and this shard holds none. */
  lemma ReservationsLeave(p: Params, s: State, i: nat, shard: Shard, count: int)
    requires Inv(p, s) && i < |s.shards| && shard.lock.Held?
    requires if shard.lock.holder.Insert? then
               Reserved(s.shards[i]) == 0 && count == s.count && (p.maxKeys > 0 ==> s.count < p.maxKeys)
             else count + Reserved(shard) <= s.count + Reserved(s.shards[i])
    ensures p.maxKeys > 0 ==>
              count + Sum(s.shards, Reserved) - Reserved(s.shards[i]) + Reserved(shard) <= p.maxKeys + |s.shards| - 1
  {
    ReservationsFit(s.shards);
    hide ShardInv, Sum;
  }

  /** Every atomic step keeps the invariant. */
  lemma StepKeepsInv(p: Params, s: State, a: Action)
    requires Inv(p, s) && Enabled(p, s, a)
    ensures Inv(p, Step(p, s, a))
  {
    hide ShardInv, Sum, Thought, Worked, Begin, Leave;
    match a
    case Spawn(_) =>
    case Think(_) =>
    case Acquire(caller, i) => AcquireKeepsInv(p, s, caller, i);
    case Work(i, pick) =>
      if s.shards[i].lock.holder.Release? {
        ReleaseKeepsInv(p, s, i, pick);
      } else {
        WorkKeepsInv(p, s, i, pick);
      }
  }

  lemma {:induction false} RunKeepsInv(p: Params, states: seq<State>, actions: seq<Action>, k: nat)
    requires Run(p, states, actions) && k < |states|
    ensures Inv(p, states[k])
  {
    if k == 0 {
      var shards := states[0].shards;
      SumZero(shards, Stored);
      SumZero(shards, Lag);
      SumZero(shards, Reserved);
    } else {
      RunKeepsInv(p, states, actions, k - 1);
      StepKeepsInv(p, states[k - 1], actions[k - 1]);
    }
  }

  /** In every state of every interleaving: keys live in their hash shard; the counter is the number of entries whenever no
      lock is held; and neither the counter nor the entries exceed `MaxKeys` by as much as the number of shards. */
  lemma Capacity(p: Params, states: seq<State>, actions: seq<Action>, k: nat)
    requires Run(p, states, actions) && k < |states|
    ensures var s := states[k];
            && |s.shards| > 0
            && (forall i, key | 0 <= i < |s.shards| && key in s.shards[i].items :: Home(p, key, |s.shards|) == i)
            && ((forall i | 0 <= i < |s.shards| :: s.shards[i].lock == Free) ==> s.count == Sum(s.shards, Stored))
            && (p.maxKeys > 0 ==> s.count <= p.maxKeys + |s.shards| - 1)
            && (p.maxKeys > 0 ==> Sum(s.shards, Stored) <= p.maxKeys + |s.shards| - 1)
  {
    RunKeepsInv(p, states, actions, k);
    var s := states[k];
    var nothing := (shard: Shard) => 0;
    SumZero(s.shards, nothing);
    SumOrder(s.shards, nothing, Reserved);
    assert forall i | 0 <= i < |s.shards| :: ShardInv(p, s.shards[i], i, |s.shards|);
    LagWithinReservations(s.shards);
    if forall i | 0 <= i < |s.shards| :: s.shards[i].lock == Free {
      SumZero(s.shards, Lag);
    }
  }

  lemma {:induction false} LagWithinReservations(shards: seq<Shard>)
    ensures Sum(shards, Lag) + Sum(shards, Reserved) >= 0
  {
    if shards != [] {
      LagWithinReservations(shards[..|shards| - 1]);
    }
  }

  // ---- The bound is reached ----

  ghost predicate Reachable(p: Params, s: State) {
    exists states, actions :: Run(p, states, actions) && states[|states| - 1] == s
  }

  lemma Extend(p: Params, s: State, a: Action)
    requires Reachable(p, s) && |s.shards| > 0 && Enabled(p, s, a)
    ensures Reachable(p, Step(p, s, a))
  {
    var states, actions :| Run(p, states, actions) && states[|states| - 1] == s;
    var (states', actions') := (states + [Step(p, s, a)], actions + [a]);
    forall k | 0 <= k < |actions'|
      ensures |states'[k].shards| > 0 && Enabled(p, states'[k], actions'[k])
              && states'[k + 1] == Step(p, states'[k], actions'[k])
    {
    }
    assert Run(p, states', actions');
  }

  /** `s` with the lock of shard `i` held. */
  ghost function At(s: State, i: nat, holder: Inside): State
    requires i < |s.shards|
  {
    s.(shards := s.shards[i := s.shards[i].(lock := Held(holder))])
  }

  /** One step of the holder of shard `i` that leaves the entries and the counter alone. */
  lemma Advance(p: Params, s: State, i: nat, holder: Inside, pick: Key, next: Inside)
    requires i < |s.shards| && Reachable(p, At(s, i, holder)) && !holder.Release?
    requires holder.Cleaning? && holder.rest != {} ==> pick in holder.rest
    requires Worked(p, s.shards[i].items, s.count, holder, pick) == (s.shards[i].items, s.count, next)
    ensures Reachable(p, At(s, i, next))
  {
    Extend(p, At(s, i, holder), Work(i, pick));
    assert At(s, i, holder).shards[i := Shard(s.shards[i].items, Held(next))] == At(s, i, next).shards;
  }

  /** The holder lets go. */
  lemma LetGo(p: Params, s: State, i: nat, next: Outside)
    requires i < |s.shards| && s.shards[i].lock == Free && Reachable(p, At(s, i, Release(next)))
    ensures Reachable(p, s.(outside := Leave(s.outside, next)))
  {
    var held := At(s, i, Release(next));
    Extend(p, held, Work(i, ""));
    assert held.shards[i := held.shards[i].(lock := Free)] == s.shards;
  }

  lemma TakeLock(p: Params, s: State, i: nat, caller: Outside)
    requires Reachable(p, s.(outside := s.outside + multiset{caller}))
    requires i < |s.shards| && s.shards[i].lock == Free && Wants(p, caller, i, |s.shards|)
    ensures Reachable(p, At(s, i, Begin(caller, s.shards[i].items)))
  {
    var s1 := s.(outside := s.outside + multiset{caller});
    assert s1.outside - multiset{caller} == s.outside;
    Extend(p, s1, Acquire(caller, i));
  }

  /** Every entry has just been seen. */
  ghost predicate AllNew(items: map<Key, Time>) {
    forall key | key in items :: items[key] == 0
  }

  /** A cleanup that meets only new entries passes over them. */
  lemma {:induction false} PassOver(p: Params, s: State, i: nat, rest: set<Key>, purpose: Purpose)
    requires i < |s.shards| && AllNew(s.shards[i].items) && purpose.now == 0
    requires Reachable(p, At(s, i, Cleaning(0, rest, purpose)))
    ensures Reachable(p, At(s, i, Act(purpose)))
    decreases |rest|
  {
    if rest == {} {
      Advance(p, s, i, Cleaning(0, rest, purpose), "", Act(purpose));
    } else if p.ttl <= 0 {
      var pick := SomeElement(rest);
      Advance(p, s, i, Cleaning(0, rest, purpose), pick, Act(purpose));
    } else {
      var pick := SomeElement(rest);
      Advance(p, s, i, Cleaning(0, rest, purpose), pick, Cleaning(0, rest - {pick}, purpose));
      PassOver(p, s, i, rest - {pick}, purpose);
    }
  }

  /** The store has room for a key that it does not hold, and its shard is free. */
  ghost predicate HasRoom(p: Params, s: State, i: nat, key: Key) {
    && i < |s.shards| && Home(p, key, |s.shards|) == i
    && s.shards[i].lock == Free && AllNew(s.shards[i].items) && key !in s.shards[i].items
    && s.count < p.maxKeys
  }

  /** A caller of a new key takes its lock for the first time, finds nothing and lets go. */
  lemma FirstLook(p: Params, s: State, i: nat, key: Key)
    requires Reachable(p, s) && HasRoom(p, s, i, key)
    ensures Reachable(p, s.(outside := s.outside + multiset{CheckFull(key, 0)}))
  {
    Extend(p, s, Spawn(Enter(key, 0)));
    TakeLock(p, s, i, Enter(key, 0));
    PassOver(p, s, i, s.shards[i].items.Keys, First(key, 0));
    Advance(p, s, i, Act(First(key, 0)), "", Release(CheckFull(key, 0)));
    LetGo(p, s, i, CheckFull(key, 0));
  }

  lemma SeesRoom(p: Params, s: State, key: Key)
    requires Reachable(p, s.(outside := s.outside + multiset{CheckFull(key, 0)}))
    requires |s.shards| > 0 && s.count < p.maxKeys
    ensures Reachable(p, s.(outside := s.outside + multiset{Relock(key, 0)}))
  {
    var s1 := s.(outside := s.outside + multiset{CheckFull(key, 0)});
    assert s1.outside - multiset{CheckFull(key, 0)} == s.outside;
    assert Thought(p, s1, CheckFull(key, 0)) == Relock(key, 0);
    Extend(p, s1, Think(CheckFull(key, 0)));
    hide Reachable, Thought;
  }

  /** It then sees room, takes the lock again and passes the second check. */
  lemma SecondLook(p: Params, s: State, i: nat, key: Key)
    requires Reachable(p, s) && HasRoom(p, s, i, key)
    ensures Reachable(p, At(s, i, Insert(key, 0)))
  {
    FirstLook(p, s, i, key);
    SeesRoom(p, s, key);
    TakeLock(p, s, i, Relock(key, 0));
    PassOver(p, s, i, s.shards[i].items.Keys, Second(key, 0));
    Advance(p, s, i, Act(Second(key, 0)), "", LoadCount(key, 0));
    Advance(p, s, i, LoadCount(key, 0), "", Insert(key, 0));
  }

  /** The store with one more entry. */
  ghost function Put(s: State, i: nat, key: Key): State
    requires i < |s.shards|
  {
    s.(shards := s.shards[i := s.shards[i].(items := s.shards[i].items[key := 0])], count := s.count + 1)
  }

  /** From there it stores and counts its entry, whatever the counter says by now, and lets go. */
  lemma FinishInsert(p: Params, s: State, i: nat, key: Key)
    requires i < |s.shards| && s.shards[i].lock == Free && Reachable(p, At(s, i, Insert(key, 0)))
    ensures Reachable(p, Put(s, i, key))
  {
    var items := s.shards[i].items[key := 0];
    Extend(p, At(s, i, Insert(key, 0)), Work(i, ""));
    var s1 := s.(shards := s.shards[i := Shard(items, Held(Inserted))]);
    assert At(s, i, Insert(key, 0)).shards[i := Shard(items, Held(Inserted))] == s1.shards;
    Extend(p, s1, Work(i, ""));
    assert s1.shards[i := Shard(items, Held(Release(Done)))] == At(Put(s, i, key), i, Release(Done)).shards;
    LetGo(p, Put(s, i, key), i, Done);
  }

  // One caller after another stores `early`; then one caller in every shard passes the check; then all of them store.

  /** The store of `n` shards that holds exactly `early`. */
  ghost function Stocked(p: Params, n: nat, early: seq<Key>): (s: State)
    requires n > 0
    ensures |s.shards| == n
  {
    if early == [] then State(seq(n, _ => Shard(map[], Free)), 0, multiset{})
    else
      var key := early[|early| - 1];
      Put(Stocked(p, n, early[..|early| - 1]), Home(p, key, n), key)
  }

  ghost predicate Distinct(keys: seq<Key>) {
    forall i, j | 0 <= i < j < |keys| :: keys[i] != keys[j]
  }

  lemma {:induction false} StockedHolds(p: Params, n: nat, early: seq<Key>)
    requires n > 0
    ensures var s := Stocked(p, n, early);
            && s.count == |early| && s.outside == multiset{}
            && forall i | 0 <= i < n ::
                 s.shards[i].lock == Free && AllNew(s.shards[i].items)
                 && forall key | key in s.shards[i].items :: key in early
  {
    if early != [] {
      StockedHolds(p, n, early[..|early| - 1]);
    }
  }

  lemma {:induction false} ReachStocked(p: Params, n: nat, early: seq<Key>)
    requires n > 0 && Distinct(early) && |early| < p.maxKeys
    ensures Reachable(p, Stocked(p, n, early))
  {
    if early == [] {
      var s := Stocked(p, n, []);
      assert Run(p, [s], []);
      assert [s][0] == s;
    } else {
      var (front, key) := (early[..|early| - 1], early[|early| - 1]);
      var (s, i) := (Stocked(p, n, front), Home(p, key, n));
      ReachStocked(p, n, front);
      StockedHolds(p, n, front);
      SecondLook(p, s, i, key);
      FinishInsert(p, s, i, key);
    }
  }

  /** `s` with one caller in each of the first `j` shards about to insert. */
  ghost function Poised(s: State, keys: seq<Key>, j: nat): State
    requires j <= |keys| == |s.shards|
  {
    s.(shards := seq(|keys|, i requires 0 <= i < |keys| =>
                       if i < j then s.shards[i].(lock := Held(Insert(keys[i], 0))) else s.shards[i]))
  }

  /** The same once the first `j` of them have stored and counted their keys. */
  ghost function Filled(s: State, keys: seq<Key>, j: nat): State
    requires j <= |keys| == |s.shards|
  {
    s.(shards := seq(|keys|, i requires 0 <= i < |keys| =>
                       if i < j then s.shards[i].(items := s.shards[i].items[keys[i] := 0])
                       else s.shards[i].(lock := Held(Insert(keys[i], 0)))),
       count := s.count + j)
  }

  /** One key for each shard, none of them stored. */
  ghost predicate OneKeyPerShard(p: Params, s: State, keys: seq<Key>) {
    && |keys| == |s.shards| > 0
    && forall i | 0 <= i < |keys| :: HasRoom(p, s, i, keys[i])
  }

  lemma {:induction false} ReachPoised(p: Params, s: State, keys: seq<Key>, j: nat)
    requires OneKeyPerShard(p, s, keys) && j <= |keys| && Reachable(p, s)
    ensures Reachable(p, Poised(s, keys, j))
  {
    if j == 0 {
      assert Poised(s, keys, 0).shards == s.shards;
    } else {
      ReachPoised(p, s, keys, j - 1);
      var before := Poised(s, keys, j - 1);
      assert HasRoom(p, s, j - 1, keys[j - 1]);
      SecondLook(p, before, j - 1, keys[j - 1]);
      assert At(before, j - 1, Insert(keys[j - 1], 0)).shards == Poised(s, keys, j).shards;
    }
  }

  lemma {:induction false} ReachFilled(p: Params, s: State, keys: seq<Key>, j: nat)
    requires OneKeyPerShard(p, s, keys) && j <= |keys| && Reachable(p, s)
    ensures Reachable(p, Filled(s, keys, j))
  {
    if j == 0 {
      ReachPoised(p, s, keys, |keys|);
      assert Poised(s, keys, |keys|).shards == Filled(s, keys, 0).shards;
    } else {
      ReachFilled(p, s, keys, j - 1);
      var (i, key) := (j - 1, keys[j - 1]);
      var held := Filled(s, keys, j - 1);
      var free := held.(shards := held.shards[i := s.shards[i]]);
      assert HasRoom(p, s, i, key);
      assert At(free, i, Insert(key, 0)).shards == held.shards;
      FinishInsert(p, free, i, key);
      assert Put(free, i, key).shards == Filled(s, keys, j).shards;
    }
  }

  /** `MaxKeys` alone is not a bound: whatever it is, callers can leave `MaxKeys` plus the number of shards minus one entries.
      `early` and `keys` are any distinct keys, the latter one for each shard. */
  lemma CapacityIsSharp(p: Params, early: seq<Key>, keys: seq<Key>)
    requires p.maxKeys >= 1 && |early| == p.maxKeys - 1 && keys != []
    requires Distinct(early) && forall i | 0 <= i < |keys| :: keys[i] !in early && Home(p, keys[i], |keys|) == i
    ensures exists s :: Reachable(p, s) && |s.shards| == |keys| && s.count == p.maxKeys + |s.shards| - 1
                        && forall i | 0 <= i < |s.shards| :: s.shards[i].lock == Free
  {
    var s := Stocked(p, |keys|, early);
    ReachStocked(p, |keys|, early);
    StockedHolds(p, |keys|, early);
    ReachFilled(p, s, keys, |keys|);
    assert Reachable(p, Filled(s, keys, |keys|));
  }
}
