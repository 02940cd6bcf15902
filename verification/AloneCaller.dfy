/** A caller of the concurrent store that is alone does what the sequential store does: `WithEntry` and `Reset` of `Store`. */
module AloneCaller {
  import opened Clock
  import opened Collections
  import opened RateLimit
  import opened ShardedState
  import opened ConcurrentStore
  import opened LockSections

  // ---- The entries as the sequential store holds them ----

  function Entries(items: Times): Items<()> {
    map k | k in items :: Entry((), items[k])
  }

  function AllEntries(s: State): (e: seq<Items<()>>)
    ensures |e| == |s.shards|
  {
    seq(|s.shards|, i requires 0 <= i < |s.shards| => Entries(s.shards[i].items))
  }

  lemma EntriesSize(items: Times)
    ensures |Entries(items)| == |items|
  {
    assert Entries(items).Keys == items.Keys;
    assert |items.Keys| == |items| && |Entries(items).Keys| == |Entries(items)|;
  }

  /** The counter counts them when no step is half done. */
  lemma {:induction false} SumIsTotal(shards: seq<Shard>, e: seq<Items<()>>)
    requires |e| == |shards| && forall i | 0 <= i < |e| :: e[i] == Entries(shards[i].items)
    ensures Sum(shards, Stored) == Total(e)
  {
    if shards != [] {
      var last := |shards| - 1;
      SumIsTotal(shards[..last], e[..last]);
      EntriesSize(shards[last].items);
    }
  }

  /** Shard by shard, up to `upTo`: an entry has gone, or none is idle for longer than `ttl`. */
  ghost predicate SweptTo(p: Params, start: seq<Items<()>>, e: seq<Items<()>>, now: Time, upTo: nat) {
    |e| == |start| && forall j | 0 <= j < |e| && j < upTo :: |e[j]| < |start[j]| || NoneExpired(e[j], now, p.ttl)
  }

  predicate Full(p: Params, e: seq<Items<()>>) {
    p.maxKeys > 0 && Total(e) >= p.maxKeys
  }

  /** What `WithEntry` or `Reset`, called on `start`, leaves behind. */
  ghost predicate Finished(p: Params, call: Outside, start: seq<Items<()>>, e: seq<Items<()>>)
    requires |start| > 0
  {
    match call
    case EnterReset(key) =>
      var h := Home(p, key, |start|);
      e == start[h := start[h] - {key}]
    case Enter(key, now) => exists mid :: EntryKept(p, key, now, start, mid, e)
    case _ => false
  }

  ghost predicate EntryKept(p: Params, key: Key, now: Time, start: seq<Items<()>>, mid: seq<Items<()>>, e: seq<Items<()>>)
    requires |start| > 0
  {
    var h := Home(p, key, |start|);
    && AllCleaned(start, mid, now, p.ttl)
    && if key in mid[h] || !Full(p, mid) then e == mid[h := mid[h][key := Entry((), now)]]
       else e == mid && SweptTo(p, start, mid, now, |mid|)
  }

  // ---- A caller that is alone ----

  /** Where the caller stands between two sections, and what the store has become meanwhile. */
  ghost predicate Between(p: Params, call: Outside, start: seq<Items<()>>, e: seq<Items<()>>, at: Outside)
    requires |start| > 0
  {
    if at == call then (call.Enter? || call.EnterReset?) && e == start
    else
      call.Enter?
      && AllCleaned(start, e, call.now, p.ttl)
      && call.key !in e[Home(p, call.key, |start|)]
      && match at
         case CheckFull(key, now) => key == call.key && now == call.now
         case Sweep(key, now, next) => key == call.key && now == call.now && SweptTo(p, start, e, now, next)
         case Relock(key, now) => key == call.key && now == call.now && (Full(p, e) ==> SweptTo(p, start, e, now, |e|))
         case _ => false
  }

  ghost predicate AllFree(s: State) {
    forall i | 0 <= i < |s.shards| :: s.shards[i].lock == Free
  }

  ghost predicate Waiting(p: Params, call: Outside, start: seq<Items<()>>, s: State) {
    && |start| == |s.shards| > 0 && AllFree(s)
    && exists at :: s.outside == multiset{at} && Between(p, call, start, AllEntries(s), at)
  }

  ghost predicate Working(p: Params, call: Outside, start: seq<Items<()>>, s: State, i: nat, at: Outside, before: Times,
                          seen: Seen) {
    && |start| == |s.shards| && i < |s.shards| && s.outside == multiset{}
    && s.shards[i].lock.Held? && (forall j | 0 <= j < |s.shards| && j != i :: s.shards[j].lock == Free)
    && Wants(p, at, i, |s.shards|)
    && Between(p, call, start, AllEntries(s)[i := Entries(before)], at)
    && SoFar(p, at, before, s.shards[i].items, s.shards[i].lock.holder, seen)
    && (seen.Looked? ==> (seen.full <==> Full(p, AllEntries(s)[i := Entries(seen.items)])))
  }

  ghost predicate Over(p: Params, call: Outside, start: seq<Items<()>>, s: State) {
    |start| == |s.shards| > 0 && AllFree(s) && s.outside == multiset{} && Finished(p, call, start, AllEntries(s))
  }

  ghost predicate Alone(p: Params, call: Outside, start: seq<Items<()>>, s: State) {
    || Waiting(p, call, start, s)
    || (exists i, at, before, seen :: Working(p, call, start, s, i, at, before, seen))
    || Over(p, call, start, s)
  }

  lemma CountIsTotal(p: Params, s: State, i: nat)
    requires Inv(p, s) && i < |s.shards| && Lag(s.shards[i]) == 0
    requires forall j | 0 <= j < |s.shards| && j != i :: s.shards[j].lock == Free
    ensures s.count == Total(AllEntries(s))
  {
    SumIsTotal(s.shards, AllEntries(s));
    SumZero(s.shards, Lag);
    hide Sum, Total, ShardInv;
  }

  /** A tidied shard among the others. */
  lemma TidiedIsCleaned(p: Params, start: seq<Items<()>>, e: seq<Items<()>>, i: nat, before: Times, after: Times, now: Time)
    requires i < |e| && e[i] == Entries(before) && Tidied(p, before, after, now) && AllCleaned(start, e, now, p.ttl)
    ensures AllCleaned(start, e[i := Entries(after)], now, p.ttl)
    ensures forall key, j | 0 <= j < |e| && key !in e[j] :: key !in e[i := Entries(after)][j]
  {
    var e' := e[i := Entries(after)];
    forall j | 0 <= j < |start|
      ensures Cleaned(start[j], e'[j], now, p.ttl)
    {
      assert Cleaned(start[j], e[j], now, p.ttl);
    }
  }

  lemma TidiedIsSwept(p: Params, start: seq<Items<()>>, e: seq<Items<()>>, i: nat, before: Times, after: Times, now: Time)
    requires p.ttl > 0 && i < |e| == |start| && e[i] == Entries(before) && Tidied(p, before, after, now)
    requires AllCleaned(start, e, now, p.ttl)
    ensures |Entries(after)| < |start[i]| || NoneExpired(Entries(after), now, p.ttl)
  {
    EntriesSize(after);
    EntriesSize(before);
    assert Cleaned(start[i], e[i], now, p.ttl);
    SubsetSize(e[i].Keys, start[i].Keys);
    assert |e[i].Keys| == |e[i]| && |start[i].Keys| == |start[i]| && |before.Keys| == |before| && |after.Keys| == |after|;
    SubsetSize(after.Keys, before.Keys);
    if |after| == |before| {
      assert before.Keys - after.Keys == {};
    }
  }

  lemma SweptStays(p: Params, start: seq<Items<()>>, e: seq<Items<()>>, i: nat, before: Times, after: Times, now: Time, upTo: nat)
    requires p.ttl > 0 && i < |e| == |start| && e[i] == Entries(before) && Tidied(p, before, after, now)
    requires AllCleaned(start, e, now, p.ttl) && SweptTo(p, start, e, now, upTo)
    ensures SweptTo(p, start, e[i := Entries(after)], now, upTo)
    ensures upTo == i ==> SweptTo(p, start, e[i := Entries(after)], now, i + 1)
    ensures |after| <= |before|
  {
    TidiedIsSwept(p, start, e, i, before, after, now);
    SubsetSize(after.Keys, before.Keys);
    assert |before.Keys| == |before| && |after.Keys| == |after|;
    hide AllCleaned, Tidied, NoneExpired;
  }

  // ---- One section, done alone ----

  lemma FirstSection(p: Params, call: Outside, start: seq<Items<()>>, e: seq<Items<()>>, i: nat, before: Times, after: Times,
                     next: Outside, seen: Seen)
    requires p.ttl > 0 && |start| == |e| > 0 && call.Enter? && i == Home(p, call.key, |start|) && e[i] == Entries(before)
    requires e == start && SectionDone(p, call, before, after, next, seen)
    ensures var e' := e[i := Entries(after)];
            if next == Done then Finished(p, call, start, e') else Between(p, call, start, e', next)
  {
    hide Tidied, AllCleaned;
    var Enter(key, now) := call;
    StartIsCleaned(p, start, now);
    var mid: Times :| Tidied(p, before, mid, now)
                      && if key in mid then after == mid[key := now] && next == Done
                         else after == mid && next == CheckFull(key, now);
    TidiedIsCleaned(p, start, e, i, before, mid, now);
    if key in mid {
      StampedEntries(mid, key, now);
      var m := e[i := Entries(mid)];
      assert EntryKept(p, key, now, start, m, e[i := Entries(after)]);
    }
  }

  lemma StampedEntries(items: Times, key: Key, now: Time)
    ensures Entries(items[key := now]) == Entries(items)[key := Entry((), now)]
  {
  }

  lemma StartIsCleaned(p: Params, start: seq<Items<()>>, now: Time)
    ensures AllCleaned(start, start, now, p.ttl)
  {
  }

  lemma SweepSection(p: Params, call: Outside, start: seq<Items<()>>, e: seq<Items<()>>, at: Outside, before: Times,
                     after: Times, next: Outside, seen: Seen)
    requires p.ttl > 0 && |start| == |e| > 0 && at.Sweep? && at.next < |e| && e[at.next] == Entries(before)
    requires Between(p, call, start, e, at) && SectionDone(p, at, before, after, next, seen)
    ensures next != Done && Between(p, call, start, e[at.next := Entries(after)], next)
  {
    hide Tidied, AllCleaned, SweptTo;
    TidiedIsCleaned(p, start, e, at.next, before, after, at.now);
    SweptStays(p, start, e, at.next, before, after, at.now, at.next);
  }

  lemma SecondSection(p: Params, call: Outside, start: seq<Items<()>>, e: seq<Items<()>>, at: Outside, i: nat, before: Times,
                      after: Times, next: Outside, seen: Seen)
    requires p.ttl > 0 && |start| == |e| > 0 && at.Relock? && i == Home(p, at.key, |e|) && e[i] == Entries(before)
    requires Between(p, call, start, e, at) && SectionDone(p, at, before, after, next, seen)
    requires seen.Looked? ==> (seen.full <==> Full(p, e[i := Entries(seen.items)]))
    ensures next == Done && Finished(p, call, start, e[i := Entries(after)])
  {
    hide Tidied, AllCleaned, SweptTo, Full;
    var Relock(key, now) := at;
    var mid: Times :| Tidied(p, before, mid, now) && next == Done
                      && if key in mid then after == mid[key := now]
                         else seen.Looked? && seen.items == mid && after == if seen.full then mid else mid[key := now];
    TidiedIsCleaned(p, start, e, i, before, mid, now);
    StampedEntries(mid, key, now);
    var m := e[i := Entries(mid)];
    if Full(p, m) {
      FullBefore(p, start, e, i, before, mid, now);
      SweptStays(p, start, e, i, before, mid, now, |e|);
    }
    assert EntryKept(p, key, now, start, m, e[i := Entries(after)]);
  }

  /** Tidying makes no store full. */
  lemma FullBefore(p: Params, start: seq<Items<()>>, e: seq<Items<()>>, i: nat, before: Times, after: Times, now: Time)
    requires i < |e| && e[i] == Entries(before) && Tidied(p, before, after, now)
    ensures Full(p, e[i := Entries(after)]) ==> Full(p, e)
  {
    TotalUpdate(e, i, Entries(after));
    EntriesSize(before);
    EntriesSize(after);
    SubsetSize(after.Keys, before.Keys);
    assert |before.Keys| == |before| && |after.Keys| == |after|;
    hide Total, Tidied;
  }

  lemma ResetSection(p: Params, call: Outside, start: seq<Items<()>>, e: seq<Items<()>>, i: nat, before: Times, after: Times,
                     next: Outside, seen: Seen)
    requires |start| == |e| > 0 && call.EnterReset? && i == Home(p, call.key, |e|) && e[i] == Entries(before)
    requires e == start && SectionDone(p, call, before, after, next, seen)
    ensures next == Done && Finished(p, call, start, e[i := Entries(after)])
  {
    assert Entries(before - {call.key}) == Entries(before) - {call.key};
  }

  lemma SectionAlone(p: Params, call: Outside, start: seq<Items<()>>, e: seq<Items<()>>, at: Outside, i: nat, before: Times,
                     after: Times, next: Outside, seen: Seen)
    requires p.ttl > 0 && |start| == |e| > 0 && i < |e| && Wants(p, at, i, |e|) && e[i] == Entries(before)
    requires Between(p, call, start, e, at) && SectionDone(p, at, before, after, next, seen)
    requires seen.Looked? ==> (seen.full <==> Full(p, e[i := Entries(seen.items)]))
    ensures var e' := e[i := Entries(after)];
            if next == Done then Finished(p, call, start, e') else Between(p, call, start, e', next)
  {
    hide Finished, SectionDone, Full;
    match at
    case Enter(_, _) => FirstSection(p, call, start, e, i, before, after, next, seen);
    case EnterReset(_) => ResetSection(p, call, start, e, i, before, after, next, seen);
    case Sweep(_, _, _) => SweepSection(p, call, start, e, at, before, after, next, seen);
    case Relock(_, _) => SecondSection(p, call, start, e, at, i, before, after, next, seen);
    case _ =>
  }

  // ---- Its steps ----

  lemma ThinksAlone(p: Params, call: Outside, start: seq<Items<()>>, s: State, at: Outside)
    requires p.ttl > 0 && Inv(p, s) && |start| == |s.shards| > 0 && AllFree(s)
    requires Between(p, call, start, AllEntries(s), at)
    ensures Between(p, call, start, AllEntries(s), Thought(p, s, at))
  {
    CountIsTotal(p, s, 0);
    hide Inv, AllCleaned, Total, AllEntries;
  }

  lemma WaitingSteps(p: Params, call: Outside, start: seq<Items<()>>, s: State, a: Action)
    requires p.ttl > 0 && Inv(p, s) && Waiting(p, call, start, s) && Enabled(p, s, a) && !a.Spawn?
    ensures Alone(p, call, start, Step(p, s, a))
  {
    hide Inv, Between, Thought, Wants, Over, SoFar;
    var at :| s.outside == multiset{at} && Between(p, call, start, AllEntries(s), at);
    var s' := Step(p, s, a);
    match a
    case Think(caller) =>
      assert caller == at;
      ThinksAlone(p, call, start, s, at);
      assert s'.outside == multiset{Thought(p, s, at)};
      assert Waiting(p, call, start, s');
    case Acquire(caller, i) =>
      assert caller == at;
      LockTaken(p, s, at, i);
      assert s'.outside == multiset{};
      TakenAlone(p, call, start, s, s', i, at);
  }

  lemma TakenAlone(p: Params, call: Outside, start: seq<Items<()>>, s: State, s': State, i: nat, at: Outside)
    requires |start| == |s.shards| == |s'.shards| && i < |s.shards| && AllFree(s) && s'.outside == multiset{}
    requires Between(p, call, start, AllEntries(s), at) && Wants(p, at, i, |s.shards|)
    requires s'.shards == s.shards[i := s'.shards[i]] && s'.shards[i].items == s.shards[i].items && s'.shards[i].lock.Held?
    requires SoFar(p, at, s.shards[i].items, s.shards[i].items, s'.shards[i].lock.holder, NotLooked)
    ensures Alone(p, call, start, s')
  {
    hide SoFar, Between, Wants;
    var before := s.shards[i].items;
    assert AllEntries(s')[i := Entries(before)] == AllEntries(s);
    assert Working(p, call, start, s', i, at, before, NotLooked);
  }

  /** Only the holder can move. */
  lemma OnlyHolder(p: Params, call: Outside, start: seq<Items<()>>, s: State, i: nat, at: Outside, before: Times, seen: Seen,
                   a: Action)
    requires Working(p, call, start, s, i, at, before, seen) && Enabled(p, s, a) && !a.Spawn?
    ensures a.Work? && a.i == i
  {
    hide SoFar, Between, Wants;
  }

  lemma WorksAlone(p: Params, call: Outside, start: seq<Items<()>>, s: State, i: nat, at: Outside, before: Times, seen: Seen,
                   a: Action)
    requires Inv(p, s) && Working(p, call, start, s, i, at, before, seen) && Enabled(p, s, a) && a.Work? && a.i == i
    requires !s.shards[i].lock.holder.Release?
    ensures Alone(p, call, start, Step(p, s, a))
  {
    hide Inv, SoFar, Between, Wants, Worked, Full, Lag;
    var (shard, s') := (s.shards[i], Step(p, s, a));
    SectionGoesOn(p, at, before, shard.items, s.count, shard.lock.holder, a.pick, seen);
    var later := Look(p, seen, shard.items, s.count, shard.lock.holder);
    assert AllEntries(s')[i := Entries(before)] == AllEntries(s)[i := Entries(before)];
    if shard.lock.holder.LoadCount? {
      LooksAlone(p, s, i);
      assert AllEntries(s')[i := Entries(shard.items)] == AllEntries(s);
    } else if seen.Looked? {
      assert AllEntries(s')[i := Entries(seen.items)] == AllEntries(s)[i := Entries(seen.items)];
    }
    assert Working(p, call, start, s', i, at, before, later);
  }

  lemma LooksAlone(p: Params, s: State, i: nat)
    requires Inv(p, s) && i < |s.shards| && s.shards[i].lock.Held? && s.shards[i].lock.holder.LoadCount?
    requires forall j | 0 <= j < |s.shards| && j != i :: s.shards[j].lock == Free
    ensures p.maxKeys > 0 && s.count >= p.maxKeys <==> Full(p, AllEntries(s))
  {
    CountIsTotal(p, s, i);
    hide Inv, Total, AllEntries;
  }

  lemma LetsGoAlone(p: Params, call: Outside, start: seq<Items<()>>, s: State, i: nat, at: Outside, before: Times, seen: Seen,
                    a: Action)
    requires p.ttl > 0 && Working(p, call, start, s, i, at, before, seen) && Enabled(p, s, a) && a.Work? && a.i == i
    requires s.shards[i].lock.holder.Release?
    ensures Alone(p, call, start, Step(p, s, a))
  {
    hide Between, Wants, Full, SectionDone, Finished;
    var (shard, s') := (s.shards[i], Step(p, s, a));
    var next := shard.lock.holder.next;
    var e := AllEntries(s)[i := Entries(before)];
    if seen.Looked? {
      assert e[i := Entries(seen.items)] == AllEntries(s)[i := Entries(seen.items)];
    }
    SectionAlone(p, call, start, e, at, i, before, shard.items, next, seen);
    assert e[i := Entries(shard.items)] == AllEntries(s) == AllEntries(s');
    if next == Done {
      assert Over(p, call, start, s');
    } else {
      assert s'.outside == multiset{next};
      assert Waiting(p, call, start, s');
    }
  }

  lemma AloneSteps(p: Params, call: Outside, start: seq<Items<()>>, s: State, a: Action)
    requires p.ttl > 0 && Inv(p, s) && Alone(p, call, start, s) && Enabled(p, s, a) && !a.Spawn?
    ensures Alone(p, call, start, Step(p, s, a))
  {
    hide Inv, Step, Working, Waiting;
    if Waiting(p, call, start, s) {
      WaitingSteps(p, call, start, s, a);
    } else if i, at, before, seen :| Working(p, call, start, s, i, at, before, seen) {
      OnlyHolder(p, call, start, s, i, at, before, seen, a);
      if HolderLeaves(s, i) {
        LetsGoAlone(p, call, start, s, i, at, before, seen, a);
      } else {
        WorksAlone(p, call, start, s, i, at, before, seen, a);
      }
    }
  }

  predicate HolderLeaves(s: State, i: nat) {
    i < |s.shards| && s.shards[i].lock.Held? && s.shards[i].lock.holder.Release?
  }

  lemma {:induction false} AloneRuns(p: Params, states: seq<State>, actions: seq<Action>, a: nat, b: nat, call: Outside)
    requires p.ttl > 0 && Run(p, states, actions) && a <= b < |states| && forall m | a <= m < b :: !actions[m].Spawn?
    requires |states[a].shards| > 0 && AllFree(states[a]) && states[a].outside == multiset{call} && (call.Enter? || call.EnterReset?)
    ensures Alone(p, call, AllEntries(states[a]), states[b])
    decreases b
  {
    hide Inv, Step, Enabled, AllEntries, Working, Run;
    if a == b {
      assert Between(p, call, AllEntries(states[a]), AllEntries(states[a]), call);
      assert Waiting(p, call, AllEntries(states[a]), states[a]);
    } else {
      AloneRuns(p, states, actions, a, b - 1, call);
      StepAt(p, states, actions, b - 1);
      RunKeepsInv(p, states, actions, b - 1);
      AloneSteps(p, call, AllEntries(states[a]), states[b - 1], actions[b - 1]);
    }
  }

  lemma OverWhenQuiet(p: Params, call: Outside, start: seq<Items<()>>, s: State)
    requires Alone(p, call, start, s) && AllFree(s) && s.outside == multiset{}
    ensures Over(p, call, start, s)
  {
    hide SoFar, Between, Wants, Finished;
    forall at
      ensures s.outside != multiset{at}
    {
      assert at in multiset{at} && at !in s.outside;
    }
  }

  // ---- The sequential store ----

  /** `Reset` alone is `Store.Reset`: exactly its key has gone. */
  lemma ResetAlone(p: Params, states: seq<State>, actions: seq<Action>, a: nat, b: nat, key: Key)
    requires p.ttl > 0 && Run(p, states, actions) && a <= b < |states| && forall m | a <= m < b :: !actions[m].Spawn?
    requires |states[a].shards| > 0 && AllFree(states[a]) && states[a].outside == multiset{EnterReset(key)}
    requires AllFree(states[b]) && states[b].outside == multiset{}
    ensures var (start, e) := (AllEntries(states[a]), AllEntries(states[b]));
            var h := p.hash(key) % |start|;
            e == start[h := start[h] - {key}] && states[b].count == Total(e)
  {
    var call := EnterReset(key);
    AloneRuns(p, states, actions, a, b, call);
    OverWhenQuiet(p, call, AllEntries(states[a]), states[b]);
    RunKeepsInv(p, states, actions, b);
    CountIsTotal(p, states[b], 0);
    hide Inv, AllEntries, Total, Run;
  }

  function Stamp(d: Decision): ((), bool) -> ((), Decision) {
    (_, _) => ((), d)
  }

  /** A call alone is `Store.WithEntry`, whatever the algorithm decides: cleaned shards, then the key updated, inserted or
      refused; and refused only in a store full of live keys. */
  lemma WithEntryAlone(p: Params, states: seq<State>, actions: seq<Action>, a: nat, b: nat, key: Key, now: Time,
                       policy: StateFullPolicy, d: Decision) returns (mid: seq<Items<()>>, outcome: Outcome)
    requires p.ttl > 0 && Run(p, states, actions) && a <= b < |states| && forall m | a <= m < b :: !actions[m].Spawn?
    requires |states[a].shards| > 0 && AllFree(states[a]) && states[a].outside == multiset{Enter(key, now)}
    requires AllFree(states[b]) && states[b].outside == multiset{}
    ensures var (start, e) := (AllEntries(states[a]), AllEntries(states[b]));
            var h := p.hash(key) % |start|;
            && AllCleaned(start, mid, now, p.ttl)
            && Served(mid, e, h, key, now, p.maxKeys, policy, _ => (), Stamp(d), outcome)
            && states[b].count == Total(e)
            && (Total(start) <= p.maxKeys && key !in mid[h] && p.maxKeys > 0 && Total(mid) >= p.maxKeys ==>
                  mid == start && AllFresh(mid, now, p.ttl))
  {
    var call := Enter(key, now);
    var (start, e) := (AllEntries(states[a]), AllEntries(states[b]));
    AloneRuns(p, states, actions, a, b, call);
    OverWhenQuiet(p, call, start, states[b]);
    RunKeepsInv(p, states, actions, b);
    CountIsTotal(p, states[b], 0);
    hide Inv, AllEntries, Total, Run, AllCleaned, AllFree;
    mid :| EntryKept(p, key, now, start, mid, e);
    outcome := ServedAlone(p, key, now, start, mid, e, policy, d);
  }

  lemma ServedAlone(p: Params, key: Key, now: Time, start: seq<Items<()>>, mid: seq<Items<()>>, e: seq<Items<()>>,
                    policy: StateFullPolicy, d: Decision) returns (outcome: Outcome)
    requires |start| > 0 && EntryKept(p, key, now, start, mid, e) && |mid| == |start|
    ensures var h := Home(p, key, |start|);
            && Served(mid, e, h, key, now, p.maxKeys, policy, _ => (), Stamp(d), outcome)
            && (Total(start) <= p.maxKeys && key !in mid[h] && p.maxKeys > 0 && Total(mid) >= p.maxKeys ==>
                  mid == start && AllFresh(mid, now, p.ttl))
  {
    var h := Home(p, key, |start|);
    outcome := if key !in mid[h] && Full(p, mid) && policy != AllowNewKey then StateFull else Decided(d);
    CleanedShrinks(start, mid, now, p.ttl);
    hide AllCleaned, Total;
  }
}
