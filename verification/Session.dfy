/** The session manager of `internal/session/manager.go`: its table of sessions, and each of its lock sections. */
module Session {
  import opened Clock
  import opened Collections
  import opened RateLimit
  import opened Text

  datatype Phase = Running | Interrupted | Completed | Failed | Expired

  predicate Terminal(phase: Phase) {
    phase != Running
  }

  datatype Config = Config(ttl: int, limit: int)

  /** What a session object says: the context that its cancel function acts on is part of it. */
  datatype Cell = Cell(id: string, phase: Phase, updatedAt: Time, err: string, cancelled: bool)

  /** `cells` are all session objects ever stored, in order of creation; `ids` maps a session ID to its object. */
  datatype Table = Table(closed: bool, ids: map<string, nat>, cells: seq<Cell>)

  datatype StartResult =
    | Started(sessionId: string)
    | InvalidSessionId
    | ContextDone
    | ManagerClosed
    | SessionExists
    | TooManySessions

  datatype InterruptResult = Requested | AlreadyOver | NotFound | InvalidId

  // ---- What each lock section does to the table ----

  predicate IsRunning(t: Table, h: nat) {
    h < |t.cells| && !Terminal(t.cells[h].phase)
  }

  /** Whether the table still holds object `h`. */
  predicate Holds(t: Table, h: nat) {
    h < |t.cells| && t.cells[h].id in t.ids && t.ids[t.cells[h].id] == h
  }

  ghost predicate WellFormed(t: Table) {
    forall id | id in t.ids :: t.ids[id] < |t.cells| && t.cells[t.ids[id]].id == id
  }

  function ActiveIds(t: Table): set<string> {
    set id | id in t.ids && IsRunning(t, t.ids[id])
  }

  function Start(c: Config, t: Table, rawId: string, contextDone: bool, now: Time): (Table, StartResult) {
    var id := TrimSpace(rawId);
    if id == "" then (t, InvalidSessionId)
    else if contextDone then (t, ContextDone)
    else if t.closed then (t, ManagerClosed)
    else if id in t.ids && t.ids[id] < |t.cells| && t.cells[t.ids[id]].phase != Expired then (t, SessionExists)
    else if c.limit > 0 && |ActiveIds(t)| >= c.limit then (t, TooManySessions)
    else (Table(t.closed, t.ids[id := |t.cells|], t.cells + [Cell(id, Running, now, "", false)]), Started(id))
  }

  /** The session whose context an interrupt cancels. */
  function Interrupt(t: Table, rawId: string): (InterruptResult, Option<nat>) {
    var id := TrimSpace(rawId);
    if id == "" then (InvalidId, None)
    else if id !in t.ids then (NotFound, None)
    else if !IsRunning(t, t.ids[id]) then (AlreadyOver, None)
    else (Requested, Some(t.ids[id]))
  }

  predicate Stale(c: Config, cell: Cell, now: Time) {
    Terminal(cell.phase) && cell.phase != Expired && now - cell.updatedAt > c.ttl
  }

  function StaleIds(c: Config, t: Table, now: Time): set<string> {
    set id | id in t.ids && t.ids[id] < |t.cells| && Stale(c, t.cells[t.ids[id]], now)
  }

  /** Expiring the stale sessions among `seen`. */
  function Sweep(c: Config, t: Table, now: Time, seen: set<string>): Table {
    Table(t.closed, t.ids - (StaleIds(c, t, now) * seen),
          seq(|t.cells|, h requires 0 <= h < |t.cells| =>
                if Holds(t, h) && t.cells[h].id in seen && Stale(c, t.cells[h], now) then t.cells[h].(phase := Expired)
                else t.cells[h]))
  }

  /** What the cleanup does about one session. */
  function Visited(c: Config, t: Table, now: Time, id: string): Table
    requires id in t.ids && t.ids[id] < |t.cells|
  {
    var h := t.ids[id];
    if Stale(c, t.cells[h], now) then Table(t.closed, t.ids - {id}, t.cells[h := t.cells[h].(phase := Expired)]) else t
  }

  /** One more session seen. */
  lemma SweepStep(c: Config, t: Table, now: Time, seen: set<string>, id: string)
    requires WellFormed(t) && id in t.ids && id !in seen
    ensures var (swept, h) := (Sweep(c, t, now, seen), t.ids[id]);
            && |swept.cells| == |t.cells| && swept.cells[h] == t.cells[h] && id in swept.ids && swept.ids[id] == h
            && Sweep(c, t, now, seen + {id}) == Visited(c, swept, now, id)
            && |StaleIds(c, t, now) * (seen + {id})| ==
               |StaleIds(c, t, now) * seen| + if Stale(c, swept.cells[h], now) then 1 else 0
  {
    CountStep(c, t, now, seen, id);
    hide Stale;
    var (swept, h) := (Sweep(c, t, now, seen), t.ids[id]);
    var next := Sweep(c, t, now, seen + {id});
    if Stale(c, t.cells[h], now) {
      assert next.ids == swept.ids - {id};
      assert next.cells == swept.cells[h := t.cells[h].(phase := Expired)];
    } else {
      assert next.ids == swept.ids;
      assert next.cells == swept.cells;
    }
  }

  lemma SweepNothing(c: Config, t: Table, now: Time)
    ensures Sweep(c, t, now, {}) == t && StaleIds(c, t, now) * {} == {}
  {
    assert Sweep(c, t, now, {}).ids == t.ids;
    assert Sweep(c, t, now, {}).cells == t.cells;
  }

  lemma CountStep(c: Config, t: Table, now: Time, seen: set<string>, id: string)
    requires WellFormed(t) && id in t.ids && id !in seen
    ensures |StaleIds(c, t, now) * (seen + {id})| ==
            |StaleIds(c, t, now) * seen| + if Stale(c, t.cells[t.ids[id]], now) then 1 else 0
  {
    var stale := StaleIds(c, t, now);
    if id in stale {
      assert stale * (seen + {id}) == stale * seen + {id};
    } else {
      assert stale * (seen + {id}) == stale * seen;
    }
  }

  function Cleanup(c: Config, t: Table, now: Time): Table {
    Sweep(c, t, now, t.ids.Keys)
  }

  lemma CountAll(c: Config, t: Table, now: Time, seen: set<string>)
    requires forall id | id in t.ids :: id in seen
    ensures StaleIds(c, t, now) * seen == StaleIds(c, t, now)
    ensures Sweep(c, t, now, seen) == Cleanup(c, t, now)
  {
    assert StaleIds(c, t, now) * seen == StaleIds(c, t, now) * t.ids.Keys;
    assert Sweep(c, t, now, seen).cells == Cleanup(c, t, now).cells;
  }

  lemma CleanupTakes(c: Config, t: Table, now: Time)
    ensures Cleanup(c, t, now).ids == t.ids - StaleIds(c, t, now)
  {
    assert StaleIds(c, t, now) * t.ids.Keys == StaleIds(c, t, now);
  }

  function CancelAll(t: Table, hs: set<nat>): Table {
    t.(cells := seq(|t.cells|, h requires 0 <= h < |t.cells| =>
                      if h in hs then t.cells[h].(cancelled := true) else t.cells[h]))
  }

  /** The sessions that a `Close` which finds the manager open goes on to cancel. */
  function ToCancel(t: Table): set<nat> {
    set id | id in ActiveIds(t) :: t.ids[id]
  }

  lemma ClosedIsApart(t: Table)
    ensures var u := t.(closed := true);
            CancelAll(u, ToCancel(u)) == CancelAll(t, ToCancel(t)).(closed := true)
  {
    var u := t.(closed := true);
    assert ToCancel(u) == ToCancel(t);
  }

  function Finish(t: Table, h: nat, final: Phase, err: string, now: Time): Table {
    if !IsRunning(t, h) then t
    else t.(cells := t.cells[h := t.cells[h].(phase := final, updatedAt := now, err := err)])
  }

  // ---- The manager ----

  class SessionState {
    const id: string
    ghost const handle: nat
    var phase: Phase
    var updatedAt: Time
    var err: string
    var cancelled: bool

    constructor (id: string, now: Time, ghost handle: nat)
      ensures this.id == id && this.handle == handle
      ensures Snapshot() == Cell(id, Running, now, "", false)
    {
      this.id, this.handle := id, handle;
      phase, updatedAt, err, cancelled := Running, now, "", false;
    }

    ghost function Snapshot(): Cell
      reads this
    {
      Cell(id, phase, updatedAt, err, cancelled)
    }
  }

  class Manager {
    const config: Config
    var closed: bool
    var sessions: map<string, SessionState>
    /** Every session object ever stored, including those no longer in `sessions`. */
    ghost var all: seq<SessionState>

    ghost predicate Valid()
      reads this
    {
      && (forall h | 0 <= h < |all| :: all[h].handle == h)
      && (forall id | id in sessions ::
            sessions[id].handle < |all| && all[sessions[id].handle] == sessions[id] && sessions[id].id == id)
    }

    ghost function Value(): Table
      requires Valid()
      reads this, all
    {
      Table(closed, map id | id in sessions :: sessions[id].handle,
            seq(|all|, h requires 0 <= h < |all| reads this, all => all[h].Snapshot()))
    }

    lemma EntryIsCell(id: string)
      requires Valid() && id in sessions
      ensures sessions[id] in all
      ensures var t := Value();
              && id in t.ids && t.ids[id] == sessions[id].handle && t.ids[id] < |t.cells|
              && t.cells[t.ids[id]] == sessions[id].Snapshot()
              && t.cells[t.ids[id]].phase == sessions[id].phase
    {
    }

    lemma TableIsWellFormed()
      requires Valid()
      ensures WellFormed(Value()) && Value().ids.Keys == sessions.Keys
    {
    }

    constructor (config: Config)
      ensures this.config == config && Valid() && Value() == Table(false, map[], [])
    {
      this.config := config;
      closed, sessions, all := false, map[], [];
    }

    /** The IDs of the running sessions. */
    ghost function RunningIds(): set<string>
      reads this, sessions.Values
    {
      set id | id in sessions && sessions[id].phase == Running
    }

    lemma RunningIsActive()
      requires Valid()
      ensures RunningIds() == ActiveIds(Value())
    {
    }

    method ActiveSessionsLocked() returns (active: nat)
      requires Valid()
      ensures active == |ActiveIds(Value())|
    {
      active := 0;
      var rest := sessions.Keys;
      ghost var counted: set<string> := {};
      while rest != {}
        invariant rest <= sessions.Keys
        invariant counted == set id | id in ActiveIds(Value()) && id !in rest
        invariant active == |counted|
        decreases rest
      {
        ghost var _ := SomeElement(rest);
        var id :| id in rest;
        rest := rest - {id};
        EntryIsCell(id);
        if !Terminal(sessions[id].phase) {
          active := active + 1;
          counted := counted + {id};
        }
      }
      assert counted == ActiveIds(Value());
    }

    /** The new session object takes the place of any expired one. */
    method Store(id: string, now: Time)
      requires Valid()
      modifies this`sessions, this`all
      ensures Valid() && old(all) <= all && fresh(all[|old(all)|..])
      ensures var t := old(Value());
              Value() == Table(t.closed, t.ids[id := |t.cells|], t.cells + [Cell(id, Running, now, "", false)])
      ensures id in sessions && sessions == old(sessions)[id := sessions[id]] && fresh(sessions[id])
      ensures sessions[id].Snapshot() == Cell(id, Running, now, "", false)
    {
      ghost var t := Value();
      var session := new SessionState(id, now, |all|);
      sessions := sessions[id := session];
      all := all + [session];
      assert Value().ids == t.ids[id := |t.cells|];
      forall h | 0 <= h < |t.cells|
        ensures Value().cells[h] == t.cells[h]
      {
        assert all[h] == old(all)[h];
      }
      assert Value().cells == t.cells + [session.Snapshot()];
    }

    method StartSession(rawId: string, contextDone: bool, now: Time) returns (r: StartResult)
      requires Valid()
      modifies this`sessions, this`all
      ensures Valid() && old(all) <= all && fresh(all[|old(all)|..])
      ensures (Value(), r) == Start(config, old(Value()), rawId, contextDone, now)
      ensures var (id, before) := (TrimSpace(rawId), old(sessions));
              && (r == InvalidSessionId <==> id == "")
              && (r == ContextDone <==> id != "" && contextDone)
              && (r == ManagerClosed <==> id != "" && !contextDone && closed)
              && (id != "" && !contextDone && !closed ==>
                    && (r == SessionExists <==> id in before && before[id].phase != Expired)
                    && (r == TooManySessions <==>
                          (id in before ==> before[id].phase == Expired) && 0 < config.limit <= |old(RunningIds())|))
              && (r.Started? ==> r.sessionId == id && id in sessions && fresh(sessions[id])
                                 && sessions[id].Snapshot() == Cell(id, Running, now, "", false))
              && sessions == if r.Started? then before[id := sessions[id]] else before
    {
      hide TrimSpace, ActiveIds, RunningIds, Terminal;
      RunningIsActive();
      var id := TrimSpace(rawId);
      if id == "" {
        return InvalidSessionId;
      }
      if contextDone {
        return ContextDone;
      }
      if closed {
        return ManagerClosed;
      }
      if id in sessions {
        EntryIsCell(id);
      }
      if id in sessions && sessions[id].phase != Expired {
        return SessionExists;
      }
      if config.limit > 0 {
        var active := ActiveSessionsLocked();
        if active >= config.limit {
          return TooManySessions;
        }
      }
      Store(id, now);
      r := Started(id);
    }

    method InterruptSession(rawId: string) returns (r: InterruptResult)
      requires Valid()
      modifies all
      ensures Valid()
      ensures var (result, target) := Interrupt(old(Value()), rawId);
              r == result && Value() == CancelAll(old(Value()), if target.Some? then {target.value} else {})
      ensures var id := TrimSpace(rawId);
              && (r == InvalidId <==> id == "")
              && (r == NotFound <==> id != "" && id !in sessions)
              && (r == AlreadyOver <==> id != "" && id in sessions && sessions[id].phase != Running)
              && (r == Requested <==> id != "" && id in sessions && sessions[id].phase == Running)
              && (r == Requested ==> sessions[id].cancelled)
              && forall session | session in all ::
                   session.Snapshot() == if r == Requested && session == sessions[id] then
                                           old(session.Snapshot()).(cancelled := true)
                                         else old(session.Snapshot())
    {
      hide TrimSpace;
      assert CancelAll(Value(), {}).cells == Value().cells;
      var id := TrimSpace(rawId);
      if id == "" {
        return InvalidId;
      }
      if id !in sessions {
        return NotFound;
      }
      EntryIsCell(id);
      var session := sessions[id];
      if Terminal(session.phase) {
        return AlreadyOver;
      }
      session.cancelled := true;
      r := Requested;
      assert Value().cells == CancelAll(old(Value()), {session.handle}).cells;
    }

    /** The cleanup of one session. */
    method Visit(id: string, session: SessionState, now: Time) returns (removed: nat)
      requires Valid() && id in sessions && sessions[id] == session
      modifies this`sessions, session`phase
      ensures Valid()
      ensures forall other | other in old(sessions) && other != id :: other in sessions
      ensures Value() == Visited(config, old(Value()), now, id)
      ensures removed == if Stale(config, old(Value()).cells[old(Value()).ids[id]], now) then 1 else 0
    {
      EntryIsCell(id);
      ghost var t := Value();
      if !Terminal(session.phase) || session.phase == Expired {
        return 0;
      }
      if now - session.updatedAt > config.ttl {
        session.phase := Expired;
        sessions := sessions - {id};
        removed := 1;
        assert Value().ids == t.ids - {id};
        assert Value().cells == t.cells[session.handle := t.cells[session.handle].(phase := Expired)];
      } else {
        removed := 0;
      }
    }

    /** The same, as one more step of a sweep. */
    method VisitNext(id: string, session: SessionState, now: Time, ghost before: Table, ghost seen: set<string>)
      returns (removed: nat)
      requires Valid() && id in sessions && sessions[id] == session
      requires WellFormed(before) && id in before.ids && id !in seen && Value() == Sweep(config, before, now, seen)
      modifies this`sessions, session`phase
      ensures Valid() && forall other | other in old(sessions) && other != id :: other in sessions
      ensures Value() == Sweep(config, before, now, seen + {id})
      ensures |StaleIds(config, before, now) * (seen + {id})| == |StaleIds(config, before, now) * seen| + removed
    {
      hide *;
      SweepStep(config, before, now, seen, id);
      removed := Visit(id, session, now);
    }

    /** Whether this session has been over for longer than the time to live. */
    ghost predicate Outlived(session: SessionState, now: Time)
      reads session
    {
      session.phase in {Interrupted, Completed, Failed} && now - session.updatedAt > config.ttl
    }

    ghost predicate InTable(session: SessionState)
      reads this
    {
      exists id :: id in sessions && sessions[id] == session
    }

    lemma StaleIsOutlived(now: Time)
      requires Valid()
      ensures StaleIds(config, Value(), now) == set id | id in sessions && Outlived(sessions[id], now)
    {
      forall id | id in sessions
        ensures id in StaleIds(config, Value(), now) <==> Outlived(sessions[id], now)
      {
        EntryIsCell(id);
      }
    }

    /** `ids` says where in `all` the sessions of `entries` are. */
    ghost predicate Indexes(ids: map<string, nat>, entries: map<string, SessionState>)
      reads this`all
    {
      && ids.Keys == entries.Keys
      && forall id | id in entries :: ids[id] < |all| && all[ids[id]] == entries[id]
    }

    lemma TableIndexes()
      requires Valid()
      ensures Indexes(Value().ids, sessions)
    {
    }

    lemma TheRestStays(ids: map<string, nat>, entries: map<string, SessionState>, gone: set<string>)
      requires Valid() && Indexes(ids, entries) && gone <= entries.Keys && Value().ids == ids - gone
      ensures sessions == entries - gone && |gone| == |entries| - |sessions|
    {
      TableIndexes();
      forall id: string
        ensures id in sessions <==> id in entries && id !in gone
      {
        assert id in ids - gone <==> id in ids && id !in gone;
      }
      forall id | id in sessions
        ensures sessions[id] == entries[id]
      {
        assert Value().ids[id] == ids[id];
      }
      hide Valid, Value;
      MapWithout(entries, sessions, gone);
    }

    twostate lemma CleanupExpires(now: Time)
      requires old(Valid()) && Valid() && all == old(all) && Value() == Cleanup(config, old(Value()), now)
      ensures forall session | session in all ::
                session.Snapshot() == if old(InTable(session)) && old(Outlived(session, now)) then
                                        old(session.Snapshot()).(phase := Expired)
                                      else old(session.Snapshot())
    {
      forall session | session in all
        ensures session.Snapshot() == if old(InTable(session)) && old(Outlived(session, now)) then
                                        old(session.Snapshot()).(phase := Expired)
                                      else old(session.Snapshot())
      {
        var h := session.handle;
        assert Value().cells[h] == session.Snapshot() && old(Value()).cells[h] == old(session.Snapshot());
      }
    }

    /** The map is walked in an arbitrary order. */
    method SweepAll(now: Time) returns (removed: nat)
      requires Valid()
      modifies this`sessions, all
      ensures Valid()
      ensures Value() == Cleanup(config, old(Value()), now) && removed == |StaleIds(config, old(Value()), now)|
    {
      hide *;
      ghost var before := Value();
      TableIsWellFormed();
      ghost var seen: set<string> := {};
      SweepNothing(config, before, now);
      removed := 0;
      var rest := sessions.Keys;
      while rest != {}
        invariant Valid() && all == old(all) && (forall id | id in rest :: id in sessions && id in before.ids && id !in seen)
        invariant forall id | id in before.ids :: id in rest || id in seen
        invariant Value() == Sweep(config, before, now, seen)
        invariant removed == |StaleIds(config, before, now) * seen|
        decreases rest
      {
        ghost var _ := SomeElement(rest);
        var id :| id in rest;
        EntryIsCell(id);
        var one := VisitNext(id, sessions[id], now, before, seen);
        removed := removed + one;
        rest, seen := rest - {id}, seen + {id};
      }
      CountAll(config, before, now, seen);
    }

    method CleanupExpired(now: Time) returns (removed: nat)
      requires Valid()
      modifies this`sessions, all
      ensures Valid()
      ensures Value() == Cleanup(config, old(Value()), now) && removed == |StaleIds(config, old(Value()), now)|
      ensures sessions == map id | id in old(sessions) && !old(Outlived(sessions[id], now)) :: old(sessions)[id]
      ensures removed == |old(sessions)| - |sessions|
      ensures forall session | session in all ::
                session.Snapshot() == if old(InTable(session)) && old(Outlived(session, now)) then
                                        old(session.Snapshot()).(phase := Expired)
                                      else old(session.Snapshot())
    {
      hide *;
      ghost var before := Value();
      StaleIsOutlived(now);
      TableIndexes();
      TableIsWellFormed();
      removed := SweepAll(now);
      CleanupTakes(config, before, now);
      TheRestStays(before.ids, old(sessions), StaleIds(config, before, now));
      CleanupExpires(now);
    }

    /** The cancel functions that `Close` takes out of its lock section. */
    method Collect() returns (cancels: seq<SessionState>)
      requires Valid()
      ensures forall session | session in cancels :: session in all
      ensures (set session | session in cancels :: session.handle) == ToCancel(Value())
    {
      cancels := [];
      var rest := sessions.Keys;
      while rest != {}
        invariant rest <= sessions.Keys
        invariant forall session | session in cancels :: session in all && session.handle in ToCancel(Value())
        invariant forall id | id in ActiveIds(Value()) && id !in rest :: sessions[id] in cancels
        decreases rest
      {
        ghost var _ := SomeElement(rest);
        var id :| id in rest;
        rest := rest - {id};
        EntryIsCell(id);
        if !Terminal(sessions[id].phase) {
          assert id in ActiveIds(Value());
          cancels := cancels + [sessions[id]];
        }
      }
    }

    method CancelEach(cancels: seq<SessionState>)
      requires Valid() && forall session | session in cancels :: session in all
      modifies all
      ensures Valid() && Value() == CancelAll(old(Value()), set session | session in cancels :: session.handle)
    {
      ghost var before := Value();
      var i := 0;
      while i < |cancels|
        invariant 0 <= i <= |cancels| && Valid()
        invariant Value().ids == before.ids && |Value().cells| == |before.cells|
        invariant forall h | 0 <= h < |all| ::
                    Value().cells[h] == if all[h] in cancels[..i] then before.cells[h].(cancelled := true) else before.cells[h]
      {
        assert cancels[i] in cancels;
        cancels[i].cancelled := true;
        i := i + 1;
      }
      assert cancels[..i] == cancels;
      assert Value().cells == CancelAll(before, set session | session in cancels :: session.handle).cells;
    }

    /** `ToCancel` in terms of the session objects. */
    lemma RunningAreCancelled()
      requires Valid()
      ensures forall session | session in all ::
                session.handle in ToCancel(Value()) <==> InTable(session) && session.phase == Running
    {
      var t := Value();
      forall session | session in all
        ensures session.handle in ToCancel(t) <==> InTable(session) && session.phase == Running
      {
        assert t.cells[session.handle] == session.Snapshot();
        if session.handle in ToCancel(t) {
          var id :| id in ActiveIds(t) && t.ids[id] == session.handle;
          assert sessions[id] == session;
        }
        if InTable(session) && session.phase == Running {
          assert session.id in ActiveIds(t);
        }
      }
    }

    twostate lemma CloseCancels(hs: set<nat>)
      requires old(Valid()) && Valid() && all == old(all) && Value() == CancelAll(old(Value()), hs).(closed := true)
      ensures forall session | session in all ::
                session.Snapshot() == if session.handle in hs then old(session.Snapshot()).(cancelled := true)
                                      else old(session.Snapshot())
    {
      var t := old(Value());
      forall session | session in all
        ensures session.Snapshot() == if session.handle in hs then old(session.Snapshot()).(cancelled := true)
                                      else old(session.Snapshot())
      {
        var h := session.handle;
        assert Value().cells[h] == session.Snapshot() && t.cells[h] == old(session.Snapshot());
      }
    }

    method Close()
      requires Valid()
      modifies this`closed, all
      ensures Valid()
      ensures var t := old(Value());
              Value() == if t.closed then t else CancelAll(t, ToCancel(t)).(closed := true)
      ensures closed
      ensures forall session | session in all ::
                session.Snapshot() == if !old(closed) && old(InTable(session)) && old(session.phase) == Running then
                                        old(session.Snapshot()).(cancelled := true)
                                      else old(session.Snapshot())
    {
      hide Terminal, CancelAll, ToCancel, ActiveIds;
      if closed {
        return;
      }
      RunningAreCancelled();
      closed := true;
      assert Value() == old(Value()).(closed := true) by {
        assert Value().cells == old(Value()).cells;
      }
      ClosedIsApart(old(Value()));
      var cancels := Collect();
      assert forall session | session in cancels :: session in old(all);
      CancelEach(cancels);
      CloseCancels(ToCancel(old(Value())));
    }

    method FinishSession(session: SessionState, final: Phase, err: string, now: Time)
      requires Valid() && session.handle < |all| && all[session.handle] == session
      modifies session`phase, session`updatedAt, session`err
      ensures Valid() && Value() == Finish(old(Value()), session.handle, final, err, now)
      ensures session.Snapshot() == if old(session.phase) == Running then Cell(session.id, final, now, err, session.cancelled)
                                    else old(session.Snapshot())
    {
      if Terminal(session.phase) {
        return;
      }
      session.phase := final;
      session.updatedAt := now;
      session.err := err;
      assert Value().cells == Finish(old(Value()), session.handle, final, err, now).cells;
    }
  }
}
