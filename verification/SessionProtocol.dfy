/** Sessions under concurrency: callers of the manager, one goroutine per session, the consumers of its event channel and the
    contexts, interleaved at the grain of lock sections, channel operations and context checks. */
module SessionProtocol {
  import opened Clock
  import opened Collections
  import opened RateLimit
  import opened Session
  import opened Text

  /** One event of a model stream. Delta events carry the rest of it along. */
  datatype Chunk = Chunk(text: string, tool: Option<string>, error: Option<string>, rest: string)

  /** What the model does for one session as long as nobody cancels it. */
  datatype Model = Model(refusal: Option<string>, chunks: seq<Chunk>)

  datatype Event = StartedEvent | TextDelta(chunk: Chunk) | ToolDelta(chunk: Chunk)
                 | FinishedEvent | InterruptedEvent | FailedEvent(error: string)

  /** Where the goroutine of a session stands. */
  datatype Pc =
    | Starting
    | Calling
    | Receiving
    | Texting(chunk: Chunk)
    | Tooling(chunk: Chunk)
    | Checking
    | Ending(final: Phase, error: string)
    | Finishing(final: Phase, error: string)
    | ClosingChannel(final: Phase, error: string)
    | Done(final: Phase, error: string)

  /** A goroutine and its event channel: everything sent so far, and how much of it the consumer has received. */
  datatype Routine = Routine(model: Model, pc: Pc, pos: nat, sent: seq<Event>, received: nat, closed: bool)

  /** What may happen next to a goroutine where it has a choice. */
  datatype Choice = Deliver | Abandon | Opens | Refuses(error: string) | Next | Breaks(error: string) | Ends | Proceed

  datatype Params = Params(config: Session.Config, capacity: nat)

  /** `interrupts` and `closing` are the cancel functions still to be called by `Interrupt` and by the `Close` that found the
      manager open. */
  datatype State = State(table: Table, routines: seq<Routine>, interrupts: multiset<nat>, closing: set<nat>,
                         firstCloseReturned: bool, laterCloseReturned: bool)

  datatype Action =
    | StartCall(rawId: string, contextDone: bool, now: Time, model: Model)
    | InterruptCall(rawId: string)
    | InterruptCancels(h: nat)
    | CleanupCall(now: Time)
    | CloseCall
    | CloseCancels(h: nat)
    | CloseReturns
    | CallerCancels(h: nat)
    | Consume(h: nat)
    | Go(h: nat, choice: Choice, now: Time)

  // ---- The goroutine ----

  function TerminalEvent(final: Phase, error: string): Event {
    match final
    case Completed => FinishedEvent
    case Failed => FailedEvent(error)
    case _ => InterruptedEvent
  }

  /** A cancelled context may make the model refuse, break off or end early; otherwise it keeps to its script. */
  predicate CanMove(p: Params, r: Routine, cancelled: bool, choice: Choice) {
    var room := |r.sent| - r.received < p.capacity;
    match r.pc
    case Starting => (choice == Deliver && room) || (choice == Abandon && cancelled)
    case Calling =>
      (choice == Opens && r.model.refusal.None?) || (choice.Refuses? && (cancelled || r.model.refusal == Some(choice.error)))
    case Receiving =>
      || (choice == Next && r.pos < |r.model.chunks|)
      || (choice.Breaks? && cancelled)
      || (choice == Ends && (cancelled || r.pos == |r.model.chunks|))
    case Texting(_) => (choice == Deliver && room) || (choice == Abandon && cancelled)
    case Tooling(_) => (choice == Deliver && room) || (choice == Abandon && cancelled)
    case Checking => choice == Proceed
    case Ending(_, _) => choice == Deliver && room
    case Finishing(_, _) => choice == Proceed
    case ClosingChannel(_, _) => choice == Proceed
    case Done(_, _) => false
  }

  /** The loop body after an event has arrived, from its text on or from its tool call on. */
  function Handle(chunk: Chunk): Pc {
    if chunk.error.Some? then Ending(Failed, chunk.error.value)
    else if chunk.text != "" then Texting(chunk)
    else HandleTool(chunk)
  }

  function HandleTool(chunk: Chunk): Pc {
    if chunk.tool.Some? then Tooling(chunk) else Receiving
  }

  function Move(p: Params, r: Routine, cancelled: bool, choice: Choice): Routine
    requires CanMove(p, r, cancelled, choice)
  {
    match r.pc
    case Starting =>
      if choice == Deliver then r.(sent := r.sent + [StartedEvent], pc := Calling) else r.(pc := Finishing(Interrupted, ""))
    case Calling =>
      if choice == Opens then r.(pc := Receiving)
      else if cancelled then r.(pc := Ending(Interrupted, ""))
      else r.(pc := Ending(Failed, choice.error))
    case Receiving =>
      if choice == Next then r.(pc := Handle(r.model.chunks[r.pos]), pos := r.pos + 1)
      else if choice == Ends then r.(pc := Checking)
      else r.(pc := Ending(Failed, choice.error))
    case Texting(chunk) =>
      if choice == Deliver then r.(sent := r.sent + [TextDelta(chunk)], pc := HandleTool(chunk))
      else r.(pc := Finishing(Interrupted, ""))
    case Tooling(chunk) =>
      if choice == Deliver then r.(sent := r.sent + [ToolDelta(chunk)], pc := Receiving)
      else r.(pc := Finishing(Interrupted, ""))
    case Checking => r.(pc := Ending(if cancelled then Interrupted else Completed, ""))
    case Ending(final, error) => r.(sent := r.sent + [TerminalEvent(final, error)], pc := Finishing(final, error))
    case Finishing(final, error) => r.(pc := ClosingChannel(final, error))
    case ClosingChannel(final, error) => r.(pc := Done(final, error), closed := true)
  }

  // ---- All steps ----

  ghost predicate Enabled(p: Params, s: State, a: Action) {
    match a
    case StartCall(_, _, _, _) => true
    case InterruptCall(_) => true
    case InterruptCancels(h) => h in s.interrupts
    case CleanupCall(_) => true
    case CloseCall => true
    case CloseCancels(h) => h in s.closing
    case CloseReturns => s.table.closed && s.closing == {}
    case CallerCancels(h) => h < |s.table.cells|
    case Consume(h) => h < |s.routines| && s.routines[h].received < |s.routines[h].sent|
    case Go(h, choice, _) =>
      h < |s.routines| && h < |s.table.cells| && CanMove(p, s.routines[h], s.table.cells[h].cancelled, choice)
  }

  ghost function Step(p: Params, s: State, a: Action): State
    requires Enabled(p, s, a)
  {
    match a
    case StartCall(rawId, contextDone, now, model) =>
      var (table, result) := Start(p.config, s.table, rawId, contextDone, now);
      if result.Started? then s.(table := table, routines := s.routines + [Routine(model, Starting, 0, [], 0, false)]) else s
    case InterruptCall(rawId) =>
      var (_, target) := Interrupt(s.table, rawId);
      if target.Some? then s.(interrupts := s.interrupts + multiset{target.value}) else s
    case InterruptCancels(h) => s.(table := CancelAll(s.table, {h}), interrupts := s.interrupts - multiset{h})
    case CleanupCall(now) => s.(table := Cleanup(p.config, s.table, now))
    case CloseCall =>
      if s.table.closed then s.(laterCloseReturned := true)
      else s.(table := s.table.(closed := true), closing := ToCancel(s.table))
    case CloseCancels(h) => s.(table := CancelAll(s.table, {h}), closing := s.closing - {h})
    case CloseReturns => s.(firstCloseReturned := true)
    case CallerCancels(h) => s.(table := CancelAll(s.table, {h}))
    case Consume(h) => s.(routines := s.routines[h := s.routines[h].(received := s.routines[h].received + 1)])
    case Go(h, choice, now) =>
      var r := s.routines[h];
      var s' := s.(routines := s.routines[h := Move(p, r, s.table.cells[h].cancelled, choice)]);
      if r.pc.Finishing? then s'.(table := Finish(s.table, h, r.pc.final, r.pc.error, now)) else s'
  }

  const INITIAL := State(Table(false, map[], []), [], multiset{}, {}, false, false)

  /** An interleaving: `states[k + 1]` follows from `states[k]` by `actions[k]`. */
  ghost predicate Run(p: Params, states: seq<State>, actions: seq<Action>) {
    && |states| == |actions| + 1
    && states[0] == INITIAL
    && forall k | 0 <= k < |actions| :: Enabled(p, states[k], actions[k]) && states[k + 1] == Step(p, states[k], actions[k])
  }

  // ---- What a session's consumer may see ----

  /** The delta events a stretch of the model stream stands for. */
  function Deltas(chunks: seq<Chunk>): seq<Event> {
    if chunks == [] then []
    else Deltas(chunks[..|chunks| - 1]) + TextPart(chunks[|chunks| - 1]) + ToolPart(chunks[|chunks| - 1])
  }

  function TextPart(chunk: Chunk): seq<Event> {
    if chunk.text != "" then [TextDelta(chunk)] else []
  }

  function ToolPart(chunk: Chunk): seq<Event> {
    if chunk.tool.Some? then [ToolDelta(chunk)] else []
  }

  /** No error among the first `k`. */
  predicate Clean(chunks: seq<Chunk>, k: nat)
    requires k <= |chunks|
  {
    forall i | 0 <= i < k :: chunks[i].error.None?
  }

  /** The length of the model stream up to its first error. */
  function Sound(chunks: seq<Chunk>): (k: nat)
    ensures k <= |chunks| && Clean(chunks, k)
    ensures k < |chunks| ==> chunks[k].error.Some?
  {
    if chunks == [] || chunks[0].error.Some? then 0 else Sound(chunks[1..]) + 1
  }

  /** What is sent for the first `k` events of the stream. */
  function Sent(m: Model, k: nat): seq<Event>
    requires k <= |m.chunks|
  {
    [StartedEvent] + Deltas(m.chunks[..k])
  }

  /** Everything a session could send before its terminal event. */
  function Script(m: Model): seq<Event> {
    Sent(m, Sound(m.chunks))
  }

  /** What has been sent before the terminal event, for each way to end. */
  ghost predicate Body(m: Model, final: Phase, error: string, cancelled: bool, body: seq<Event>) {
    match final
    case Completed => error == "" && m.refusal.None? && Clean(m.chunks, |m.chunks|) && body == Script(m)
    case Interrupted => error == "" && cancelled && body <= Script(m)
    case Failed =>
      || (m.refusal == Some(error) && body == [StartedEvent])
      || (m.refusal.None? && Sound(m.chunks) < |m.chunks| && m.chunks[Sound(m.chunks)].error == Some(error) && body == Script(m))
      || (cancelled && body <= Script(m))
    case _ => false
  }

  /** The whole trace of a session that ended: a body and its terminal event, unless an interrupt cut a delivery short. */
  ghost predicate Trace(m: Model, final: Phase, error: string, cancelled: bool, sent: seq<Event>) {
    || (|sent| > 1 && sent[|sent| - 1] == TerminalEvent(final, error) && Body(m, final, error, cancelled, sent[..|sent| - 1]))
    || (final == Interrupted && Body(m, final, error, cancelled, sent))
  }

  // ---- The invariant of one goroutine ----

  ghost predicate RoutineInv(r: Routine, cancelled: bool) {
    && r.pos <= |r.model.chunks| && r.received <= |r.sent| && (r.closed <==> r.pc.Done?)
    && match r.pc
       case Starting => r.pos == 0 && r.sent == []
       case Calling => r.pos == 0 && r.sent == [StartedEvent]
       case Receiving => r.model.refusal.None? && Clean(r.model.chunks, r.pos) && r.sent == Sent(r.model, r.pos)
       case Texting(chunk) => Midway(r, chunk) && chunk.text != "" && r.sent == Sent(r.model, r.pos - 1)
       case Tooling(chunk) => Midway(r, chunk) && chunk.tool.Some? && r.sent == Sent(r.model, r.pos - 1) + TextPart(chunk)
       case Checking =>
         r.model.refusal.None? && Clean(r.model.chunks, r.pos) && r.sent == Sent(r.model, r.pos) && (cancelled || r.pos == |r.model.chunks|)
       case Ending(final, error) => Terminal(final) && r.sent != [] && Body(r.model, final, error, cancelled, r.sent)
       case Finishing(final, error) => Terminal(final) && Trace(r.model, final, error, cancelled, r.sent)
       case ClosingChannel(final, error) => Terminal(final) && Trace(r.model, final, error, cancelled, r.sent)
       case Done(final, error) => Terminal(final) && Trace(r.model, final, error, cancelled, r.sent)
  }

  /** In the middle of handling the last event received. */
  ghost predicate Midway(r: Routine, chunk: Chunk) {
    r.model.refusal.None? && 0 < r.pos <= |r.model.chunks| && chunk == r.model.chunks[r.pos - 1] && Clean(r.model.chunks, r.pos)
  }

  lemma {:induction false} DeltasPrefix(chunks: seq<Chunk>, k: nat)
    requires k <= |chunks|
    ensures Deltas(chunks[..k]) <= Deltas(chunks)
  {
    if k == |chunks| {
      assert chunks[..k] == chunks;
    } else {
      var front := chunks[..|chunks| - 1];
      DeltasPrefix(front, k);
      assert front[..k] == chunks[..k];
    }
  }

  lemma DeltasEnd(chunks: seq<Chunk>)
    requires chunks != []
    ensures Deltas(chunks) == Deltas(chunks[..|chunks| - 1]) + (TextPart(chunks[|chunks| - 1]) + ToolPart(chunks[|chunks| - 1]))
  {
  }

  lemma JoinedEnds<T>(a: seq<T>, b: seq<T>)
    requires b != []
    ensures (a + b)[..|a + b| - 1] == a + b[..|b| - 1] && (a + b)[|a + b| - 1] == b[|b| - 1]
  {
  }

  lemma NoDeltas()
    ensures Deltas([]) == []
  {
  }

  lemma {:induction false} DeltasJoin(a: seq<Chunk>, b: seq<Chunk>)
    ensures Deltas(a + b) == Deltas(a) + Deltas(b)
    decreases |b|
  {
    hide *;
    NoDeltas();
    if b == [] {
      assert a + b == a;
    } else {
      DeltasJoin(a, b[..|b| - 1]);
      DeltasEnd(a + b);
      DeltasEnd(b);
      JoinedEnds(a, b);
    }
  }

  /** Each event of the stream stands, at its place, for its text, if it has any, and then its tool call, if it has one. */
  lemma DeltasAt(chunks: seq<Chunk>, i: nat)
    requires i < |chunks|
    ensures var chunk := chunks[i];
            Deltas(chunks) ==
              Deltas(chunks[..i])
              + (if |chunk.text| > 0 then [TextDelta(chunk)] else [])
              + (if chunk.tool == None then [] else [ToolDelta(chunk)])
              + Deltas(chunks[i + 1..])
  {
    assert chunks[..i + 1] + chunks[i + 1..] == chunks;
    DeltasJoin(chunks[..i + 1], chunks[i + 1..]);
    assert chunks[..i + 1][..i] == chunks[..i];
  }

  /** A clean beginning of the stream belongs to its sound part, so what it stands for belongs to the script. */
  lemma CleanIsScript(m: Model, k: nat)
    requires k <= |m.chunks| && Clean(m.chunks, k)
    ensures k <= Sound(m.chunks) && Sent(m, k) <= Script(m)
    ensures k == |m.chunks| || m.chunks[k].error.Some? ==> Sound(m.chunks) == k
  {
    var sound := m.chunks[..Sound(m.chunks)];
    DeltasPrefix(sound, k);
    assert sound[..k] == m.chunks[..k];
  }

  lemma SentNext(m: Model, k: nat)
    requires k < |m.chunks|
    ensures Sent(m, k + 1) == Sent(m, k) + TextPart(m.chunks[k]) + ToolPart(m.chunks[k])
  {
    assert m.chunks[..k + 1][..k] == m.chunks[..k];
  }

  predicate Early(pc: Pc) {
    pc.Starting? || pc.Calling? || pc.Receiving? || pc.Texting? || pc.Tooling? || pc.Checking?
  }

  /** Until its goroutine ends, a session has sent a beginning of its script. */
  lemma EarlyIsScript(r: Routine, cancelled: bool)
    requires RoutineInv(r, cancelled) && Early(r.pc)
    ensures r.sent <= Script(r.model)
  {
    hide Clean, Deltas, Sound;
    if r.pc.Receiving? || r.pc.Checking? {
      CleanIsScript(r.model, r.pos);
    } else if r.pc.Texting? || r.pc.Tooling? {
      CleanIsScript(r.model, r.pos);
      SentNext(r.model, r.pos - 1);
    }
  }

  /** A session that is cancelled short of its end has sent a beginning of its script, however it ends then. */
  lemma CutShort(m: Model, error: string, sent: seq<Event>)
    requires sent <= Script(m)
    ensures Body(m, Interrupted, "", true, sent) && Trace(m, Interrupted, "", true, sent)
    ensures Body(m, Failed, error, true, sent)
  {
    hide Script;
  }

  lemma BreakKeepsInv(p: Params, r: Routine, cancelled: bool, choice: Choice)
    requires RoutineInv(r, cancelled) && Early(r.pc) && CanMove(p, r, cancelled, choice) && cancelled
    requires choice == Abandon || choice.Refuses? || choice.Breaks? || r.pc.Checking?
    ensures RoutineInv(Move(p, r, cancelled, choice), cancelled)
  {
    EarlyIsScript(r, cancelled);
    CutShort(r.model, if choice.Breaks? then choice.error else "", r.sent);
    if !r.pc.Starting? {
      SomeIsSent(r, cancelled);
    }
    hide Script, Sent, Clean, Sound, Body, Trace, RoutineInv;
    BrokenRoutine(p, r, choice);
  }

  lemma SomeIsSent(r: Routine, cancelled: bool)
    requires RoutineInv(r, cancelled) && Early(r.pc) && !r.pc.Starting?
    ensures r.sent != []
  {
    hide Deltas, Clean;
  }

  lemma BrokenRoutine(p: Params, r: Routine, choice: Choice)
    requires RoutineInv(r, true) && Early(r.pc) && CanMove(p, r, true, choice)
    requires choice == Abandon || choice.Refuses? || choice.Breaks? || r.pc.Checking?
    requires r.pc.Starting? || r.sent != []
    requires Body(r.model, Interrupted, "", true, r.sent) && Trace(r.model, Interrupted, "", true, r.sent)
    requires choice.Breaks? ==> Body(r.model, Failed, choice.error, true, r.sent)
    ensures RoutineInv(Move(p, r, true, choice), true)
  {
    hide Body, Trace, Sent, Clean, Midway;
  }

  lemma CleanNext(chunks: seq<Chunk>, k: nat)
    requires k < |chunks| && Clean(chunks, k) && chunks[k].error.None?
    ensures Clean(chunks, k + 1)
  {
  }

  /** The first error of the stream: everything before it has been sent. */
  lemma FirstErrorFails(m: Model, k: nat, cancelled: bool)
    requires m.refusal.None? && k < |m.chunks| && Clean(m.chunks, k) && m.chunks[k].error.Some?
    ensures Body(m, Failed, m.chunks[k].error.value, cancelled, Sent(m, k))
  {
    CleanIsScript(m, k);
    hide Sent, Sound;
  }

  lemma WholeStreamCompletes(m: Model, cancelled: bool)
    requires m.refusal.None? && Clean(m.chunks, |m.chunks|)
    ensures Body(m, Completed, "", cancelled, Sent(m, |m.chunks|))
  {
    CleanIsScript(m, |m.chunks|);
    hide Sent, Sound;
  }

  lemma SomethingSent(m: Model, k: nat)
    requires k <= |m.chunks|
    ensures Sent(m, k) != []
  {
  }

  lemma NextKeepsInv(p: Params, r: Routine, cancelled: bool)
    requires RoutineInv(r, cancelled) && r.pc.Receiving? && CanMove(p, r, cancelled, Next)
    ensures RoutineInv(Move(p, r, cancelled, Next), cancelled)
  {
    if r.model.chunks[r.pos].error.Some? {
      NextIsError(p, r, cancelled);
    } else {
      NextIsSound(p, r, cancelled);
    }
    hide *;
  }

  lemma NextIsError(p: Params, r: Routine, cancelled: bool)
    requires RoutineInv(r, cancelled) && r.pc.Receiving? && CanMove(p, r, cancelled, Next)
    requires r.model.chunks[r.pos].error.Some?
    ensures RoutineInv(Move(p, r, cancelled, Next), cancelled)
  {
    hide Sent, Sound, Body, Trace, Clean;
    SomethingSent(r.model, r.pos);
    FirstErrorFails(r.model, r.pos, cancelled);
  }

  lemma NextIsSound(p: Params, r: Routine, cancelled: bool)
    requires RoutineInv(r, cancelled) && r.pc.Receiving? && CanMove(p, r, cancelled, Next)
    requires r.model.chunks[r.pos].error.None?
    ensures RoutineInv(Move(p, r, cancelled, Next), cancelled)
  {
    hide Sent, Sound, Body, Trace, Clean, Script;
    SentNext(r.model, r.pos);
    CleanNext(r.model.chunks, r.pos);
  }

  lemma StartedKeepsInv(p: Params, r: Routine, cancelled: bool)
    requires RoutineInv(r, cancelled) && r.pc.Starting? && CanMove(p, r, cancelled, Deliver)
    ensures RoutineInv(Move(p, r, cancelled, Deliver), cancelled)
  {
    hide Sent, Body, Trace, Clean;
    assert [] + [StartedEvent] == [StartedEvent];
  }

  lemma TextKeepsInv(p: Params, r: Routine, cancelled: bool)
    requires RoutineInv(r, cancelled) && r.pc.Texting? && CanMove(p, r, cancelled, Deliver)
    ensures RoutineInv(Move(p, r, cancelled, Deliver), cancelled)
  {
    hide Sent, Body, Trace, Clean;
    SentNext(r.model, r.pos - 1);
    var sent := r.sent + [TextDelta(r.pc.chunk)];
    assert r.sent + TextPart(r.pc.chunk) == sent && sent + [] == sent;
    hide TextPart;
  }

  lemma ToolKeepsInv(p: Params, r: Routine, cancelled: bool)
    requires RoutineInv(r, cancelled) && r.pc.Tooling? && CanMove(p, r, cancelled, Deliver)
    ensures RoutineInv(Move(p, r, cancelled, Deliver), cancelled)
  {
    hide Sent, Body, Trace, Clean;
    SentNext(r.model, r.pos - 1);
  }

  lemma DeliverKeepsInv(p: Params, r: Routine, cancelled: bool)
    requires RoutineInv(r, cancelled) && Early(r.pc) && CanMove(p, r, cancelled, Deliver)
    ensures RoutineInv(Move(p, r, cancelled, Deliver), cancelled)
  {
    hide RoutineInv, Move;
    if r.pc.Starting? {
      StartedKeepsInv(p, r, cancelled);
    } else if r.pc.Texting? {
      TextKeepsInv(p, r, cancelled);
    } else {
      ToolKeepsInv(p, r, cancelled);
    }
  }

  lemma TerminalKeepsInv(p: Params, r: Routine, cancelled: bool)
    requires RoutineInv(r, cancelled) && r.pc.Ending? && CanMove(p, r, cancelled, Deliver)
    ensures RoutineInv(Move(p, r, cancelled, Deliver), cancelled)
  {
    hide Body;
    var r' := Move(p, r, cancelled, Deliver);
    assert r'.sent[..|r'.sent| - 1] == r.sent;
  }

  lemma CompletionKeepsInv(p: Params, r: Routine)
    requires RoutineInv(r, false) && r.pc.Checking?
    ensures RoutineInv(Move(p, r, false, Proceed), false)
  {
    hide Sent, Sound, Body, Trace, Clean, Midway;
    assert r.pos == |r.model.chunks|;
    SomethingSent(r.model, r.pos);
    WholeStreamCompletes(r.model, false);
    assert Move(p, r, false, Proceed) == r.(pc := Ending(Completed, ""));
    hide Move;
  }

  /** Every step of a goroutine keeps its invariant. */
  lemma MoveKeepsInv(p: Params, r: Routine, cancelled: bool, choice: Choice)
    requires RoutineInv(r, cancelled) && CanMove(p, r, cancelled, choice)
    ensures RoutineInv(Move(p, r, cancelled, choice), cancelled)
  {
    hide RoutineInv, Move;
    if Early(r.pc) {
      if cancelled && (choice == Abandon || choice.Refuses? || choice.Breaks? || r.pc.Checking?) {
        BreakKeepsInv(p, r, cancelled, choice);
      } else if choice == Deliver {
        DeliverKeepsInv(p, r, cancelled);
      } else if choice == Next {
        NextKeepsInv(p, r, cancelled);
      } else if r.pc.Checking? {
        CompletionKeepsInv(p, r);
      } else {
        CallKeepsInv(p, r, cancelled, choice);
      }
    } else if r.pc.Ending? {
      TerminalKeepsInv(p, r, cancelled);
    } else {
      LateKeepsInv(p, r, cancelled, choice);
    }
  }

  /** The model answers the call, or its stream ends as it should. */
  lemma CallKeepsInv(p: Params, r: Routine, cancelled: bool, choice: Choice)
    requires RoutineInv(r, cancelled) && CanMove(p, r, cancelled, choice) && (r.pc.Calling? || r.pc.Receiving?)
    requires choice == Opens || choice == Ends || (choice.Refuses? && !cancelled)
    ensures RoutineInv(Move(p, r, cancelled, choice), cancelled)
  {
    hide Sound, Trace, Script;
  }

  lemma LateKeepsInv(p: Params, r: Routine, cancelled: bool, choice: Choice)
    requires RoutineInv(r, cancelled) && CanMove(p, r, cancelled, choice) && (r.pc.Finishing? || r.pc.ClosingChannel?)
    ensures RoutineInv(Move(p, r, cancelled, choice), cancelled)
  {
    hide Trace;
  }

  // ---- The invariant of the whole ----

  /** No running session is out of the table, nothing expired is in it, and the running ones fit the limit. */
  ghost predicate TableInv(c: Session.Config, t: Table) {
    && WellFormed(t)
    && (forall h | 0 <= h < |t.cells| && t.cells[h].phase == Running :: Holds(t, h))
    && (forall id | id in t.ids :: t.cells[t.ids[id]].phase != Expired)
    && (c.limit > 0 ==> |ActiveIds(t)| <= c.limit)
  }

  /** The state of a session is final exactly when its goroutine has finished, and is then the goroutine's verdict. */
  predicate Agree(r: Routine, cell: Cell) {
    if r.pc.ClosingChannel? || r.pc.Done? then
      (cell.phase == r.pc.final || cell.phase == Expired) && cell.err == r.pc.error
    else cell.phase == Running
  }

  ghost predicate SessionInv(r: Routine, cell: Cell) {
    RoutineInv(r, cell.cancelled) && Agree(r, cell)
  }

  ghost predicate CloseInv(s: State) {
    && (forall h | h in s.interrupts :: h < |s.table.cells|)
    && (forall h | h in s.closing :: h < |s.table.cells|)
    && (s.firstCloseReturned ==> s.table.closed && s.closing == {})
    && (s.laterCloseReturned ==> s.table.closed)
    && if s.table.closed then
         forall h | 0 <= h < |s.table.cells| && s.table.cells[h].phase == Running ::
           s.table.cells[h].cancelled || h in s.closing
       else s.closing == {}
  }

  ghost predicate Inv(p: Params, s: State) {
    && |s.routines| == |s.table.cells|
    && TableInv(p.config, s.table)
    && (forall h | 0 <= h < |s.routines| :: SessionInv(s.routines[h], s.table.cells[h]))
    && CloseInv(s)
  }

  lemma CancelKeepsRoutine(r: Routine)
    requires RoutineInv(r, false)
    ensures RoutineInv(r, true)
  {
  }

  function Store(t: Table, id: string, now: Time): Table {
    Table(t.closed, t.ids[id := |t.cells|], t.cells + [Cell(id, Running, now, "", false)])
  }

  lemma StoreActive(t: Table, id: string, now: Time, other: string)
    requires WellFormed(t) && id !in t.ids
    ensures other in ActiveIds(Store(t, id, now)) <==> other == id || other in ActiveIds(t)
  {
    var t' := Store(t, id, now);
    if other in t.ids {
      assert t'.cells[t.ids[other]] == t.cells[t.ids[other]];
    }
  }

  lemma StoreCounts(t: Table, id: string, now: Time)
    requires WellFormed(t) && id !in t.ids
    ensures |ActiveIds(Store(t, id, now))| == |ActiveIds(t)| + 1
  {
    assert id !in ActiveIds(t);
    forall other
      ensures other in ActiveIds(Store(t, id, now)) <==> other == id || other in ActiveIds(t)
    {
      StoreActive(t, id, now, other);
    }
    hide ActiveIds, Store, WellFormed;
    assert ActiveIds(Store(t, id, now)) == ActiveIds(t) + {id};
  }

  /** A new session takes nobody's place. */
  lemma StoreKeepsTable(c: Session.Config, t: Table, id: string, now: Time)
    requires TableInv(c, t) && id !in t.ids && (c.limit > 0 ==> |ActiveIds(t)| < c.limit)
    ensures TableInv(c, Store(t, id, now))
  {
    StoreCounts(t, id, now);
    hide ActiveIds;
    var t' := Store(t, id, now);
    forall h | 0 <= h < |t'.cells| && t'.cells[h].phase == Running
      ensures Holds(t', h)
    {
      assert h < |t.cells| ==> Holds(t, h);
    }
    assert WellFormed(t');
  }

  lemma StartKeepsTable(c: Session.Config, t: Table, rawId: string, contextDone: bool, now: Time)
    requires TableInv(c, t)
    ensures var (t', result) := Start(c, t, rawId, contextDone, now);
            && TableInv(c, t')
            && t'.closed == t.closed
            && if result.Started? then !t.closed && t'.cells == t.cells + [Cell(result.sessionId, Running, now, "", false)]
               else t' == t
  {
    var id := TrimSpace(rawId);
    hide TrimSpace, ActiveIds;
    if Start(c, t, rawId, contextDone, now).1.Started? {
      assert id !in t.ids;
      StoreKeepsTable(c, t, id, now);
    }
    hide TableInv;
  }

  lemma CleanupKeepsTable(c: Session.Config, t: Table, now: Time)
    requires TableInv(c, t)
    ensures TableInv(c, Cleanup(c, t, now))
    ensures |Cleanup(c, t, now).cells| == |t.cells|
    ensures forall h | 0 <= h < |t.cells| :: var t' := Cleanup(c, t, now);
              || t'.cells[h] == t.cells[h]
              || (Terminal(t.cells[h].phase) && Holds(t, h) && !Holds(t', h) && t'.cells[h] == t.cells[h].(phase := Expired))
  {
    var t' := Cleanup(c, t, now);
    assert ActiveIds(t') == ActiveIds(t);
  }

  lemma CancelKeepsTable(c: Session.Config, t: Table, h: nat)
    requires TableInv(c, t)
    ensures TableInv(c, CancelAll(t, {h}))
  {
    assert ActiveIds(CancelAll(t, {h})) == ActiveIds(t);
  }

  lemma FinishKeepsTable(c: Session.Config, t: Table, h: nat, final: Phase, error: string, now: Time)
    requires TableInv(c, t) && Terminal(final) && final != Expired
    ensures TableInv(c, Finish(t, h, final, error, now))
  {
    var t' := Finish(t, h, final, error, now);
    assert ActiveIds(t') <= ActiveIds(t);
    SubsetSize(ActiveIds(t'), ActiveIds(t));
  }

  /** Every step keeps the invariant. */
  lemma StepKeepsInv(p: Params, s: State, a: Action)
    requires Inv(p, s) && Enabled(p, s, a)
    ensures Inv(p, Step(p, s, a))
  {
    hide TableInv, SessionInv, TrimSpace;
    match a
    case StartCall(rawId, contextDone, now, model) => StartKeepsInv(p, s, rawId, contextDone, now, model);
    case InterruptCall(rawId) => InterruptKeepsInv(p, s, rawId);
    case CleanupCall(now) => CleanupKeepsInv(p, s, now);
    case CloseCall => CloseKeepsInv(p, s);
    case Consume(h) => ConsumeKeepsInv(p, s, h);
    case Go(h, choice, now) => GoKeepsInv(p, s, h, choice, now);
    case InterruptCancels(h) => CancelKeepsInv(p, s, h, Step(p, s, a));
    case CallerCancels(h) => CancelKeepsInv(p, s, h, Step(p, s, a));
    case CloseCancels(h) => CancelKeepsInv(p, s, h, Step(p, s, a));
    case CloseReturns =>
  }

  lemma ConsumeKeepsInv(p: Params, s: State, h: nat)
    requires Inv(p, s) && Enabled(p, s, Consume(h))
    ensures Inv(p, Step(p, s, Consume(h)))
  {
    hide TableInv, Body, Trace, Clean, Sent;
    assert SessionInv(s.routines[h], s.table.cells[h]);
    assert SessionInv(s.routines[h].(received := s.routines[h].received + 1), s.table.cells[h]);
    hide SessionInv;
  }

  lemma FreshSession(model: Model, id: string, now: Time)
    ensures SessionInv(Routine(model, Starting, 0, [], 0, false), Cell(id, Running, now, "", false))
  {
  }

  lemma StartKeepsInv(p: Params, s: State, rawId: string, contextDone: bool, now: Time, model: Model)
    requires Inv(p, s)
    ensures Inv(p, Step(p, s, StartCall(rawId, contextDone, now, model)))
  {
    hide Start, TableInv, SessionInv;
    StartKeepsTable(p.config, s.table, rawId, contextDone, now);
    var (t', result) := Start(p.config, s.table, rawId, contextDone, now);
    if result.Started? {
      FreshSession(model, result.sessionId, now);
    }
  }

  lemma InterruptKeepsInv(p: Params, s: State, rawId: string)
    requires Inv(p, s)
    ensures Inv(p, Step(p, s, InterruptCall(rawId)))
  {
    hide TrimSpace, TableInv, SessionInv;
  }

  lemma CleanupKeepsInv(p: Params, s: State, now: Time)
    requires Inv(p, s)
    ensures Inv(p, Step(p, s, CleanupCall(now)))
  {
    CleanupKeepsTable(p.config, s.table, now);
    hide TableInv, Cleanup, RoutineInv;
  }

  lemma CloseKeepsInv(p: Params, s: State)
    requires Inv(p, s)
    ensures Inv(p, Step(p, s, CloseCall))
  {
    hide SessionInv;
    if !s.table.closed {
      assert ActiveIds(s.table.(closed := true)) == ActiveIds(s.table);
      forall h | 0 <= h < |s.table.cells| && s.table.cells[h].phase == Running
        ensures h in ToCancel(s.table)
      {
        assert s.table.cells[h].id in ActiveIds(s.table);
      }
    }
  }

  lemma CancelKeepsSessions(s: State, h: nat)
    requires |s.routines| == |s.table.cells| && h < |s.table.cells|
    requires forall i | 0 <= i < |s.routines| :: SessionInv(s.routines[i], s.table.cells[i])
    ensures forall i | 0 <= i < |s.routines| :: SessionInv(s.routines[i], CancelAll(s.table, {h}).cells[i])
  {
    assert SessionInv(s.routines[h], s.table.cells[h]);
    if !s.table.cells[h].cancelled {
      CancelKeepsRoutine(s.routines[h]);
    }
    hide RoutineInv;
  }

  lemma CancelKeepsClose(s: State, h: nat, s': State)
    requires CloseInv(s) && s'.table == CancelAll(s.table, {h}) && s'.firstCloseReturned == s.firstCloseReturned
    requires s'.laterCloseReturned == s.laterCloseReturned
    requires (forall i | i in s'.interrupts :: i in s.interrupts) && s'.closing <= s.closing && s.closing <= s'.closing + {h}
    ensures CloseInv(s')
  {
  }

  /** Whoever calls a cancel function, and whichever list it was on. */
  lemma CancelKeepsInv(p: Params, s: State, h: nat, s': State)
    requires Inv(p, s) && h < |s.table.cells| && s'.table == CancelAll(s.table, {h}) && s'.routines == s.routines
    requires s'.firstCloseReturned == s.firstCloseReturned && s'.laterCloseReturned == s.laterCloseReturned
    requires (forall i | i in s'.interrupts :: i in s.interrupts) && s'.closing <= s.closing && s.closing <= s'.closing + {h}
    ensures Inv(p, s')
  {
    CancelKeepsTable(p.config, s.table, h);
    CancelKeepsSessions(s, h);
    CancelKeepsClose(s, h, s');
    hide TableInv, SessionInv, CloseInv;
  }

  /** The goroutine's step seen on its own session only. */
  lemma GoKeepsSession(p: Params, r: Routine, cell: Cell, choice: Choice, now: Time)
    requires SessionInv(r, cell) && CanMove(p, r, cell.cancelled, choice)
    ensures SessionInv(Move(p, r, cell.cancelled, choice),
                       if r.pc.Finishing? then cell.(phase := r.pc.final, updatedAt := now, err := r.pc.error) else cell)
  {
    MoveKeepsInv(p, r, cell.cancelled, choice);
    hide RoutineInv;
  }

  lemma GoKeepsInv(p: Params, s: State, h: nat, choice: Choice, now: Time)
    requires Inv(p, s) && Enabled(p, s, Go(h, choice, now))
    ensures Inv(p, Step(p, s, Go(h, choice, now)))
  {
    hide TableInv, RoutineInv, Move, CanMove;
    var (r, cell) := (s.routines[h], s.table.cells[h]);
    assert SessionInv(r, cell);
    GoKeepsSession(p, r, cell, choice, now);
    if r.pc.Finishing? {
      VerdictIsPlain(r, cell.cancelled);
      FinishKeepsTable(p.config, s.table, h, r.pc.final, r.pc.error, now);
      assert cell.phase == Running;
    }
    hide SessionInv;
  }

  lemma VerdictIsPlain(r: Routine, cancelled: bool)
    requires RoutineInv(r, cancelled) && r.pc.Finishing?
    ensures Terminal(r.pc.final) && r.pc.final != Expired
  {
  }

  lemma {:induction false} RunKeepsInv(p: Params, states: seq<State>, actions: seq<Action>, k: nat)
    requires Run(p, states, actions) && k < |states|
    ensures Inv(p, states[k])
  {
    if k == 0 {
      assert ActiveIds(INITIAL.table) == {};
    } else {
      RunKeepsInv(p, states, actions, k - 1);
      StepKeepsInv(p, states[k - 1], actions[k - 1]);
    }
  }

  // ---- The event trace ----

  predicate IsDelta(e: Event) {
    e.TextDelta? || e.ToolDelta?
  }

  predicate IsTerminal(e: Event) {
    e.FinishedEvent? || e.InterruptedEvent? || e.FailedEvent?
  }

  /** Empty, or `started`, then deltas, then at most one terminal event. */
  predicate Shaped(sent: seq<Event>) {
    sent == []
    || (&& sent[0] == StartedEvent
        && (forall i | 0 < i < |sent| - 1 :: IsDelta(sent[i]))
        && (|sent| > 1 ==> IsDelta(sent[|sent| - 1]) || IsTerminal(sent[|sent| - 1])))
  }

  lemma {:induction false} DeltasAreDeltas(chunks: seq<Chunk>)
    ensures forall i | 0 <= i < |Deltas(chunks)| :: IsDelta(Deltas(chunks)[i])
  {
    if chunks != [] {
      DeltasAreDeltas(chunks[..|chunks| - 1]);
    }
  }

  lemma ScriptPrefixIsShaped(m: Model, body: seq<Event>)
    requires body <= Script(m)
    ensures Shaped(body) && (body != [] ==> !IsTerminal(body[|body| - 1]))
    ensures forall e | IsTerminal(e) && body != [] :: Shaped(body + [e])
  {
    DeltasAreDeltas(m.chunks[..Sound(m.chunks)]);
    assert forall i | 0 < i < |body| :: body[i] == Deltas(m.chunks[..Sound(m.chunks)])[i - 1];
  }

  lemma BodyIsScript(m: Model, final: Phase, error: string, cancelled: bool, body: seq<Event>)
    requires Body(m, final, error, cancelled, body)
    ensures body <= Script(m)
  {
    if body == [StartedEvent] {
      assert body <= Script(m);
    }
  }

  lemma TraceIsShaped(m: Model, final: Phase, error: string, cancelled: bool, sent: seq<Event>)
    requires Trace(m, final, error, cancelled, sent)
    ensures Shaped(sent)
    ensures if sent != [] && IsTerminal(sent[|sent| - 1]) then sent[|sent| - 1] == TerminalEvent(final, error)
            else final == Interrupted
  {
    hide Script, Body;
    if |sent| > 1 && sent[|sent| - 1] == TerminalEvent(final, error)
       && Body(m, final, error, cancelled, sent[..|sent| - 1]) {
      BodyIsScript(m, final, error, cancelled, sent[..|sent| - 1]);
      ScriptPrefixIsShaped(m, sent[..|sent| - 1]);
      assert sent == sent[..|sent| - 1] + [TerminalEvent(final, error)];
    } else {
      BodyIsScript(m, final, error, cancelled, sent);
      ScriptPrefixIsShaped(m, sent);
    }
  }

  lemma RoutineIsShaped(r: Routine, cancelled: bool)
    requires RoutineInv(r, cancelled)
    ensures Shaped(r.sent)
  {
    hide Shaped, Script, Body, Trace;
    if Early(r.pc) {
      EarlyIsScript(r, cancelled);
      ScriptPrefixIsShaped(r.model, r.sent);
    } else if r.pc.Ending? {
      BodyIsScript(r.model, r.pc.final, r.pc.error, cancelled, r.sent);
      ScriptPrefixIsShaped(r.model, r.sent);
    } else {
      TraceIsShaped(r.model, r.pc.final, r.pc.error, cancelled, r.sent);
    }
  }

  /** In every state of every interleaving, for every session: its events are nothing, or `started`, then deltas, then at
      most one terminal event, which is last; its final state matches that event, and is Interrupted if there is none; its
      channel is closed only once its state is final; and if it completed, its deltas are the whole model stream in order. */
  lemma EventTrace(p: Params, states: seq<State>, actions: seq<Action>, k: nat, h: nat)
    requires Run(p, states, actions) && k < |states| && h < |states[k].routines|
    ensures |states[k].routines| == |states[k].table.cells|
    ensures var (r, cell) := (states[k].routines[h], states[k].table.cells[h]);
            && Shaped(r.sent)
            && (r.closed ==> Terminal(cell.phase))
            && (Terminal(cell.phase) && cell.phase != Expired ==>
                  && Trace(r.model, cell.phase, cell.err, cell.cancelled, r.sent)
                  && if r.sent != [] && IsTerminal(r.sent[|r.sent| - 1]) then
                       r.sent[|r.sent| - 1] == TerminalEvent(cell.phase, cell.err)
                     else cell.phase == Interrupted)
            && (cell.phase == Completed ==>
                  r.model.refusal.None? && Sound(r.model.chunks) == |r.model.chunks|
                  && r.sent == [StartedEvent] + Deltas(r.model.chunks) + [FinishedEvent])
            && (cell.phase == Interrupted ==> cell.cancelled)
  {
    RunKeepsInv(p, states, actions, k);
    var (r, cell) := (states[k].routines[h], states[k].table.cells[h]);
    assert SessionInv(r, cell);
    RoutineIsShaped(r, cell.cancelled);
    if Terminal(cell.phase) && cell.phase != Expired {
      TraceIsShaped(r.model, cell.phase, cell.err, cell.cancelled, r.sent);
    }
    if cell.phase == Completed {
      CompletedIsWhole(r.model, cell.err, cell.cancelled, r.sent);
    }
  }

  lemma CompletedIsWhole(m: Model, error: string, cancelled: bool, sent: seq<Event>)
    requires Trace(m, Completed, error, cancelled, sent)
    ensures m.refusal.None? && Sound(m.chunks) == |m.chunks| && sent == [StartedEvent] + Deltas(m.chunks) + [FinishedEvent]
  {
    CleanIsScript(m, |m.chunks|);
    assert m.chunks[..|m.chunks|] == m.chunks;
    assert sent == sent[..|sent| - 1] + [FinishedEvent];
  }

  // ---- What no step undoes ----

  /** A final state changes only to Expired, and that as its session leaves the table; a closed channel stays closed and
      nothing is sent on it again; what has been sent stays sent; and a running session keeps its place in the table. */
  lemma NothingUndone(p: Params, states: seq<State>, actions: seq<Action>, k: nat)
    requires Run(p, states, actions) && k < |actions|
    ensures var (s, s') := (states[k], states[k + 1]);
            && |s.routines| == |s.table.cells| <= |s'.table.cells| == |s'.routines|
            && (forall h | 0 <= h < |s.table.cells| ::
                  && Kept(s, s', h)
                  && (s.table.cells[h].phase == Running ==> Holds(s.table, h) && Holds(s'.table, h)))
  {
    RunKeepsInv(p, states, actions, k);
    StepKeepsCells(p, states[k], actions[k]);
    hide Inv, Step, Enabled, Kept, Holds;
  }

  ghost predicate Kept(s: State, s': State, h: nat)
    requires h < |s.routines| && h < |s'.routines| && h < |s.table.cells| && h < |s'.table.cells|
  {
    var (r, r', cell, cell') := (s.routines[h], s'.routines[h], s.table.cells[h], s'.table.cells[h]);
    && r.sent <= r'.sent && r.received <= r'.received && r'.model == r.model && cell'.id == cell.id
    && (r.closed ==> r'.closed && r'.sent == r.sent)
    && (cell.cancelled ==> cell'.cancelled)
    && (Terminal(cell.phase) ==>
          && cell'.err == cell.err && cell'.updatedAt == cell.updatedAt
          && (cell'.phase == cell.phase || (cell'.phase == Expired && Holds(s.table, h) && !Holds(s'.table, h))))
  }

  /** What every step does to the sessions there were before it. */
  ghost predicate SessionsKept(s: State, s': State) {
    && |s.table.cells| <= |s'.table.cells| && |s.routines| <= |s'.routines|
    && |s.routines| == |s.table.cells| && |s'.routines| == |s'.table.cells|
    && forall h | 0 <= h < |s.table.cells| ::
         Kept(s, s', h) && (s.table.cells[h].phase == Running ==> Holds(s.table, h) && Holds(s'.table, h))
  }

  lemma StepKeepsCells(p: Params, s: State, a: Action)
    requires Inv(p, s) && Enabled(p, s, a)
    ensures SessionsKept(s, Step(p, s, a))
  {
    hide *;
    match a
    case StartCall(rawId, contextDone, now, model) => StartKeepsCells(p, s, rawId, contextDone, now, model);
    case InterruptCall(rawId) => InterruptKeepsCells(p, s, rawId);
    case InterruptCancels(h) => CancelKeepsCells(p, s, h, a);
    case CleanupCall(now) => CleanupKeepsCells(p, s, now);
    case CloseCall => CloseKeepsCells(p, s, a);
    case CloseCancels(h) => CancelKeepsCells(p, s, h, a);
    case CloseReturns => CloseKeepsCells(p, s, a);
    case CallerCancels(h) => CancelKeepsCells(p, s, h, a);
    case Consume(h) => ConsumeKeepsCells(p, s, h);
    case Go(h, choice, now) => GoKeepsCells(p, s, h, choice, now);
  }

  lemma SameCells(p: Params, s: State, s': State)
    requires Inv(p, s) && s'.table.cells == s.table.cells && s'.table.ids == s.table.ids && s'.routines == s.routines
    ensures SessionsKept(s, s')
  {
    hide SessionInv, WellFormed, ActiveIds, CloseInv;
  }

  lemma InterruptKeepsCells(p: Params, s: State, rawId: string)
    requires Inv(p, s) && Enabled(p, s, InterruptCall(rawId))
    ensures SessionsKept(s, Step(p, s, InterruptCall(rawId)))
  {
    SameCells(p, s, Step(p, s, InterruptCall(rawId)));
    hide Inv, SessionsKept, Interrupt;
  }

  lemma CloseKeepsCells(p: Params, s: State, a: Action)
    requires Inv(p, s) && Enabled(p, s, a) && (a == CloseCall || a == CloseReturns)
    ensures SessionsKept(s, Step(p, s, a))
  {
    SameCells(p, s, Step(p, s, a));
    hide Inv, SessionsKept, ToCancel;
  }

  lemma ConsumeKeepsCells(p: Params, s: State, h: nat)
    requires Inv(p, s) && Enabled(p, s, Consume(h))
    ensures SessionsKept(s, Step(p, s, Consume(h)))
  {
    hide SessionInv, WellFormed, ActiveIds, CloseInv;
  }

  lemma StartKeepsCells(p: Params, s: State, rawId: string, contextDone: bool, now: Time, model: Model)
    requires Inv(p, s) && Enabled(p, s, StartCall(rawId, contextDone, now, model))
    ensures SessionsKept(s, Step(p, s, StartCall(rawId, contextDone, now, model)))
  {
    hide Start, SessionInv, WellFormed, ActiveIds, CloseInv;
    StartKeepsTable(p.config, s.table, rawId, contextDone, now);
  }

  lemma CleanupKeepsCells(p: Params, s: State, now: Time)
    requires Inv(p, s) && Enabled(p, s, CleanupCall(now))
    ensures SessionsKept(s, Step(p, s, CleanupCall(now)))
  {
    hide Cleanup, SessionInv, WellFormed, ActiveIds, CloseInv;
    CleanupKeepsTable(p.config, s.table, now);
  }

  lemma CancelKeepsCells(p: Params, s: State, h: nat, a: Action)
    requires Inv(p, s) && Enabled(p, s, a) && (a == InterruptCancels(h) || a == CloseCancels(h) || a == CallerCancels(h))
    ensures SessionsKept(s, Step(p, s, a))
  {
    hide SessionInv, WellFormed, ActiveIds, CloseInv;
    var s' := Step(p, s, a);
    assert s'.table == CancelAll(s.table, {h}) && s'.routines == s.routines;
    hide Step, Enabled;
  }

  lemma GoKeepsOwn(p: Params, s: State, h: nat, choice: Choice, now: Time)
    requires Inv(p, s) && Enabled(p, s, Go(h, choice, now))
    ensures var s' := Step(p, s, Go(h, choice, now));
            && |s'.table.cells| == |s.table.cells| && |s'.routines| == |s.routines| == |s.table.cells|
            && Kept(s, s', h) && s'.table.ids == s.table.ids
            && forall i | 0 <= i < |s.table.cells| && i != h ::
                 s'.routines[i] == s.routines[i] && s'.table.cells[i] == s.table.cells[i]
  {
    hide RoutineInv, TableInv, CloseInv;
    assert SessionInv(s.routines[h], s.table.cells[h]);
    MoveOnlyAdds(p, s.routines[h], s.table.cells[h], choice);
    hide Move, CanMove, SessionInv;
  }

  lemma GoKeepsCells(p: Params, s: State, h: nat, choice: Choice, now: Time)
    requires Inv(p, s) && Enabled(p, s, Go(h, choice, now))
    ensures SessionsKept(s, Step(p, s, Go(h, choice, now)))
  {
    GoKeepsOwn(p, s, h, choice, now);
    hide SessionInv, WellFormed, ActiveIds, CloseInv, Step, Enabled;
    var s' := Step(p, s, Go(h, choice, now));
    forall i | 0 <= i < |s.table.cells|
      ensures Kept(s, s', i) && s'.table.cells[i].id == s.table.cells[i].id
    {
    }
    hide Kept;
  }

  lemma MoveOnlyAdds(p: Params, r: Routine, cell: Cell, choice: Choice)
    requires SessionInv(r, cell) && CanMove(p, r, cell.cancelled, choice)
    ensures var r' := Move(p, r, cell.cancelled, choice);
            r.sent <= r'.sent && r'.received == r.received && r'.model == r.model && !r.closed
    ensures r.pc.Finishing? ==> cell.phase == Running
  {
    hide Trace, Body, Sent;
  }

  // ---- What an interrupt does ----

  /** An interrupt of a running session queues the cancel function of the object that the table holds under the trimmed ID;
      any other interrupt changes nothing. */
  lemma InterruptQueues(p: Params, states: seq<State>, actions: seq<Action>, k: nat, rawId: string)
    requires Run(p, states, actions) && k < |actions| && actions[k] == InterruptCall(rawId)
    ensures var (s, s', id) := (states[k], states[k + 1], TrimSpace(rawId));
            if id != "" && id in s.table.ids && s.table.ids[id] < |s.table.cells|
               && s.table.cells[s.table.ids[id]].phase == Running
            then s' == s.(interrupts := s.interrupts + multiset{s.table.ids[id]})
            else s' == s
  {
    hide TrimSpace;
  }

  /** A queued cancel function stays queued until it has been called, and the session is cancelled ever after. */
  lemma {:induction false} QueuedUntilCancelled(p: Params, states: seq<State>, actions: seq<Action>, k: nat, m: nat, h: nat)
    requires Run(p, states, actions) && k <= m < |states| && h < |states[k].table.cells|
    requires h in states[k].interrupts || states[k].table.cells[h].cancelled
    ensures h < |states[m].table.cells| && (h in states[m].interrupts || states[m].table.cells[h].cancelled)
    decreases m
  {
    hide *;
    if k < m {
      QueuedUntilCancelled(p, states, actions, k, m - 1, h);
      StepAt(p, states, actions, m - 1);
      QueuedOrCancelled(p, states[m - 1], actions[m - 1], h);
    }
  }

  lemma StepAt(p: Params, states: seq<State>, actions: seq<Action>, k: nat)
    requires Run(p, states, actions) && k + 1 < |states|
    ensures |states| == |actions| + 1
    ensures Inv(p, states[k]) && Enabled(p, states[k], actions[k]) && states[k + 1] == Step(p, states[k], actions[k])
    ensures SessionsKept(states[k], states[k + 1])
  {
    RunKeepsInv(p, states, actions, k);
    StepKeepsCells(p, states[k], actions[k]);
    hide Inv, Step, Enabled, SessionsKept;
  }

  lemma QueuedOrCancelled(p: Params, s: State, a: Action, h: nat)
    requires Inv(p, s) && Enabled(p, s, a) && SessionsKept(s, Step(p, s, a)) && h < |s.table.cells|
    requires h in s.interrupts || s.table.cells[h].cancelled
    ensures var s' := Step(p, s, a); h < |s'.table.cells| && (h in s'.interrupts || s'.table.cells[h].cancelled)
  {
    QueueShrinksByCalls(p, s, a, h);
    hide Inv, Enabled, Step;
    assert Kept(s, Step(p, s, a), h);
  }

  lemma QueueShrinksByCalls(p: Params, s: State, a: Action, h: nat)
    requires Enabled(p, s, a) && h < |s.table.cells|
    ensures h in s.interrupts ==>
              var s' := Step(p, s, a);
              h in s'.interrupts || (a == InterruptCancels(h) && |s'.table.cells| == |s.table.cells| && s'.table.cells[h].cancelled)
  {
    hide Start, Interrupt, Cleanup, Finish, Move, CanMove, ToCancel;
  }

  lemma {:induction false} StaysCancelled(p: Params, states: seq<State>, actions: seq<Action>, k: nat, m: nat, h: nat)
    requires Run(p, states, actions) && k <= m < |states| && h < |states[k].table.cells| && states[k].table.cells[h].cancelled
    ensures h < |states[m].table.cells| && states[m].table.cells[h].cancelled
    decreases m
  {
    hide *;
    if k < m {
      StaysCancelled(p, states, actions, k, m - 1, h);
      StepAt(p, states, actions, m - 1);
      KeptCancelled(states[m - 1], states[m], h);
    }
  }

  lemma KeptCancelled(s: State, s': State, h: nat)
    requires SessionsKept(s, s') && h < |s.table.cells| && s.table.cells[h].cancelled
    ensures h < |s'.table.cells| && s'.table.cells[h].cancelled
  {
    assert Kept(s, s', h);
  }

  /** Whoever interrupts a running session, and whatever else happens: as soon as the cancel function of that session is
      called, it is cancelled, and stays so. */
  lemma InterruptTakesEffect(p: Params, states: seq<State>, actions: seq<Action>, k: nat, j: nat, m: nat, rawId: string)
    requires Run(p, states, actions) && k < j < |actions| && j < m < |states|
    requires var (t, id) := (states[k].table, TrimSpace(rawId));
             && actions[k] == InterruptCall(rawId) && id != "" && id in t.ids && IsRunning(t, t.ids[id])
             && actions[j] == InterruptCancels(t.ids[id])
    ensures var h := states[k].table.ids[TrimSpace(rawId)];
            h < |states[m].table.cells| && states[m].table.cells[h].cancelled
  {
    var h := states[k].table.ids[TrimSpace(rawId)];
    hide TrimSpace;
    InterruptQueues(p, states, actions, k, rawId);
    QueuedUntilCancelled(p, states, actions, k + 1, j, h);
    CancelTakesEffect(p, states[j], h);
    StaysCancelled(p, states, actions, j + 1, m, h);
    hide *;
  }

  lemma CancelTakesEffect(p: Params, s: State, h: nat)
    requires Enabled(p, s, InterruptCancels(h)) && h < |s.table.cells|
    ensures var t := Step(p, s, InterruptCancels(h)).table; h < |t.cells| && t.cells[h].cancelled
  {
  }

  // ---- How a session comes to end ----

  /** `r` has decided on this verdict since it had sent `sent`, and sends `more` before it records the verdict. */
  ghost predicate Decided(r: Routine, sent: seq<Event>, final: Phase, error: string, more: seq<Event>) {
    || (r.pc == Ending(final, error) && r.sent == sent && more == [TerminalEvent(final, error)])
    || (r.sent == sent + more
        && (r.pc == Finishing(final, error) || r.pc == ClosingChannel(final, error) || r.pc == Done(final, error)))
  }

  /** What a step of a goroutine decides, if it is the step that decides: the verdict and the event that announces it. */
  ghost predicate Decides(r: Routine, cancelled: bool, choice: Choice, final: Phase, error: string, more: seq<Event>) {
    match choice
    case Abandon => (final, error, more) == (Interrupted, "", [])
    case Refuses(e) =>
      (final, error, more) == if cancelled then (Interrupted, "", [InterruptedEvent]) else (Failed, e, [FailedEvent(e)])
    case Breaks(e) => (final, error, more) == (Failed, e, [FailedEvent(e)])
    case Next =>
      && r.pos < |r.model.chunks| && r.model.chunks[r.pos].error == Some(error)
      && final == Failed && more == [FailedEvent(error)]
    case Proceed =>
      && r.pc == Checking
      && (final, error, more) == if cancelled then (Interrupted, "", [InterruptedEvent]) else (Completed, "", [FinishedEvent])
    case _ => false
  }

  lemma DecisionIsTaken(p: Params, r: Routine, cancelled: bool, choice: Choice, final: Phase, error: string, more: seq<Event>)
    requires CanMove(p, r, cancelled, choice) && Decides(r, cancelled, choice, final, error, more)
    ensures Decided(Move(p, r, cancelled, choice), r.sent, final, error, more)
  {
  }

  lemma DecisionStays(p: Params, r: Routine, cancelled: bool, choice: Choice,
                      sent: seq<Event>, final: Phase, error: string, more: seq<Event>)
    requires CanMove(p, r, cancelled, choice) && Decided(r, sent, final, error, more)
    ensures Decided(Move(p, r, cancelled, choice), sent, final, error, more)
  {
  }

  lemma OthersDecisionStays(p: Params, s: State, a: Action, h: nat, sent: seq<Event>, final: Phase, error: string, more: seq<Event>)
    requires Enabled(p, s, a) && h < |s.routines| && Decided(s.routines[h], sent, final, error, more)
    ensures var s' := Step(p, s, a); h < |s'.routines| && Decided(s'.routines[h], sent, final, error, more)
  {
    if a.Go? && a.h == h {
      DecisionStays(p, s.routines[h], s.table.cells[h].cancelled, a.choice, sent, final, error, more);
    }
    hide Start, Interrupt, Cleanup, Finish, Move, CanMove, ToCancel, CancelAll;
  }

  lemma {:induction false} StaysDecided(p: Params, states: seq<State>, actions: seq<Action>, k: nat, m: nat, h: nat,
                                        sent: seq<Event>, final: Phase, error: string, more: seq<Event>)
    requires Run(p, states, actions) && k <= m < |states| && h < |states[k].routines|
    requires Decided(states[k].routines[h], sent, final, error, more)
    ensures h < |states[m].routines| && Decided(states[m].routines[h], sent, final, error, more)
    decreases m
  {
    hide *;
    if k < m {
      StaysDecided(p, states, actions, k, m - 1, h, sent, final, error, more);
      StepAt(p, states, actions, m - 1);
      OthersDecisionStays(p, states[m - 1], actions[m - 1], h, sent, final, error, more);
    }
  }

  /** Why a session ends as it does: once its goroutine gives up a delivery, is refused, meets an error or comes to the end of
      the stream, every later state that is final has the verdict that follows, and its events end as announced. */
  lemma VerdictFollows(p: Params, states: seq<State>, actions: seq<Action>, k: nat, m: nat, h: nat, choice: Choice, now: Time,
                       final: Phase, error: string, more: seq<Event>)
    requires Run(p, states, actions) && k < |actions| && k < m < |states| && actions[k] == Go(h, choice, now)
    requires h < |states[k].routines| && h < |states[k].table.cells|
    requires Decides(states[k].routines[h], states[k].table.cells[h].cancelled, choice, final, error, more)
    ensures h < |states[m].routines| == |states[m].table.cells|
    ensures var (cell, sent) := (states[m].table.cells[h], states[m].routines[h].sent);
            && cell.phase in {Running, final, Expired}
            && (Terminal(cell.phase) ==> cell.err == error && sent == states[k].routines[h].sent + more)
            && (cell.phase == Running ==> sent == states[k].routines[h].sent || sent == states[k].routines[h].sent + more)
  {
    hide *;
    StepAt(p, states, actions, k);
    DecidedNext(p, states[k], h, choice, now, final, error, more);
    StaysDecided(p, states, actions, k + 1, m, h, states[k].routines[h].sent, final, error, more);
    RunKeepsInv(p, states, actions, m);
    DecidedIsRecorded(p, states[m], h, states[k].routines[h].sent, final, error, more);
  }

  lemma DecidedNext(p: Params, s: State, h: nat, choice: Choice, now: Time, final: Phase, error: string, more: seq<Event>)
    requires Enabled(p, s, Go(h, choice, now)) && h < |s.routines| && h < |s.table.cells|
    requires Decides(s.routines[h], s.table.cells[h].cancelled, choice, final, error, more)
    ensures var s' := Step(p, s, Go(h, choice, now));
            h < |s'.routines| && Decided(s'.routines[h], s.routines[h].sent, final, error, more)
  {
    DecisionIsTaken(p, s.routines[h], s.table.cells[h].cancelled, choice, final, error, more);
    hide Decides, Decided, Finish, Move, CanMove;
  }

  lemma DecidedIsRecorded(p: Params, s: State, h: nat, sent: seq<Event>, final: Phase, error: string, more: seq<Event>)
    requires Inv(p, s) && h < |s.routines| && Decided(s.routines[h], sent, final, error, more)
    ensures h < |s.routines| == |s.table.cells|
    ensures var (cell, all) := (s.table.cells[h], s.routines[h].sent);
            && cell.phase in {Running, final, Expired}
            && (Terminal(cell.phase) ==> cell.err == error && all == sent + more)
            && (cell.phase == Running ==> all == sent || all == sent + more)
  {
    assert SessionInv(s.routines[h], s.table.cells[h]);
    hide RoutineInv, TableInv, CloseInv;
  }

  /** A session that is cancelled before its goroutine has come to a verdict does not complete. */
  ghost predicate Missed(r: Routine, cell: Cell) {
    cell.cancelled && (Early(r.pc) || r.pc.final != Completed)
  }

  lemma MissedStays(p: Params, s: State, a: Action, h: nat)
    requires Enabled(p, s, a) && h < |s.routines| == |s.table.cells| && Missed(s.routines[h], s.table.cells[h])
    requires SessionsKept(s, Step(p, s, a))
    ensures var s' := Step(p, s, a);
            && h < |s'.routines| && h < |s'.table.cells| && Missed(s'.routines[h], s'.table.cells[h])
  {
    if a.Go? && a.h == h {
      MissedMoves(p, s.routines[h], a.choice);
    }
    assert Kept(s, Step(p, s, a), h);
    hide Start, Interrupt, Cleanup, Finish, Move, CanMove, ToCancel, CancelAll;
  }

  lemma MissedMoves(p: Params, r: Routine, choice: Choice)
    requires CanMove(p, r, true, choice) && (Early(r.pc) || r.pc.final != Completed)
    ensures var r' := Move(p, r, true, choice); Early(r'.pc) || r'.pc.final != Completed
  {
  }

  lemma {:induction false} CancelledNeverCompletes(p: Params, states: seq<State>, actions: seq<Action>, k: nat, m: nat, h: nat)
    requires Run(p, states, actions) && k <= m < |states| && h < |states[k].routines| == |states[k].table.cells|
    requires states[k].table.cells[h].cancelled && (Early(states[k].routines[h].pc) || states[k].routines[h].pc.final != Completed)
    ensures h < |states[m].routines| == |states[m].table.cells|
    ensures Missed(states[m].routines[h], states[m].table.cells[h]) && states[m].table.cells[h].phase != Completed
    decreases m
  {
    hide *;
    if k < m {
      CancelledNeverCompletes(p, states, actions, k, m - 1, h);
      StepAt(p, states, actions, m - 1);
      MissedStays(p, states[m - 1], actions[m - 1], h);
    } else {
      MissedNow(states[m].routines[h], states[m].table.cells[h]);
    }
    RunKeepsInv(p, states, actions, m);
    MissedIsOpen(p, states[m], h);
  }

  lemma MissedNow(r: Routine, cell: Cell)
    requires cell.cancelled && (Early(r.pc) || r.pc.final != Completed)
    ensures Missed(r, cell)
  {
  }

  lemma MissedIsOpen(p: Params, s: State, h: nat)
    requires Inv(p, s) && h < |s.routines| && h < |s.table.cells| && Missed(s.routines[h], s.table.cells[h])
    ensures |s.routines| == |s.table.cells| && s.table.cells[h].phase != Completed
  {
    assert SessionInv(s.routines[h], s.table.cells[h]);
    hide RoutineInv, TableInv, CloseInv;
  }

  // ---- The event buffer ----

  /** A session is never more events ahead of its consumer than its channel holds. */
  lemma {:induction false} BufferBounded(p: Params, states: seq<State>, actions: seq<Action>, k: nat)
    requires Run(p, states, actions) && k < |states|
    ensures forall r | r in states[k].routines :: r.received <= |r.sent| <= r.received + p.capacity
    decreases k
  {
    if k > 0 {
      BufferBounded(p, states, actions, k - 1);
      hide Step, Enabled;
      StepKeepsBuffers(p, states[k - 1], actions[k - 1]);
    }
  }

  lemma StepKeepsBuffers(p: Params, s: State, a: Action)
    requires Enabled(p, s, a) && forall r | r in s.routines :: r.received <= |r.sent| <= r.received + p.capacity
    ensures forall r | r in Step(p, s, a).routines :: r.received <= |r.sent| <= r.received + p.capacity
  {
    if a.Go? {
      MoveKeepsBuffer(p, s.routines[a.h], s.table.cells[a.h].cancelled, a.choice);
    }
    hide Start, Interrupt, Cleanup, Finish, Move, CanMove, ToCancel, CancelAll;
  }

  lemma MoveKeepsBuffer(p: Params, r: Routine, cancelled: bool, choice: Choice)
    requires CanMove(p, r, cancelled, choice) && r.received <= |r.sent| <= r.received + p.capacity
    ensures var r' := Move(p, r, cancelled, choice); r'.received <= |r'.sent| <= r'.received + p.capacity
  {
  }

  // ---- The limit ----

  /** The goroutines that have not recorded their verdict. */
  function Unfinished(s: State): set<nat> {
    set h: nat | h < |s.routines| && !s.routines[h].pc.ClosingChannel? && !s.routines[h].pc.Done?
  }

  lemma {:induction false} DistinctIds(t: Table, hs: set<nat>, ids: set<string>)
    requires forall h | h in hs :: Holds(t, h) && t.cells[h].id in ids
    ensures |hs| <= |ids|
    decreases |hs|
  {
    if hs != {} {
      var h := SomeElement(hs);
      DistinctIds(t, hs - {h}, ids - {t.cells[h].id});
    }
  }

  /** Unfinished sessions never exceed the limit, however calls and goroutines interleave. */
  lemma LimitHolds(p: Params, states: seq<State>, actions: seq<Action>, k: nat)
    requires Run(p, states, actions) && k < |states| && p.config.limit > 0
    ensures |Unfinished(states[k])| <= p.config.limit
  {
    RunKeepsInv(p, states, actions, k);
    var s := states[k];
    forall h | h in Unfinished(s)
      ensures Holds(s.table, h) && s.table.cells[h].id in ActiveIds(s.table)
    {
      assert SessionInv(s.routines[h], s.table.cells[h]);
    }
    DistinctIds(s.table, Unfinished(s), ActiveIds(s.table));
  }

  // ---- Close ----

  ghost predicate AllCancelled(s: State) {
    forall h | 0 <= h < |s.table.cells| && s.table.cells[h].phase == Running :: s.table.cells[h].cancelled
  }

  /** Once the `Close` that found the manager open has returned, every unfinished session is cancelled and no session can
      start. */
  lemma AfterClose(p: Params, states: seq<State>, actions: seq<Action>, k: nat)
    requires Run(p, states, actions) && k < |states| && states[k].firstCloseReturned
    ensures AllCancelled(states[k])
    ensures forall rawId, contextDone, now :: !Start(p.config, states[k].table, rawId, contextDone, now).1.Started?
    ensures k < |actions| ==> states[k + 1].firstCloseReturned
  {
    RunKeepsInv(p, states, actions, k);
    hide TrimSpace;
    var closed := states[k].table.closed;
    assert closed;
  }

  /** A `Close` that finds the manager closed returns at once. Then every unfinished session is cancelled if and only if the
      earlier `Close` has no session left to cancel that is unfinished and not cancelled otherwise. */
  lemma AfterLaterClose(p: Params, states: seq<State>, actions: seq<Action>, k: nat)
    requires Run(p, states, actions) && k < |states| && states[k].laterCloseReturned
    ensures var s := states[k];
            && (AllCancelled(s) <==>
                  forall h | h in s.closing && IsRunning(s.table, h) :: s.table.cells[h].cancelled)
            && forall rawId, contextDone, now :: !Start(p.config, s.table, rawId, contextDone, now).1.Started?
  {
    RunKeepsInv(p, states, actions, k);
    hide TrimSpace;
    var s := states[k];
    assert s.table.closed;
    assert forall h | h in s.closing && IsRunning(s.table, h) :: s.table.cells[h].phase == Running;
    assert forall h: nat | h < |s.table.cells| && s.table.cells[h].phase == Running :: IsRunning(s.table, h);
  }

  /** It does return while a session runs on, not cancelled: `Start`, then two calls of `Close` at the same time. */
  lemma LaterCloseReturnsEarly(p: Params, id: string, now: Time, model: Model)
    requires Trimmed(id) && id != ""
    ensures exists states: seq<State>, actions: seq<Action> ::
              Run(p, states, actions) && |states| == 4 && states[3].laterCloseReturned && !AllCancelled(states[3])
  {
    StartsFirst(p, id, now, model);
    hide Start, ActiveIds;
    var s1 := Step(p, INITIAL, StartCall(id, false, now, model));
    assert s1.table.cells[0].phase == Running && !s1.table.cells[0].cancelled && !s1.table.closed;
    var s2 := Step(p, s1, CloseCall);
    var s3 := Step(p, s2, CloseCall);
    assert s3.table.cells == s1.table.cells && s3.laterCloseReturned;
    hide Step;
    var states := [INITIAL, s1, s2, s3];
    var actions := [StartCall(id, false, now, model), CloseCall, CloseCall];
    assert forall k | 0 <= k < 3 :: Enabled(p, states[k], actions[k]) && states[k + 1] == Step(p, states[k], actions[k]);
    assert Run(p, states, actions);
  }

  lemma StartsFirst(p: Params, id: string, now: Time, model: Model)
    requires Trimmed(id) && id != ""
    ensures var (t, result) := Start(p.config, INITIAL.table, id, false, now);
            result.Started? && !t.closed && t.cells == [Cell(id, Running, now, "", false)]
  {
    hide TrimSpace;
    assert ActiveIds(INITIAL.table) == {};
  }

  // ---- Progress ----

  /** A goroutine whose consumer keeps up is never stuck: short of the model, some step of its own is possible. */
  lemma NeverStuck(p: Params, states: seq<State>, actions: seq<Action>, k: nat, h: nat, now: Time)
    requires Run(p, states, actions) && k < |states| && h < |states[k].routines| && p.capacity > 0
    requires states[k].routines[h].received == |states[k].routines[h].sent| && !states[k].routines[h].pc.Done?
    ensures exists choice :: Enabled(p, states[k], Go(h, choice, now))
  {
    RunKeepsInv(p, states, actions, k);
    var (s, r) := (states[k], states[k].routines[h]);
    assert SessionInv(r, s.table.cells[h]);
    var choice :=
      match r.pc
      case Calling => if r.model.refusal.Some? then Refuses(r.model.refusal.value) else Opens
      case Receiving => if r.pos < |r.model.chunks| then Next else Ends
      case Checking => Proceed
      case Finishing(_, _) => Proceed
      case ClosingChannel(_, _) => Proceed
      case _ => Deliver;
    assert Enabled(p, s, Go(h, choice, now));
  }

  /** How many steps a goroutine can still take. */
  function StepsLeft(r: Routine): int {
    var n := 3 * (|r.model.chunks| - r.pos);
    match r.pc
    case Starting => n + 7
    case Calling => n + 6
    case Receiving => n + 5
    case Texting(_) => n + 7
    case Tooling(_) => n + 6
    case Checking => 4
    case Ending(_, _) => 3
    case Finishing(_, _) => 2
    case ClosingChannel(_, _) => 1
    case Done(_, _) => 0
  }

  /** Every step of a goroutine uses one up, so it takes at most three for each event of its stream and seven more. */
  lemma OwnStepsRunOut(p: Params, r: Routine, cell: Cell, choice: Choice)
    requires SessionInv(r, cell) && CanMove(p, r, cell.cancelled, choice)
    ensures 0 <= StepsLeft(Move(p, r, cell.cancelled, choice)) < StepsLeft(r) <= 3 * |r.model.chunks| + 7
  {
    hide Trace, Body, Sent, Clean;
  }
}
