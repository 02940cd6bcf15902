/** The event loop of `qaStream` in `internal/transport/http/handler.go`: it turns a model stream into the events of a
    question, and saves the turn at the end. */
module QaStream {
  import opened Clock
  import Markdown
  import opened SaveProtocol
  import SaveLaws
  import SaveRuns
  import opened Sse
  import opened Text

  /** An event of the model stream; an error stands as its public message. */
  datatype ModelEvent = ModelEvent(text: string, reason: string, error: Option<string>)

  /** What the loop's `select` finds next. */
  datatype Input = ContextDone | Tick(ts: string) | Model(event: ModelEvent) | StreamClosed

  /** How saving the turn goes: the answer of `saveMemory`, and what to tell the user if it fails. */
  datatype Persistence = EmbeddingFails(message: string) | Saves(id: string, result: SaveResult, message: string)

  predicate Blank(s: string) {
    TrimSpace(s) == ""
  }

  /** `persistQATurn`: the warnings it writes, and the closing event. */
  function Persisted(answer: string, reason: string, persistence: Persistence): (seq<Event>, Event) {
    if Blank(answer) then ([], Finished(answer, "", false, false, reason))
    else
      match persistence
      case EmbeddingFails(message) => ([Warning("embedding failed: " + message)], Finished(answer, "", false, false, reason))
      case Saves(id, SaveResult(synced, error), message) =>
        if error.Some? then ([Warning("memory save failed: " + message)], Finished(answer, "", false, synced, reason))
        else ([], Finished(answer, id, true, synced, reason))
  }

  function Delta(text: string): seq<Event> {
    if text == "" then [] else [TextDelta(text)]
  }

  /** Whether the loop goes on after this input. */
  predicate Continues(input: Input) {
    input.Tick? || (input.Model? && input.event.error.None?)
  }

  function EventsOf(input: Input): seq<Event> {
    match input
    case Tick(ts) => [Heartbeat(ts)]
    case Model(event) => Delta(event.text)
    case _ => []
  }

  function TextOf(input: Input): string {
    if input.Model? then input.event.text else ""
  }

  function ReasonAfter(current: string, input: Input): string {
    if input.Model? && !Blank(input.event.reason) then input.event.reason else current
  }

  /** What a run says last, at an input after which the loop reads no more. */
  function Tail(input: Input, answer: string, reason: string, persistence: Persistence): seq<Event> {
    match input
    case StreamClosed =>
      var (warnings, finished) := Persisted(answer, reason, persistence);
      warnings + [finished]
    case Model(event) => if event.error.Some? then [Error("model_stream_failed", event.error.value)] else []
    case _ => []
  }

  /** The events of a run on an unbroken connection, from a given answer and finish reason on. */
  function Log(inputs: seq<Input>, answer: string, reason: string, persistence: Persistence): seq<Event>
    decreases |inputs|
  {
    if inputs == [] then []
    else if Continues(inputs[0]) then
      EventsOf(inputs[0])
      + Log(inputs[1..], answer + TextOf(inputs[0]), ReasonAfter(reason, inputs[0]), persistence)
    else Tail(inputs[0], answer, reason, persistence)
  }

  lemma LogAtEnd(inputs: seq<Input>, answer: string, reason: string, persistence: Persistence)
    ensures Log(inputs[|inputs|..], answer, reason, persistence) == []
  {
  }

  lemma LogGoesOn(inputs: seq<Input>, i: nat, answer: string, reason: string, persistence: Persistence)
    requires i < |inputs| && Continues(inputs[i])
    ensures Log(inputs[i..], answer, reason, persistence) ==
            EventsOf(inputs[i])
            + Log(inputs[i + 1..], answer + TextOf(inputs[i]), ReasonAfter(reason, inputs[i]), persistence)
  {
    assert inputs[i..][1..] == inputs[i + 1..];
    hide EventsOf, TextOf, ReasonAfter, Continues, Tail;
  }

  lemma LogStops(inputs: seq<Input>, i: nat, answer: string, reason: string, persistence: Persistence)
    requires i < |inputs| && !Continues(inputs[i])
    ensures Log(inputs[i..], answer, reason, persistence) == Tail(inputs[i], answer, reason, persistence)
  {
    hide EventsOf, TextOf, ReasonAfter, Continues, Tail;
  }

  lemma LogTick(inputs: seq<Input>, i: nat, answer: string, reason: string, persistence: Persistence)
    requires i < |inputs| && inputs[i].Tick?
    ensures Log(inputs[i..], answer, reason, persistence) ==
            [Heartbeat(inputs[i].ts)] + Log(inputs[i + 1..], answer, reason, persistence)
  {
    LogGoesOn(inputs, i, answer, reason, persistence);
    hide Log;
    assert answer + "" == answer;
  }

  lemma LogText(inputs: seq<Input>, i: nat, answer: string, reason: string, persistence: Persistence)
    requires i < |inputs| && inputs[i].Model? && inputs[i].event.error.None?
    ensures var event := inputs[i].event;
            Log(inputs[i..], answer, reason, persistence) ==
            Delta(event.text)
            + Log(inputs[i + 1..], answer + event.text, if Blank(event.reason) then reason else event.reason, persistence)
  {
    LogGoesOn(inputs, i, answer, reason, persistence);
    hide Log, Blank, Delta;
  }

  // ---- The handler ----

  /** `written` has been written in full since the connection could take `budget` bytes. */
  ghost predicate Sent(c: Codec, before: string, budget: Option<nat>, written: seq<Event>, body: string, left: Option<nat>) {
    && body == before + Frames(c, written)
    && if budget.None? then left == None
       else |Frames(c, written)| <= budget.value && left == Some(budget.value - |Frames(c, written)|)
  }

  lemma SentMore(c: Codec, before: string, budget: Option<nat>, written: seq<Event>, body: string, left: Option<nat>, e: Event)
    requires Sent(c, before, budget, written, body, left)
    requires left.Some? ==> |Frame(c, e)| <= left.value
    ensures Sent(c, before, budget, written + [e], body + Cut(Frame(c, e), left),
                 if left.None? then None else Some(left.value - |Cut(Frame(c, e), left)|))
  {
    hide Frame;
    FramesJoin(c, written, [e]);
    OneFrame(c, e);
  }

  lemma OneFrame(c: Codec, e: Event)
    ensures Frames(c, [e]) == Frame(c, e)
  {
    hide Frame;
    assert Frames(c, [e][1..]) == "";
    assert Frame(c, e) + "" == Frame(c, e);
  }

  /** The connection breaks in the frame of `e`: what follows it no longer matters. */
  lemma SentLast(c: Codec, before: string, budget: Option<nat>, written: seq<Event>, body: string, left: Option<nat>,
                 e: Event, more: seq<Event>)
    requires Sent(c, before, budget, written, body, left)
    requires left.Some? && |Frame(c, e)| > left.value
    ensures body + Cut(Frame(c, e), left) == before + Cut(Frames(c, written + [e] + more), budget)
  {
    hide Frame;
    FramesJoin(c, written + [e], more);
    FramesJoin(c, written, [e]);
    OneFrame(c, e);
    CutInside(Frames(c, written), Frame(c, e), Frames(c, more), budget.value);
  }

  lemma CutInside(a: string, b: string, rest: string, budget: nat)
    requires |a| <= budget < |a| + |b|
    ensures Cut(a + b + rest, Some(budget)) == a + Cut(b, Some(budget - |a|))
  {
  }

  lemma SentAll(c: Codec, before: string, budget: Option<nat>, written: seq<Event>, body: string, left: Option<nat>)
    requires Sent(c, before, budget, written, body, left)
    ensures body == before + Cut(Frames(c, written), budget)
  {
    hide Frames;
  }

  /** One write of the loop: either all events so far are out, or the body is final. */
  method Send(c: Codec, response: Response, e: Event, ghost before: string, ghost budget: Option<nat>,
              ghost written: seq<Event>)
    returns (ok: bool)
    requires Sent(c, before, budget, written, response.body, response.budget)
    modifies response
    ensures ok ==> Sent(c, before, budget, written + [e], response.body, response.budget)
    ensures !ok ==> forall more :: response.body == before + Cut(Frames(c, written + [e] + more), budget)
  {
    hide Sent, Frame, Frames, Cut;
    ghost var (body, left) := (response.body, response.budget);
    ok := response.WriteSse(c, e);
    if ok {
      SentMore(c, before, budget, written, body, left, e);
    } else {
      forall more
        ensures response.body == before + Cut(Frames(c, written + [e] + more), budget)
      {
        SentLast(c, before, budget, written, body, left, e, more);
      }
    }
  }

  /** The text of a model event, if it has any. */
  method SendText(c: Codec, response: Response, text: string, ghost before: string, ghost budget: Option<nat>,
                  ghost written: seq<Event>)
    returns (ok: bool)
    requires Sent(c, before, budget, written, response.body, response.budget)
    modifies response
    ensures ok ==> Sent(c, before, budget, written + Delta(text), response.body, response.budget)
    ensures !ok ==> forall more :: response.body == before + Cut(Frames(c, written + Delta(text) + more), budget)
  {
    hide Sent, Frames, Cut;
    if text == "" {
      assert written + [] == written;
      return true;
    }
    ok := Send(c, response, TextDelta(text), before, budget, written);
  }

  /** The last write of the loop: whether it succeeds no longer matters. */
  method SendLast(c: Codec, response: Response, e: Event, ghost before: string, ghost budget: Option<nat>,
                  ghost written: seq<Event>)
    requires Sent(c, before, budget, written, response.body, response.budget)
    modifies response
    ensures response.body == before + Cut(Frames(c, written + [e]), budget)
  {
    hide Sent, Frames, Cut;
    var ok := Send(c, response, e, before, budget, written);
    if ok {
      SentAll(c, before, budget, written + [e], response.body, response.budget);
    } else {
      assert written + [e] + [] == written + [e];
    }
  }

  /** `qaStream` from its first event on. `inputs` is what the loop meets; it may end while the loop still waits. */
  method Stream(c: Codec, inputs: seq<Input>, persistence: Persistence, response: Response)
    modifies response
    ensures response.body == old(response.body) + Cut(Frames(c, Log(inputs, "", "", persistence)), old(response.budget))
  {
    hide Sent, Frames, Cut, TrimSpace, Log, Persisted, Delta, ReasonAfter, EventsOf, TextOf;
    ghost var (before, budget) := (response.body, response.budget);
    ghost var log := Log(inputs, "", "", persistence);
    ghost var written: seq<Event> := [];
    NothingSent(c, before, budget);
    assert inputs[0..] == inputs;
    var answer, reason := "", "";
    var i := 0;
    while i < |inputs|
      invariant 0 <= i <= |inputs|
      invariant Sent(c, before, budget, written, response.body, response.budget)
      invariant log == written + Log(inputs[i..], answer, reason, persistence)
    {
      match inputs[i] {
        case ContextDone =>
          LogStops(inputs, i, answer, reason, persistence);
          assert log == written;
          SentAll(c, before, budget, written, response.body, response.budget);
          return;
        case Tick(ts) =>
          LogTick(inputs, i, answer, reason, persistence);
          var ok := Send(c, response, Heartbeat(ts), before, budget, written);
          assert log == written + [Heartbeat(ts)] + Log(inputs[i + 1..], answer, reason, persistence);
          if !ok {
            return;
          }
          written := written + [Heartbeat(ts)];
        case StreamClosed =>
          LogStops(inputs, i, answer, reason, persistence);
          Finish(c, answer, reason, persistence, response, before, budget, written);
          return;
        case Model(event) =>
          if event.error.Some? {
            LogStops(inputs, i, answer, reason, persistence);
            SendLast(c, response, Error("model_stream_failed", event.error.value), before, budget, written);
            return;
          }
          LogText(inputs, i, answer, reason, persistence);
          answer := answer + event.text;
          var ok := SendText(c, response, event.text, before, budget, written);
          if TrimSpace(event.reason) != "" {
            reason := event.reason;
          }
          assert log == written + Delta(event.text) + Log(inputs[i + 1..], answer, reason, persistence);
          if !ok {
            return;
          }
          written := written + Delta(event.text);
      }
      i := i + 1;
    }
    LogAtEnd(inputs, answer, reason, persistence);
    assert log == written;
    SentAll(c, before, budget, written, response.body, response.budget);
  }

  lemma NothingSent(c: Codec, before: string, budget: Option<nat>)
    ensures Sent(c, before, budget, [], before, budget)
  {
    assert before + "" == before;
  }

  /** The end of the model stream: save the turn, warn if that fails, and finish. */
  method Finish(c: Codec, answer: string, reason: string, persistence: Persistence, response: Response,
                ghost before: string, ghost budget: Option<nat>, ghost written: seq<Event>)
    requires Sent(c, before, budget, written, response.body, response.budget)
    modifies response
    ensures var (warnings, finished) := Persisted(answer, reason, persistence);
            response.body == before + Cut(Frames(c, written + (warnings + [finished])), budget)
  {
    hide Sent, Frames, Cut, TrimSpace;
    ghost var out := written;
    var memoryId, saved, synced := "", false, false;
    var warning := None;
    if TrimSpace(answer) != "" {
      match persistence
      case EmbeddingFails(message) =>
        warning := Some("embedding failed: " + message);
      case Saves(id, result, message) =>
        synced := result.markdownSynced;
        if result.error.Some? {
          warning := Some("memory save failed: " + message);
        } else {
          memoryId, saved := id, true;
        }
    }
    var finished := Finished(answer, memoryId, saved, synced, reason);
    if warning.Some? {
      var e := Warning(warning.value);
      var ok := Send(c, response, e, before, budget, written);
      assert written + ([e] + [finished]) == written + [e] + [finished];
      if !ok {
        return;
      }
      out := out + [e];
    } else {
      assert written + ([] + [finished]) == written + [finished];
    }
    SendLast(c, response, finished, before, budget, out);
  }

  // ---- What a run says ----

  function Texts(events: seq<Event>): string {
    if events == [] then ""
    else (if events[0].TextDelta? then events[0].text else "") + Texts(events[1..])
  }

  /** Whether the model stream has not failed or closed and the client has not left before `inputs[n]`. */
  ghost predicate StillRunning(inputs: seq<Input>, n: nat)
    requires n <= |inputs|
  {
    forall j | 0 <= j < n :: Continues(inputs[j])
  }

  /** The last finish reason that is not blank among the first `n` inputs. */
  function LastReason(inputs: seq<Input>, n: nat): string
    requires n <= |inputs|
  {
    if n == 0 then ""
    else if inputs[n - 1].Model? && !Blank(inputs[n - 1].event.reason) then inputs[n - 1].event.reason
    else LastReason(inputs, n - 1)
  }

  /** Everything the model said in the first `n` inputs. */
  function Said(inputs: seq<Input>, n: nat): string
    requires n <= |inputs|
  {
    if n == 0 then "" else Said(inputs, n - 1) + TextOf(inputs[n - 1])
  }

  function Deltas(inputs: seq<Input>, n: nat): seq<Event>
    requires n <= |inputs|
  {
    if n == 0 then [] else Deltas(inputs, n - 1) + EventsOf(inputs[n - 1])
  }

  /** The run up to its `n`th input, and then the rest. */
  lemma {:induction false} LogSplits(inputs: seq<Input>, n: nat, persistence: Persistence)
    requires n <= |inputs| && StillRunning(inputs, n)
    ensures Log(inputs, "", "", persistence) ==
            Deltas(inputs, n) + Log(inputs[n..], Said(inputs, n), LastReason(inputs, n), persistence)
  {
    hide Log, EventsOf, TextOf, ReasonAfter, Continues, Deltas, Said, LastReason, StillRunning;
    if n == 0 {
      NothingYet(inputs);
      assert inputs[0..] == inputs;
    } else {
      SplitsNext(inputs, n);
      LogSplits(inputs, n - 1, persistence);
      LogGoesOn(inputs, n - 1, Said(inputs, n - 1), LastReason(inputs, n - 1), persistence);
    }
  }

  lemma NothingYet(inputs: seq<Input>)
    ensures Deltas(inputs, 0) == [] && Said(inputs, 0) == "" && LastReason(inputs, 0) == ""
    ensures Texts([]) == "" && FrontShaped([])
  {
  }

  lemma SplitsNext(inputs: seq<Input>, n: nat)
    requires 0 < n <= |inputs|
    ensures Deltas(inputs, n) == Deltas(inputs, n - 1) + EventsOf(inputs[n - 1])
    ensures Said(inputs, n) == Said(inputs, n - 1) + TextOf(inputs[n - 1])
    ensures LastReason(inputs, n) == ReasonAfter(LastReason(inputs, n - 1), inputs[n - 1])
    ensures StillRunning(inputs, n) ==> StillRunning(inputs, n - 1) && Continues(inputs[n - 1])
  {
    hide EventsOf, TextOf, Continues, Blank;
  }

  ghost predicate FrontShaped(front: seq<Event>) {
    forall i | 0 <= i < |front| :: front[i].TextDelta? || front[i].Heartbeat?
  }

  lemma EventsOfSay(input: Input)
    ensures FrontShaped(EventsOf(input)) && Texts(EventsOf(input)) == TextOf(input)
  {
  }

  lemma FrontJoin(a: seq<Event>, b: seq<Event>)
    requires FrontShaped(a) && FrontShaped(b)
    ensures FrontShaped(a + b)
  {
  }

  lemma {:induction false} DeltasSay(inputs: seq<Input>, n: nat)
    requires n <= |inputs|
    ensures Texts(Deltas(inputs, n)) == Said(inputs, n) && FrontShaped(Deltas(inputs, n))
  {
    NothingYet(inputs);
    hide Texts, FrontShaped, EventsOf, TextOf, Deltas, Said, LastReason, StillRunning;
    if n > 0 {
      SplitsNext(inputs, n);
      DeltasSay(inputs, n - 1);
      EventsOfSay(inputs[n - 1]);
      FrontJoin(Deltas(inputs, n - 1), EventsOf(inputs[n - 1]));
      TextsJoin(Deltas(inputs, n - 1), EventsOf(inputs[n - 1]));
    }
  }

  lemma {:induction false} TextsJoin(a: seq<Event>, b: seq<Event>)
    ensures Texts(a + b) == Texts(a) + Texts(b)
    decreases |a|
  {
    if a == [] {
      assert a + b == b;
    } else {
      assert (a + b)[1..] == a[1..] + b;
      TextsJoin(a[1..], b);
    }
  }

  /** A run is its deltas and heartbeats and then, if it has ended, its tail. */
  lemma RunShape(inputs: seq<Input>, persistence: Persistence) returns (n: nat, tail: seq<Event>)
    ensures n <= |inputs| && StillRunning(inputs, n) && (n < |inputs| ==> !Continues(inputs[n]))
    ensures tail == if n == |inputs| then [] else Tail(inputs[n], Said(inputs, n), LastReason(inputs, n), persistence)
    ensures Log(inputs, "", "", persistence) == Deltas(inputs, n) + tail
  {
    n := 0;
    while n < |inputs| && Continues(inputs[n])
      invariant n <= |inputs| && StillRunning(inputs, n)
    {
      n := n + 1;
    }
    LogSplits(inputs, n, persistence);
    tail := Log(inputs[n..], Said(inputs, n), LastReason(inputs, n), persistence);
    if n == |inputs| {
      LogAtEnd(inputs, Said(inputs, n), LastReason(inputs, n), persistence);
    } else {
      LogStops(inputs, n, Said(inputs, n), LastReason(inputs, n), persistence);
    }
    hide Log, Tail, Said, LastReason, Deltas;
  }

  /** What the closing event of a turn with this answer tells about saving it. */
  predicate Truthful(finished: Event, persistence: Persistence)
    requires finished.Finished?
  {
    && (finished.memorySaved <==> !Blank(finished.answer) && persistence.Saves? && persistence.result.error == None)
    && (finished.memorySaved ==>
          finished.memoryId == persistence.id && finished.markdownSynced == persistence.result.markdownSynced)
  }

  /** A tail ends the run; a warning stands just before the closing event of a turn that had an answer but was not saved. */
  ghost predicate TailShaped(tail: seq<Event>) {
    || tail == []
    || (|tail| == 1 && tail[0].Error?)
    || (|tail| == 1 && tail[0].Finished? && (tail[0].memorySaved || Blank(tail[0].answer)))
    || (|tail| == 2 && tail[0].Warning? && tail[1].Finished? && !tail[1].memorySaved && !Blank(tail[1].answer))
  }

  lemma TailShape(input: Input, answer: string, reason: string, persistence: Persistence)
    ensures var tail := Tail(input, answer, reason, persistence);
            && TailShaped(tail)
            && (tail != [] && tail[|tail| - 1].Finished? ==>
                  var finished := tail[|tail| - 1];
                  input.StreamClosed? && finished.answer == answer && finished.reason == reason
                  && Truthful(finished, persistence))
  {
    hide TrimSpace, Blank;
  }

  lemma ClosingEvent(front: seq<Event>, tail: seq<Event>, i: nat)
    requires FrontShaped(front) && TailShaped(tail) && i < |front + tail| && (front + tail)[i].Finished?
    ensures var log := front + tail;
            && i == |log| - 1 && tail != [] && log[i] == tail[|tail| - 1]
            && (forall j | 0 <= j < i :: !log[j].Error? && !log[j].Finished?)
            && (i > 0 && log[i - 1].Warning? <==> !log[i].memorySaved && !Blank(log[i].answer))
            && (forall j | 0 <= j < i - 1 :: !log[j].Warning?)
  {
    hide Blank;
  }

  lemma ClosingError(front: seq<Event>, tail: seq<Event>, i: nat)
    requires FrontShaped(front) && TailShaped(tail) && i < |front + tail| && (front + tail)[i].Error?
    ensures i == |front + tail| - 1
  {
    hide Blank;
  }

  lemma EmptyTail()
    ensures TailShaped([])
  {
  }

  lemma TailHasNoText(tail: seq<Event>)
    requires TailShaped(tail)
    ensures Texts(tail) == ""
  {
    hide Blank, Texts;
    NoTexts(tail);
  }

  /** `finished` is the last event; no error precedes it; the model stream has closed, not failed, and the client has not
      left; it carries everything the model said, which is everything the deltas said, and the last finish reason. It claims
      that the memory is saved if and only if there was an answer and the save succeeded, and a warning comes just before it
      if and only if there was an answer that was not saved. */
  lemma FinishedTellsTheTruth(inputs: seq<Input>, persistence: Persistence, i: nat)
    requires i < |Log(inputs, "", "", persistence)| && Log(inputs, "", "", persistence)[i].Finished?
    ensures var log := Log(inputs, "", "", persistence);
            && i == |log| - 1
            && (forall j | 0 <= j < i :: !log[j].Error? && !log[j].Finished?)
            && (exists n :: 0 <= n < |inputs| && inputs[n].StreamClosed? && StillRunning(inputs, n)
                            && log[i].answer == Said(inputs, n) && log[i].reason == LastReason(inputs, n))
            && log[i].answer == Texts(log)
            && Truthful(log[i], persistence)
            && (i > 0 && log[i - 1].Warning? <==> !log[i].memorySaved && !Blank(log[i].answer))
            && (forall j | 0 <= j < i - 1 :: !log[j].Warning?)
  {
    var log := Log(inputs, "", "", persistence);
    var n, tail := RunShape(inputs, persistence);
    var front := Deltas(inputs, n);
    DeltasSay(inputs, n);
    hide Log, Tail, Truthful, Blank, Deltas, Texts, StillRunning, Said, LastReason, Continues;
    if n < |inputs| {
      TailShape(inputs[n], Said(inputs, n), LastReason(inputs, n), persistence);
    }
    assert TailShaped(tail);
    ClosingEvent(front, tail, i);
    TextsJoin(front, tail);
    TailHasNoText(tail);
    hide FrontShaped, TailShaped;
  }

  /** The memory a turn is saved as. The save normalises it and gives it its time. */
  function TurnMemory(id: string, agentId: string, userId: string, question: string, answer: string): Markdown.Memory {
    Markdown.Memory(id, TrimSpace(agentId), TrimSpace(userId), question, TrimSpace(answer), ZERO_TIME)
  }

  /** Whether `row` holds this turn. */
  predicate HoldsTurn(row: Row, agentId: string, userId: string, question: string, answer: string) {
    && row.version == DAILY_MARKDOWN_VERSION
    && row.memory.agentId == TrimSpace(agentId) && row.memory.userId == TrimSpace(userId)
    && row.memory.question == TrimSpace(question) && row.memory.answer == TrimSpace(answer)
  }

  /** A save of a turn that succeeds leaves a row that holds it. */
  lemma TurnIsHeld(st: Markdown.Stamps, s: State, id: string, agentId: string, userId: string, question: string,
                   answer: string, now: Time, fault: Fault)
    requires Save(st, s, TurnMemory(id, agentId, userId, question, answer), now, fault).1.error == None
    ensures var t := Save(st, s, TurnMemory(id, agentId, userId, question, answer), now, fault).0;
            TrimSpace(id) in t.rows && HoldsTurn(t.rows[TrimSpace(id)], agentId, userId, question, answer)
    ensures Save(st, s, TurnMemory(id, agentId, userId, question, answer), now, fault).1.markdownSynced
  {
    hide Save, TrimSpace, Trimmed;
    SaveLaws.SavedRowHasContent(st, s, TurnMemory(id, agentId, userId, question, answer), now, fault);
    TrimmedTwice(agentId);
    TrimmedTwice(userId);
    TrimmedTwice(answer);
  }

  lemma TrimmedTwice(s: string)
    ensures TrimSpace(TrimSpace(s)) == TrimSpace(s)
  {
    TrimSpaceIsTrimmed(s);
    hide TrimSpace;
  }

  /** When the closing event of a turn claims that its memory is saved, the database has a row under its ID with this turn's
      question and with the answer the event reports; and the save has kept both stores in order. */
  lemma SavedIsStored(st: Markdown.Stamps, s: State, id: string, agentId: string, userId: string, question: string,
                      now: Time, fault: Fault, message: string, inputs: seq<Input>, n: nat)
    requires n < |inputs| && inputs[n].StreamClosed? && StillRunning(inputs, n)
    ensures var (t, result) := Save(st, s, TurnMemory(id, agentId, userId, question, Said(inputs, n)), now, fault);
            var log := Log(inputs, "", "", Saves(id, result, message));
            && log != [] && log[|log| - 1].Finished?
            && var finished := log[|log| - 1];
            && (finished.memorySaved ==>
                  && finished.memoryId == id && finished.markdownSynced
                  && TrimSpace(id) in t.rows
                  && HoldsTurn(t.rows[TrimSpace(id)], agentId, userId, question, finished.answer))
            && (Markdown.Lawful(st) && Markdown.Datable(now) && SaveRuns.Safe(st, s) ==> SaveRuns.Safe(st, t))
  {
    hide Save, Log, TrimSpace, Markdown.Lawful, SaveRuns.Safe, Said, HoldsTurn, Deltas, Blank, LastReason, StillRunning,
         Markdown.Datable, TurnMemory;
    var raw := TurnMemory(id, agentId, userId, question, Said(inputs, n));
    var (t, result) := Save(st, s, raw, now, fault);
    var persistence := Saves(id, result, message);
    var log := Log(inputs, "", "", persistence);
    ClosesWithAnswer(inputs, n, persistence);
    if log[|log| - 1].memorySaved {
      TurnIsHeld(st, s, id, agentId, userId, question, Said(inputs, n), now, fault);
    }
    if Markdown.Lawful(st) && Markdown.Datable(now) && SaveRuns.Safe(st, s) {
      SaveRuns.SaveIsSafe(st, s, raw, now, fault);
    }
  }

  /** A run whose model stream closes ends with an event that tells the truth about it. */
  lemma ClosesWithAnswer(inputs: seq<Input>, n: nat, persistence: Persistence)
    requires n < |inputs| && inputs[n].StreamClosed? && StillRunning(inputs, n)
    ensures var log := Log(inputs, "", "", persistence);
            && log != [] && log[|log| - 1].Finished? && log[|log| - 1].answer == Said(inputs, n)
            && Truthful(log[|log| - 1], persistence)
  {
    LogSplits(inputs, n, persistence);
    LogStops(inputs, n, Said(inputs, n), LastReason(inputs, n), persistence);
    var tail := Tail(inputs[n], Said(inputs, n), LastReason(inputs, n), persistence);
    TailShape(inputs[n], Said(inputs, n), LastReason(inputs, n), persistence);
    assert tail != [] && tail[|tail| - 1].Finished?;
    hide Log, Tail, Said, LastReason, Deltas, Truthful, TailShaped, StillRunning;
    var log := Log(inputs, "", "", persistence);
    assert log == Deltas(inputs, n) + tail;
  }

  lemma {:induction false} NoTexts(events: seq<Event>)
    requires forall i | 0 <= i < |events| :: !events[i].TextDelta?
    ensures Texts(events) == ""
    decreases |events|
  {
    if events != [] {
      NoTexts(events[1..]);
    }
  }

  lemma FinishesWhenClosed(inputs: seq<Input>, n: nat, persistence: Persistence)
    requires n < |inputs| && inputs[n].StreamClosed? && StillRunning(inputs, n)
    ensures var log := Log(inputs, "", "", persistence);
            log != [] && log[|log| - 1].Finished?
  {
    hide Log, Said, StillRunning, Truthful;
    ClosesWithAnswer(inputs, n, persistence);
  }

  lemma ErrorsAreLast(inputs: seq<Input>, persistence: Persistence, i: nat)
    requires i < |Log(inputs, "", "", persistence)| && Log(inputs, "", "", persistence)[i].Error?
    ensures i == |Log(inputs, "", "", persistence)| - 1
  {
    var n, tail := RunShape(inputs, persistence);
    DeltasSay(inputs, n);
    if n < |inputs| {
      TailShape(inputs[n], Said(inputs, n), LastReason(inputs, n), persistence);
    }
    hide Log, Tail, Deltas, TailShaped, FrontShaped;
    EmptyTail();
    ClosingError(Deltas(inputs, n), tail, i);
  }

  /** What one more input adds to a run that has not ended, and that nothing is added to a run that has. */
  lemma OneMoreInput(inputs: seq<Input>, input: Input, persistence: Persistence)
    ensures var (log, longer) := (Log(inputs, "", "", persistence), Log(inputs + [input], "", "", persistence));
            longer == log + if StillRunning(inputs, |inputs|) then Added(inputs, input, persistence) else []
  {
    hide Log, Deltas, Said, LastReason, Added, Blank, Tail, Continues;
    var longer := inputs + [input];
    var n, tail := RunShape(inputs, persistence);
    assert longer[..|inputs|] == inputs;
    if n < |inputs| {
      RunStops(inputs, n, persistence);
      RunStops(longer, n, persistence);
      SameBeginning(inputs, longer, n);
      assert !StillRunning(inputs, |inputs|);
    } else {
      LogSplits(longer, n, persistence);
      SameBeginning(inputs, longer, n);
      LastInput(inputs, input, persistence);
    }
  }

  /** The events at the end of a run: deltas and heartbeats one by one; one error for a failed model stream; and, when it has
      closed, the outcome of saving the turn. */
  function Added(inputs: seq<Input>, input: Input, persistence: Persistence): seq<Event> {
    var (answer, reason) := (Said(inputs, |inputs|), LastReason(inputs, |inputs|));
    match input
    case ContextDone => []
    case Tick(ts) => [Heartbeat(ts)]
    case Model(ModelEvent(_, _, Some(message))) => [Error("model_stream_failed", message)]
    case Model(ModelEvent(text, _, None)) => if |text| == 0 then [] else [TextDelta(text)]
    case StreamClosed =>
      if TrimSpace(answer) == "" then [Finished(answer, "", false, false, reason)]
      else
        match persistence
        case EmbeddingFails(message) =>
          [Warning("embedding failed: " + message), Finished(answer, "", false, false, reason)]
        case Saves(_, SaveResult(synced, Some(_)), message) =>
          [Warning("memory save failed: " + message), Finished(answer, "", false, synced, reason)]
        case Saves(id, SaveResult(synced, None), _) => [Finished(answer, id, true, synced, reason)]
  }

  lemma LastInput(inputs: seq<Input>, input: Input, persistence: Persistence)
    ensures Log([input], Said(inputs, |inputs|), LastReason(inputs, |inputs|), persistence) == Added(inputs, input, persistence)
  {
    hide TrimSpace, Said, LastReason;
    var rest: seq<Input> := [];
    assert [input][1..] == rest;
  }

  lemma RunStops(inputs: seq<Input>, n: nat, persistence: Persistence)
    requires n < |inputs| && StillRunning(inputs, n) && !Continues(inputs[n])
    ensures Log(inputs, "", "", persistence) ==
            Deltas(inputs, n) + Tail(inputs[n], Said(inputs, n), LastReason(inputs, n), persistence)
  {
    hide Log, Tail, Said, LastReason, Deltas;
    LogSplits(inputs, n, persistence);
    LogStops(inputs, n, Said(inputs, n), LastReason(inputs, n), persistence);
  }

  lemma {:induction false} SameBeginning(a: seq<Input>, b: seq<Input>, n: nat)
    requires n <= |a| && n <= |b| && a[..n] == b[..n]
    ensures Deltas(a, n) == Deltas(b, n) && Said(a, n) == Said(b, n) && LastReason(a, n) == LastReason(b, n)
    ensures StillRunning(a, n) == StillRunning(b, n)
  {
    hide EventsOf, TextOf, Blank, Continues;
    assert forall j | 0 <= j < n :: a[j] == a[..n][j] && b[j] == b[..n][j];
    if n > 0 {
      assert a[..n - 1] == a[..n][..n - 1] && b[..n - 1] == b[..n][..n - 1];
      SameBeginning(a, b, n - 1);
    }
  }

  /** The finish reason of a run is the last one that is more than blanks. */
  lemma {:induction false} LastReasonIsLast(inputs: seq<Input>, n: nat) returns (last: int)
    requires n <= |inputs|
    ensures -1 <= last < n
    ensures last == -1 ==> LastReason(inputs, n) == ""
    ensures last >= 0 ==> inputs[last].Model? && inputs[last].event.reason == LastReason(inputs, n) && TrimSpace(LastReason(inputs, n)) != ""
    ensures forall j | last < j < n && inputs[j].Model? :: TrimSpace(inputs[j].event.reason) == ""
  {
    hide TrimSpace;
    if n == 0 {
      last := -1;
    } else if inputs[n - 1].Model? && !Blank(inputs[n - 1].event.reason) {
      last := n - 1;
    } else {
      last := LastReasonIsLast(inputs, n - 1);
    }
  }

  /** A model stream that fails is reported, with its message, after everything it said before. */
  lemma FailureIsReported(inputs: seq<Input>, n: nat, persistence: Persistence)
    requires n < |inputs| && StillRunning(inputs, n) && inputs[n].Model? && inputs[n].event.error.Some?
    ensures Log(inputs, "", "", persistence) ==
            Deltas(inputs, n) + [Error("model_stream_failed", inputs[n].event.error.value)]
  {
    hide Log, Said, LastReason, Deltas, StillRunning, Persisted;
    RunStops(inputs, n, persistence);
  }

  /** And there is no other reason for an error. */
  lemma ErrorIffFailure(inputs: seq<Input>, persistence: Persistence)
    ensures (exists e | e in Log(inputs, "", "", persistence) :: e.Error?)
            <==> exists n :: 0 <= n < |inputs| && StillRunning(inputs, n) && inputs[n].Model? && inputs[n].event.error.Some?
  {
    hide Log, Said, LastReason, Deltas, StillRunning, Tail, FrontShaped;
    var n, tail := RunShape(inputs, persistence);
    DeltasSay(inputs, n);
    if n < |inputs| {
      OnlyFailureIsError(inputs[n], Said(inputs, n), LastReason(inputs, n), persistence);
    }
    FrontHasNoError(Deltas(inputs, n));
    forall m | 0 <= m < |inputs| && StillRunning(inputs, m) && inputs[m].Model? && inputs[m].event.error.Some?
      ensures Error("model_stream_failed", inputs[m].event.error.value) in Log(inputs, "", "", persistence)
    {
      FailureIsReported(inputs, m, persistence);
    }
  }

  lemma FrontHasNoError(front: seq<Event>)
    requires FrontShaped(front)
    ensures forall e | e in front :: !e.Error?
  {
  }

  lemma OnlyFailureIsError(input: Input, answer: string, reason: string, persistence: Persistence)
    ensures (exists e | e in Tail(input, answer, reason, persistence) :: e.Error?) ==> input.Model? && input.event.error.Some?
  {
    hide Blank;
  }

  // ---- End to end ----

  /** On a connection that holds, the client receives the failure of the model stream with its message, after everything the
      model said. */
  lemma FailureIsReceived(c: Codec, inputs: seq<Input>, n: nat, persistence: Persistence, readError: bool)
    requires Lawful(c, Log(inputs, "", "", persistence))
    requires n < |inputs| && StillRunning(inputs, n) && inputs[n].Model? && inputs[n].event.error.Some?
    ensures Client(c, Cut(Frames(c, Log(inputs, "", "", persistence)), None), readError) ==
            Visible(Deltas(inputs, n))
            + [Received(Error("model_stream_failed", inputs[n].event.error.value))]
            + (if readError then [Failure] else [])
    ensures TextsReceived(Visible(Deltas(inputs, n))) == Said(inputs, n)
  {
    hide Log, Lawful, Client, Frames, Visible, StillRunning, Deltas, TextsReceived, Texts, Said;
    FailureIsReported(inputs, n, persistence);
    RoundTrip(c, Log(inputs, "", "", persistence));
    LastIsVisible(Deltas(inputs, n), Error("model_stream_failed", inputs[n].event.error.value));
    DeltasSay(inputs, n);
    VisibleTexts(Deltas(inputs, n));
  }

  function TextsReceived(received: seq<ClientEvent>): string {
    if received == [] then ""
    else (if received[0].Received? && received[0].event.TextDelta? then received[0].event.text else "")
         + TextsReceived(received[1..])
  }

  lemma {:induction false} VisibleTexts(events: seq<Event>)
    ensures TextsReceived(Visible(events)) == Texts(events)
    decreases |events|
  {
    if events != [] {
      VisibleTexts(events[1..]);
      assert [Received(events[0])] + Visible(events[1..]) != [];
      assert ([Received(events[0])] + Visible(events[1..]))[1..] == Visible(events[1..]);
      assert [] + Visible(events[1..]) == Visible(events[1..]);
    }
  }

  lemma {:induction false} VisibleComesFrom(events: seq<Event>, i: nat)
    requires i < |Visible(events)|
    ensures Visible(events)[i].Received? && Visible(events)[i].event in events && !Visible(events)[i].event.Heartbeat?
    decreases |events|
  {
    if events[0].Heartbeat? {
      VisibleComesFrom(events[1..], i);
    } else if i > 0 {
      VisibleComesFrom(events[1..], i - 1);
    }
  }

  /** Whatever the model does, however saving goes and wherever the connection breaks: if the client receives `finished`,
      then only text and warnings came before it, nothing but a read error follows it, and its answer is exactly the text the
      client has received. */
  lemma EndToEnd(c: Codec, inputs: seq<Input>, persistence: Persistence, budget: Option<nat>, readError: bool, i: nat)
    requires Lawful(c, Log(inputs, "", "", persistence))
    ensures var received := Client(c, Cut(Frames(c, Log(inputs, "", "", persistence)), budget), readError);
            i < |received| && received[i].Received? && received[i].event.Finished? ==>
              && (forall j | 0 <= j < i :: received[j].Received? && (received[j].event.TextDelta? || received[j].event.Warning?))
              && received[i + 1..] == (if readError then [Failure] else [])
              && received[i].event.answer == TextsReceived(received)
  {
    var log := Log(inputs, "", "", persistence);
    hide Log, Lawful, Cut, Frames, Client;
    TornStream(c, log, budget, readError);
    var received := Client(c, Cut(Frames(c, log), budget), readError);
    var k :| Beginning(log, received, readError, k);
    if i < |received| && received[i].Received? && received[i].event.Finished? {
      FinishedEndsStream(inputs, persistence, received, readError, k, i);
    }
  }

  lemma FinishedEndsStream(inputs: seq<Input>, persistence: Persistence, received: seq<ClientEvent>, readError: bool, k: nat,
                           i: nat)
    requires Beginning(Log(inputs, "", "", persistence), received, readError, k)
    requires i < |received| && received[i].Received? && received[i].event.Finished?
    ensures forall j | 0 <= j < i :: received[j].Received? && (received[j].event.TextDelta? || received[j].event.Warning?)
    ensures received[i + 1..] == if readError then [Failure] else []
    ensures received[i].event.answer == TextsReceived(received)
  {
    var log := Log(inputs, "", "", persistence);
    hide Log, Visible, Texts, TextsReceived, Truthful, StillRunning, Said, LastReason, Blank;
    VisibleComesFrom(log[..k], i);
    var at: nat :| at < k && log[at] == received[i].event;
    FinishedTellsTheTruth(inputs, persistence, at);
    assert log[..k] == log;
    SeenLast(log, received, readError, i);
  }

  /** What a client has received that has seen the whole of a run which ends with `finished`. */
  lemma SeenLast(log: seq<Event>, received: seq<ClientEvent>, readError: bool, i: nat)
    requires log != [] && log[|log| - 1].Finished? && log[|log| - 1].answer == Texts(log)
    requires forall j | 0 <= j < |log| - 1 :: !log[j].Error? && !log[j].Finished?
    requires received == Visible(log) + if readError then [Failure] else []
    requires i < |received| && received[i].Received? && received[i].event.Finished?
    ensures forall j | 0 <= j < i :: received[j].Received? && (received[j].event.TextDelta? || received[j].event.Warning?)
    ensures received[i + 1..] == if readError then [Failure] else []
    ensures received[i].event.answer == TextsReceived(received)
  {
    var (front, last) := (log[..|log| - 1], log[|log| - 1]);
    FrontIsPlain(front);
    LastIsVisible(front, last);
    ReceivedTexts(log, received, readError);
    hide Visible, Texts, TextsReceived;
    assert log == front + [last];
    SeenOnce(Visible(front), last, received, readError, i);
  }

  lemma LastIsVisible(front: seq<Event>, last: Event)
    requires !last.Heartbeat?
    ensures Visible(front + [last]) == Visible(front) + [Received(last)]
  {
    VisibleJoin(front, [last]);
    VisibleOne(last, Visible(front));
  }

  lemma ReceivedTexts(log: seq<Event>, received: seq<ClientEvent>, readError: bool)
    requires received == Visible(log) + if readError then [Failure] else []
    ensures TextsReceived(received) == Texts(log)
  {
    VisibleTexts(log);
    FailureHasNoText(Visible(log));
    hide Visible, Texts, TextsReceived;
    assert Visible(log) + [] == Visible(log);
  }

  lemma SeenOnce(front: seq<ClientEvent>, last: Event, received: seq<ClientEvent>, readError: bool, i: nat)
    requires forall j | 0 <= j < |front| :: front[j].Received? && (front[j].event.TextDelta? || front[j].event.Warning?)
    requires last.Finished? && received == front + [Received(last)] + if readError then [Failure] else []
    requires i < |received| && received[i].Received? && received[i].event.Finished?
    ensures i == |front| && received[i].event == last
    ensures received[i + 1..] == if readError then [Failure] else []
    ensures forall j | 0 <= j < i :: received[j] == front[j]
  {
    assert forall j | 0 <= j < |front| :: received[j] == front[j];
  }

  lemma FrontIsPlain(front: seq<Event>)
    requires forall j | 0 <= j < |front| :: !front[j].Error? && !front[j].Finished?
    ensures forall j | 0 <= j < |Visible(front)| ::
              Visible(front)[j].Received? && (Visible(front)[j].event.TextDelta? || Visible(front)[j].event.Warning?)
  {
    forall j | 0 <= j < |Visible(front)|
      ensures Visible(front)[j].Received? && (Visible(front)[j].event.TextDelta? || Visible(front)[j].event.Warning?)
    {
      VisibleComesFrom(front, j);
    }
  }

  lemma {:induction false} FailureHasNoText(received: seq<ClientEvent>)
    ensures TextsReceived(received + [Failure]) == TextsReceived(received)
    decreases |received|
  {
    if received != [] {
      assert (received + [Failure])[1..] == received[1..] + [Failure];
      FailureHasNoText(received[1..]);
    } else {
      assert received + [Failure] == [Failure];
    }
  }
}
