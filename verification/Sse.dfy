/** The event stream of a question: `writeSSE` of `internal/transport/http/sse.go` prints it, `streamEvents` of
    `internal/cli/client/http_client.go` reads it back. */
module Sse {
  import opened Text

  datatype Event =
    | TextDelta(text: string)
    | Warning(message: string)
    | Finished(answer: string, memoryId: string, memorySaved: bool, markdownSynced: bool, reason: string)
    | Error(code: string, message: string)
    | Heartbeat(ts: string)

  function Name(e: Event): string {
    match e
    case TextDelta(_) => "text_delta"
    case Warning(_) => "warning"
    case Finished(_, _, _, _, _) => "finished"
    case Error(_, _) => "error"
    case Heartbeat(_) => "heartbeat"
  }

  /** JSON: `decode` reads the body of an event with a given name, and gives nothing where the body is not valid. */
  datatype Codec = Codec(encode: Event -> string, decode: (string, string) -> Option<Event>)

  /** What is taken for granted of the JSON object that carries an event: printed on one line without blanks around it, read
      back as printed, and not readable when cut short. It holds of every event whose texts are valid UTF-8. */
  ghost predicate Encodes(c: Codec, e: Event) {
    && c.encode(e) != "" && OneLine(c.encode(e)) && Trimmed(c.encode(e))
    && (!e.Heartbeat? ==> c.decode(Name(e), c.encode(e)) == Some(e))
    && (!e.Heartbeat? ==> forall k | 0 <= k < |c.encode(e)| :: Unreadable(c, e, k))
  }

  ghost predicate Lawful(c: Codec, events: seq<Event>) {
    forall e | e in events :: Encodes(c, e)
  }

  /** The first `k` bytes of a body, blanks trimmed, do not decode. */
  ghost predicate Unreadable(c: Codec, e: Event, k: nat)
    requires k <= |c.encode(e)|
  {
    c.decode(Name(e), TrimSpace(c.encode(e)[..k])) == None
  }

  predicate OneLine(s: string) {
    forall i | 0 <= i < |s| :: s[i] != '\n' && s[i] != '\r'
  }

  // ---- The writer ----

  function NameLine(e: Event): string {
    "event: " + Name(e)
  }

  function DataLine(c: Codec, e: Event): string {
    "data: " + c.encode(e)
  }

  function Frame(c: Codec, e: Event): string {
    NameLine(e) + "\n" + (DataLine(c, e) + "\n\n")
  }

  function Frames(c: Codec, events: seq<Event>): string {
    if events == [] then "" else Frame(c, events[0]) + Frames(c, events[1..])
  }

  /** What reaches the other end of a connection that breaks after `budget` bytes, if at all. */
  function Cut(s: string, budget: Option<nat>): string {
    if budget.Some? && budget.value < |s| then s[..budget.value] else s
  }

  /** The response writer, on a connection that takes `budget` more bytes, or any number. */
  class Response {
    var body: string
    var budget: Option<nat>

    constructor (budget: Option<nat>)
      ensures body == "" && this.budget == budget
    {
      body, this.budget := "", budget;
    }

    method Write(s: string) returns (ok: bool)
      modifies this
      ensures body == old(body) + Cut(s, old(budget))
      ensures exists n | 0 <= n <= |s| ::
                && body == old(body) + s[..n] && (n < |s| ==> old(budget) == Some(n)) && (ok <==> n == |s|)
      ensures ok <==> (old(budget).Some? ==> |s| <= old(budget).value)
      ensures budget == if old(budget).None? then None else Some(old(budget).value - |Cut(s, old(budget))|)
    {
      ok := budget.None? || |s| <= budget.value;
      var sent := Cut(s, budget);
      assert s[..|sent|] == sent;
      body := body + sent;
      if budget.Some? {
        budget := Some(budget.value - |sent|);
      }
    }

    /** Either the whole frame is written, or the connection has broken and what it took has been written. */
    method WriteSse(c: Codec, e: Event) returns (ok: bool)
      modifies this
      ensures body == old(body) + Cut(Frame(c, e), old(budget))
      ensures ok <==> (old(budget).Some? ==> |Frame(c, e)| <= old(budget).value)
      ensures budget == if old(budget).None? then None else Some(old(budget).value - |Cut(Frame(c, e), old(budget))|)
    {
      hide Name;
      var data := c.encode(e);
      assert Frame(c, e) == ("event: " + Name(e) + "\n") + ("data: " + data + "\n\n");
      ok := Write("event: " + Name(e) + "\n");
      if !ok {
        return;
      }
      ok := Write("data: " + data + "\n\n");
    }
  }

  // ---- The reader ----

  datatype ClientEvent = Received(event: Event) | Failure

  function DropReturn(line: string): string {
    if line != "" && line[|line| - 1] == '\r' then line[..|line| - 1] else line
  }

  /** The first line of `s`, and what follows it. */
  function NextLine(s: string): (r: (string, string))
    requires s != ""
    ensures |r.1| < |s|
  {
    match Index(s, "\n")
    case None => (DropReturn(s), "")
    case Some(i) => (DropReturn(s[..i]), s[i + 1..])
  }

  /** The lines a scanner finds; the last need not be terminated. */
  function Lines(s: string): seq<string>
    decreases |s|
  {
    if s == "" then [] else [NextLine(s).0] + Lines(NextLine(s).1)
  }

  datatype Parser = Parser(name: string, data: seq<string>, events: seq<ClientEvent>, stopped: bool)

  const START := Parser("", [], [], false)

  function Join(parts: seq<string>): string {
    if |parts| == 0 then "" else if |parts| == 1 then parts[0] else parts[0] + "\n" + Join(parts[1..])
  }

  /** `decodeEvent`: nothing for an unknown name or an invalid body. */
  function DecodeEvent(c: Codec, name: string, data: string): Option<Event> {
    if name == "heartbeat" then Some(Heartbeat(""))
    else if name == "text_delta" || name == "warning" || name == "finished" || name == "error" then c.decode(name, data)
    else None
  }

  function Emit(c: Codec, p: Parser): Parser {
    if TrimSpace(p.name) == "" then Parser("", [], p.events, p.stopped)
    else
      match DecodeEvent(c, p.name, Join(p.data))
      case None => p.(events := p.events + [Failure], stopped := true)
      case Some(e) => Parser("", [], if e.Heartbeat? then p.events else p.events + [Received(e)], p.stopped)
  }

  function OnLine(c: Codec, p: Parser, line: string): Parser {
    if line == "" then Emit(c, p)
    else if ":" <= line then p
    else if "event:" <= line then p.(name := TrimSpace(line[6..]))
    else if "data:" <= line then p.(data := p.data + [TrimSpace(line[5..])])
    else p
  }

  function Feed(c: Codec, p: Parser, lines: seq<string>): Parser
    decreases |lines|
  {
    if p.stopped || lines == [] then p else Feed(c, OnLine(c, p, lines[0]), lines[1..])
  }

  /** After the last line: a read error is an event of its own; the end of the stream completes an unfinished event. */
  function AtEnd(c: Codec, p: Parser, readError: bool): seq<ClientEvent> {
    if p.stopped then p.events
    else if readError then p.events + [Failure]
    else Emit(c, p).events
  }

  function Client(c: Codec, body: string, readError: bool): seq<ClientEvent> {
    AtEnd(c, Feed(c, START, Lines(body)), readError)
  }

  method StreamEvents(c: Codec, body: string, readError: bool) returns (events: seq<ClientEvent>)
    ensures events == Client(c, body, readError)
  {
    hide TrimSpace, Index, DecodeEvent, Join;
    var eventName, dataLines := "", [];
    events := [];
    var rest := body;
    while rest != ""
      invariant Feed(c, START, Lines(body)) == Feed(c, Parser(eventName, dataLines, events, false), Lines(rest))
      decreases |rest|
    {
      ghost var p := Parser(eventName, dataLines, events, false);
      var (line, next) := NextLine(rest);
      assert Lines(rest)[0] == line && Lines(rest)[1..] == Lines(next);
      rest := next;
      if line == "" {
        if TrimSpace(eventName) == "" {
          eventName, dataLines := "", [];
          continue;
        }
        var event := DecodeEvent(c, eventName, Join(dataLines));
        if event.None? {
          events := events + [Failure];
          return;
        }
        if !event.value.Heartbeat? {
          events := events + [Received(event.value)];
        }
        eventName, dataLines := "", [];
        continue;
      }
      if ":" <= line {
        continue;
      }
      if "event:" <= line {
        eventName := TrimSpace(line[6..]);
        continue;
      }
      if "data:" <= line {
        dataLines := dataLines + [TrimSpace(line[5..])];
      }
    }
    if readError {
      events := events + [Failure];
      return;
    }
    if TrimSpace(eventName) != "" {
      var event := DecodeEvent(c, eventName, Join(dataLines));
      if event.None? {
        events := events + [Failure];
      } else if !event.value.Heartbeat? {
        events := events + [Received(event.value)];
      }
    }
  }

  // ---- What any stream means to the reader ----

  /** The text of a frame. */
  lemma FrameText(c: Codec, e: Event)
    ensures var kind :=
              match e
              case TextDelta(_) => "text_delta"
              case Warning(_) => "warning"
              case Finished(_, _, _, _, _) => "finished"
              case Error(_, _) => "error"
              case Heartbeat(_) => "heartbeat";
            Frame(c, e) == "event: " + kind + "\n" + "data: " + c.encode(e) + "\n\n"
  {
    KindIsName(e);
    hide Name;
  }

  lemma KindIsName(e: Event)
    ensures Name(e) == match e
                       case TextDelta(_) => "text_delta"
                       case Warning(_) => "warning"
                       case Finished(_, _, _, _, _) => "finished"
                       case Error(_, _) => "error"
                       case Heartbeat(_) => "heartbeat"
  {
  }

  /** A line ends at the first line feed; one carriage return before it is not part of the line. */
  lemma LineEnds(line: string, tail: string)
    requires '\n' !in line
    ensures Lines(line + "\r\n" + tail) == [line] + Lines(tail)
    ensures (line != "" ==> line[|line| - 1] != '\r') ==> Lines(line + "\n" + tail) == [line] + Lines(tail)
    ensures line != "" && line[|line| - 1] != '\r' ==> Lines(line) == [line]
  {
    hide *;
    FirstLine(line + "\r", tail);
    FirstLine(line, tail);
    assert line + "\r" + "\n" + tail == line + "\r\n" + tail;
    ReturnDropped(line);
    if line != "" {
      OnlyLine(line);
    }
  }

  lemma ReturnDropped(line: string)
    ensures DropReturn(line + "\r") == line
    ensures (line != "" ==> line[|line| - 1] != '\r') ==> DropReturn(line) == line
  {
  }

  lemma FirstLine(line: string, tail: string)
    requires '\n' !in line
    ensures NextLine(line + "\n" + tail) == (DropReturn(line), tail)
    ensures Lines(line + "\n" + tail) == [DropReturn(line)] + Lines(tail)
  {
    var s := line + "\n" + tail;
    assert s[|line|..|line| + 1] == "\n";
    forall j: nat | j < |line|
      ensures !OccursAt(s, "\n", j)
    {
      assert s[j..j + 1] == [line[j]];
    }
    IndexUnique(s, "\n", |line|);
    assert s[..|line|] == line && s[|line| + 1..] == tail;
    hide Index, DropReturn;
  }

  lemma OnlyLine(line: string)
    requires '\n' !in line && line != ""
    ensures Lines(line) == [DropReturn(line)]
  {
    forall j: nat
      ensures !OccursAt(line, "\n", j)
    {
      if OccursAt(line, "\n", j) {
        OccursCharacter(line, "\n", j, 0);
        assert false;
      }
    }
    IndexIsFirst(line, "\n");
    hide DropReturn, Index;
  }

  /** The values of a field in a block of lines, blanks trimmed. */
  function Values(block: seq<string>, field: string): seq<string> {
    if block == [] then []
    else
      var (front, line) := (block[..|block| - 1], block[|block| - 1]);
      Values(front, field) + if field <= line then [TrimSpace(line[|field|..])] else []
  }

  /** The name of the event that a block of lines stands for: the last one it gives. */
  function NameOf(block: seq<string>): string {
    var names := Values(block, "event:");
    if names == [] then "" else names[|names| - 1]
  }

  function DataOf(block: seq<string>): string {
    Join(Values(block, "data:"))
  }

  lemma {:induction false} JoinMore(parts: seq<string>, last: string)
    ensures Join(parts + [last]) == if parts == [] then last else Join(parts) + "\n" + last
    decreases |parts|
  {
    if |parts| > 0 {
      JoinMore(parts[1..], last);
      assert (parts + [last])[1..] == parts[1..] + [last];
    } else {
      assert parts + [last] == [last];
    }
  }

  /** While a block is read, the parser holds its name and its data; comments and unknown fields change nothing. */
  lemma {:induction false} BlockIsHeld(c: Codec, p: Parser, block: seq<string>, rest: seq<string>)
    requires Idle(p) && forall line | line in block :: line != ""
    ensures Feed(c, p, block + rest) == Feed(c, p.(name := NameOf(block), data := Values(block, "data:")), rest)
    decreases |block|
  {
    hide *;
    if block == [] {
      NothingHeld(p, block);
      assert block + rest == rest;
    } else {
      var (front, line) := (block[..|block| - 1], block[|block| - 1]);
      assert line in block && forall other | other in front :: other in block;
      BlockIsHeld(c, p, front, [line] + rest);
      assert front + ([line] + rest) == block + rest;
      var q := p.(name := NameOf(front), data := Values(front, "data:"));
      IdleRuns(p);
      OneStep(c, q, line, rest);
      LineIsHeld(c, p, front, line);
      assert front + [line] == block;
    }
  }

  lemma IdleRuns(p: Parser)
    requires Idle(p)
    ensures !p.stopped
  {
  }

  lemma NothingHeld(p: Parser, block: seq<string>)
    requires Idle(p) && block == []
    ensures p == p.(name := NameOf(block), data := Values(block, "data:"))
  {
  }

  lemma ValuesMore(front: seq<string>, line: string, field: string)
    ensures Values(front + [line], field) == Values(front, field) + if field <= line then [TrimSpace(line[|field|..])] else []
  {
    hide TrimSpace;
    assert (front + [line])[..|front + [line]| - 1] == front;
  }

  lemma LineIsHeld(c: Codec, p: Parser, front: seq<string>, line: string)
    requires line != ""
    ensures OnLine(c, p.(name := NameOf(front), data := Values(front, "data:")), line) ==
            p.(name := NameOf(front + [line]), data := Values(front + [line], "data:"))
  {
    ValuesMore(front, line, "event:");
    ValuesMore(front, line, "data:");
    hide Values, TrimSpace, Emit;
    assert "event:"[0] == 'e' && "data:"[0] == 'd' && ":"[0] == ':';
    assert Values(front, "event:") + [] == Values(front, "event:") && Values(front, "data:") + [] == Values(front, "data:");
  }

  /** What the client is told of a block: nothing for one without a name and for a heartbeat, the event if its data can be
      read under its name, and otherwise a failure. */
  ghost predicate Told(c: Codec, block: seq<string>, told: seq<ClientEvent>) {
    var name := NameOf(block);
    if name == "" || name == "heartbeat" then told == []
    else if name !in {"text_delta", "warning", "finished", "error"} then told == [Failure]
    else
      match c.decode(name, DataOf(block))
      case None => told == [Failure]
      case Some(e) => told == if e.Heartbeat? then [] else [Received(e)]
  }

  lemma EmptyNameIsBlank()
    ensures TrimSpace("") == ""
  {
  }

  lemma {:induction false} ValuesAreTrimmed(block: seq<string>, field: string)
    ensures forall i | 0 <= i < |Values(block, field)| :: Trimmed(Values(block, field)[i])
  {
    hide TrimSpace, Trimmed;
    if block != [] {
      ValuesAreTrimmed(block[..|block| - 1], field);
      if field <= block[|block| - 1] {
        TrimSpaceIsTrimmed(block[|block| - 1][|field|..]);
      }
    }
  }

  lemma NameIsTrimmed(block: seq<string>)
    ensures TrimSpace(NameOf(block)) == NameOf(block)
  {
    EmptyNameIsBlank();
    ValuesAreTrimmed(block, "event:");
    if Values(block, "event:") != [] {
      TrimmedIsFixed(NameOf(block));
    }
    hide TrimSpace, Values, Trimmed;
  }

  lemma BlockIsTold(c: Codec, p: Parser, block: seq<string>) returns (told: seq<ClientEvent>)
    requires Idle(p)
    ensures Told(c, block, told)
    ensures var q := Emit(c, p.(name := NameOf(block), data := Values(block, "data:")));
            && q.events == p.events + told && (q.stopped <==> told == [Failure])
            && (told != [Failure] ==> q == Parser("", [], p.events + told, false))
  {
    NameIsTrimmed(block);
    hide TrimSpace, Values, NameOf, Join;
    told := Emit(c, p.(name := NameOf(block), data := Values(block, "data:"))).events[|p.events|..];
  }

  /** Any stream, block by block: a block of lines up to an empty line is told to the client; after a failure the rest is not
      read; otherwise the reader starts afresh behind it. */
  lemma BlockRead(c: Codec, p: Parser, block: seq<string>, rest: seq<string>) returns (told: seq<ClientEvent>)
    requires Idle(p) && forall line | line in block :: line != ""
    ensures Told(c, block, told)
    ensures if told == [Failure] then
              Feed(c, p, block + [""] + rest).events == p.events + told && Feed(c, p, block + [""] + rest).stopped
            else Feed(c, p, block + [""] + rest) == Feed(c, p.(events := p.events + told), rest)
  {
    told := BlockIsTold(c, p, block);
    BlockIsHeld(c, p, block, [""] + rest);
    assert block + ([""] + rest) == block + [""] + rest;
    var q := p.(name := NameOf(block), data := Values(block, "data:"));
    OneStep(c, q, "", rest);
    BlankEmits(c, q);
    hide Told, NameOf, Values, Emit, OnLine;
  }

  lemma BlankEmits(c: Codec, q: Parser)
    ensures OnLine(c, q, "") == Emit(c, q)
  {
  }

  /** And a last block that no empty line ends is told at the end of the stream, unless reading has failed. */
  lemma LastBlockRead(c: Codec, p: Parser, block: seq<string>, readError: bool) returns (told: seq<ClientEvent>)
    requires Idle(p) && forall line | line in block :: line != ""
    ensures Told(c, block, told)
    ensures AtEnd(c, Feed(c, p, block), readError) == p.events + if readError then [Failure] else told
  {
    told := BlockIsTold(c, p, block);
    BlockIsHeld(c, p, block, []);
    assert block + [] == block;
    var q := p.(name := NameOf(block), data := Values(block, "data:"));
    NoFeed(c, q);
    hide Told, NameOf, Values, Emit, OnLine, Feed;
  }

  // ---- The round trip ----

  /** What a client is meant to see of a list of events. */
  function Visible(events: seq<Event>): seq<ClientEvent> {
    if events == [] then []
    else (if events[0].Heartbeat? then [] else [Received(events[0])]) + Visible(events[1..])
  }

  lemma LineSplits(line: string, tail: string)
    requires OneLine(line)
    ensures NextLine(line + "\n" + tail) == (line, tail)
  {
    var s := line + "\n" + tail;
    assert s[|line|..|line| + 1] == "\n";
    forall j: nat | j < |line|
      ensures !OccursAt(s, "\n", j)
    {
      assert s[j..j + 1] == [line[j]];
    }
    IndexUnique(s, "\n", |line|);
    assert s[..|line|] == line && s[|line| + 1..] == tail;
  }

  lemma LineThenLines(line: string, tail: string)
    requires OneLine(line)
    ensures Lines(line + "\n" + tail) == [line] + Lines(tail)
  {
    LineSplits(line, tail);
    hide NextLine, OneLine;
  }

  lemma LastLine(line: string)
    requires OneLine(line) && line != ""
    ensures Lines(line) == [line]
  {
    forall j: nat
      ensures !OccursAt(line, "\n", j)
    {
      if OccursAt(line, "\n", j) {
        OccursCharacter(line, "\n", j, 0);
        assert false;
      }
    }
    IndexIsFirst(line, "\n");
  }

  /** What event names are made of. */
  predicate Word(s: string) {
    s != "" && forall i | 0 <= i < |s| :: 'a' <= s[i] <= 'z' || s[i] == '_'
  }

  lemma NameIsWord(e: Event)
    ensures Word(Name(e)) && |Name(e)| >= 3
  {
  }

  /** A word is a line without blanks around it. */
  lemma WordIsPlain(s: string)
    requires Word(s)
    ensures OneLine(s) && Trimmed(s)
  {
    hide TrimSpace, Trimmed;
    PlainIsTrimmed(s);
  }

  lemma OneLineJoins(a: string, b: string)
    requires OneLine(a) && OneLine(b)
    ensures OneLine(a + b)
  {
  }

  lemma ThreeLines(name: string, data: string, tail: string)
    requires OneLine(name) && OneLine(data)
    ensures Lines(name + "\n" + (data + "\n\n") + tail) == [name, data, ""] + Lines(tail)
  {
    EmptyIsOneLine();
    hide Lines, OneLine;
    var blank := "" + "\n" + tail;
    var rest := data + "\n" + blank;
    assert name + "\n" + (data + "\n\n") + tail == name + "\n" + rest by {
      assert "\n\n" == "\n" + ("" + "\n");
    }
    LineThenLines(name, rest);
    LineThenLines(data, blank);
    LineThenLines("", tail);
  }

  lemma FrameLines(c: Codec, e: Event, tail: string)
    requires Encodes(c, e)
    ensures OneLine(NameLine(e)) && OneLine(DataLine(c, e))
    ensures Lines(Frame(c, e) + tail) == [NameLine(e), DataLine(c, e), ""] + Lines(tail)
  {
    LinesOfFrame(c, e);
    hide Encodes, OneLine, NameLine, DataLine, Lines;
    ThreeLines(NameLine(e), DataLine(c, e), tail);
  }

  lemma EmptyIsOneLine()
    ensures OneLine("")
  {
  }

  lemma LinesOfFrame(c: Codec, e: Event)
    requires Encodes(c, e)
    ensures OneLine(NameLine(e)) && OneLine(DataLine(c, e))
  {
    hide Name;
    NameIsWord(e);
    WordIsPlain(Name(e));
    assert OneLine("event: ") && OneLine("data: ");
    OneLineJoins("event: ", Name(e));
    OneLineJoins("data: ", c.encode(e));
  }

  // ---- Reading what was written ----

  predicate Idle(p: Parser) {
    p.name == "" && p.data == [] && !p.stopped
  }

  lemma ReadName(c: Codec, p: Parser, e: Event)
    requires !p.stopped
    ensures OnLine(c, p, NameLine(e)) == p.(name := Name(e))
  {
    hide Name, TrimSpace, Trimmed;
    NameIsWord(e);
    WordIsPlain(Name(e));
    BlankIsTrimmed(Name(e));
    var line := NameLine(e);
    assert line[0] == 'e' && line[..6] == "event:" && line[6..] == " " + Name(e);
  }

  lemma ReadData(c: Codec, p: Parser, e: Event)
    requires Encodes(c, e) && !p.stopped
    ensures OnLine(c, p, DataLine(c, e)) == p.(data := p.data + [c.encode(e)])
  {
    hide TrimSpace, Trimmed;
    BlankIsTrimmed(c.encode(e));
    var line := DataLine(c, e);
    assert line[0] == 'd' && line[..5] == "data:" && line[5..] == " " + c.encode(e);
  }

  lemma Known(c: Codec, e: Event, data: string)
    ensures DecodeEvent(c, Name(e), data) == if e.Heartbeat? then Some(Heartbeat("")) else c.decode(Name(e), data)
  {
  }

  /** Reading one frame adds its event, unless it is a heartbeat. */
  lemma ReadFrame(c: Codec, p: Parser, e: Event, tail: string)
    requires Encodes(c, e) && Idle(p)
    ensures Feed(c, p, Lines(Frame(c, e) + tail)) == Feed(c, p.(events := p.events + Visible([e])), Lines(tail))
  {
    hide Lines, Feed, OnLine, Frame, Encodes, NameLine, DataLine, Name;
    FrameLines(c, e, tail);
    ReadName(c, p, e);
    var p1 := p.(name := Name(e));
    ReadData(c, p1, e);
    var p2 := p1.(data := [] + [c.encode(e)]);
    ReadBlank(c, p2, e);
    ThreeSteps(c, p, NameLine(e), DataLine(c, e), "", Lines(tail));
  }

  lemma ReadBlank(c: Codec, p: Parser, e: Event)
    requires Encodes(c, e) && p.name == Name(e) && p.data == [c.encode(e)] && !p.stopped
    ensures OnLine(c, p, "") == Parser("", [], p.events + Visible([e]), false)
  {
    hide Name, TrimSpace, Trimmed;
    NameIsWord(e);
    WordIsPlain(Name(e));
    Known(c, e, c.encode(e));
    assert Join(p.data) == c.encode(e);
    hide DecodeEvent;
    assert TrimSpace(p.name) == p.name by {
      assert Trimmed(Name(e));
      TrimmedIsFixed(Name(e));
    }
    assert p.events + [] == p.events;
  }

  lemma TrimmedIsFixed(s: string)
    requires Trimmed(s)
    ensures TrimSpace(s) == s
  {
  }

  lemma OneStep(c: Codec, p: Parser, a: string, lines: seq<string>)
    requires !p.stopped
    ensures Feed(c, p, [a] + lines) == Feed(c, OnLine(c, p, a), lines)
  {
    hide OnLine;
    assert ([a] + lines)[1..] == lines;
  }

  lemma ThreeSteps(c: Codec, p: Parser, a: string, b: string, d: string, lines: seq<string>)
    requires !p.stopped && !OnLine(c, p, a).stopped && !OnLine(c, OnLine(c, p, a), b).stopped
    ensures Feed(c, p, [a, b, d] + lines) == Feed(c, OnLine(c, OnLine(c, OnLine(c, p, a), b), d), lines)
  {
    hide OnLine;
    OneStep(c, p, a, [b, d] + lines);
    assert [a] + ([b, d] + lines) == [a, b, d] + lines;
    OneStep(c, OnLine(c, p, a), b, [d] + lines);
    assert [b] + ([d] + lines) == [b, d] + lines;
    OneStep(c, OnLine(c, OnLine(c, p, a), b), d, lines);
  }

  lemma LawfulParts(c: Codec, events: seq<Event>, k: nat)
    requires Lawful(c, events) && k <= |events|
    ensures Lawful(c, events[..k]) && Lawful(c, events[k..])
    ensures k < |events| ==> Encodes(c, events[k])
  {
    hide Encodes;
  }

  /** Reading whole frames, whatever follows them. */
  lemma {:induction false} ReadFrames(c: Codec, p: Parser, events: seq<Event>, tail: string)
    requires Lawful(c, events) && Idle(p)
    ensures Feed(c, p, Lines(Frames(c, events) + tail)) ==
            Feed(c, p.(events := p.events + Visible(events)), Lines(tail))
    decreases |events|
  {
    hide Lawful, Encodes, Frame, Lines, Feed, Visible, Frames;
    if events == [] {
      NothingWritten(c, p.events, tail);
    } else {
      LawfulParts(c, events, 0);
      LawfulParts(c, events, 1);
      FirstWritten(c, events, tail);
      VisibleFirst(p.events, events);
      var p' := p.(events := p.events + Visible([events[0]]));
      ReadFrame(c, p, events[0], Frames(c, events[1..]) + tail);
      ReadFrames(c, p', events[1..], tail);
    }
  }

  lemma NothingWritten(c: Codec, before: seq<ClientEvent>, tail: string)
    ensures Frames(c, []) + tail == tail && before + Visible([]) == before
  {
  }

  lemma FirstWritten(c: Codec, events: seq<Event>, tail: string)
    requires events != []
    ensures Frames(c, events) + tail == Frame(c, events[0]) + (Frames(c, events[1..]) + tail)
  {
    hide Frame;
  }

  lemma VisibleFirst(before: seq<ClientEvent>, events: seq<Event>)
    requires events != []
    ensures before + Visible([events[0]]) + Visible(events[1..]) == before + Visible(events)
  {
    hide Visible;
    VisibleJoin([events[0]], events[1..]);
    assert [events[0]] + events[1..] == events;
  }

  /** Whatever list of events is written, the client receives the same events in the same order, without the heartbeats. */
  lemma RoundTrip(c: Codec, events: seq<Event>)
    requires Lawful(c, events)
    ensures Client(c, Frames(c, events), false) == Visible(events)
    ensures Client(c, Frames(c, events), true) == Visible(events) + [Failure]
  {
    ReadFrames(c, START, events, "");
    assert Frames(c, events) + "" == Frames(c, events);
    NothingToTrim();
  }

  lemma NothingToTrim()
    ensures TrimSpace("") == ""
  {
  }

  // ---- Torn streams ----

  /** What a client may see of an event whose frame was cut short: nothing, a failure, or the whole event. */
  ghost predicate Torn(e: Event, before: seq<ClientEvent>, after: seq<ClientEvent>) {
    after == before || after == before + [Failure] || after == before + Visible([e])
  }

  lemma WordIsFixed(s: string)
    requires Word(s)
    ensures TrimSpace(s) == s
  {
    WordIsPlain(s);
    TrimmedIsFixed(s);
  }

  lemma PartialNameUnknown(c: Codec, e: Event, j: nat, data: string)
    requires 0 < j < |Name(e)|
    ensures DecodeEvent(c, Name(e)[..j], data) == None
  {
    var n := Name(e)[..j];
    assert n[0] == Name(e)[0];
  }

  /** A beginning of the name line leaves a beginning of the name, or nothing. */
  lemma TornName(c: Codec, p: Parser, e: Event, k: nat)
    requires Idle(p) && k <= |NameLine(e)|
    ensures exists j :: 0 <= j <= |Name(e)| && Feed(c, p, Lines(NameLine(e)[..k])) == p.(name := Name(e)[..j])
  {
    NameLineIsLine(e);
    hide TrimSpace, Name, Lines;
    NameIsWord(e);
    var line := NameLine(e)[..k];
    if k == 0 {
      NoLines();
      assert Feed(c, p, Lines(line)) == p.(name := Name(e)[..0]);
    } else {
      OneLinePrefix(NameLine(e), k);
      LastLine(line);
      OneStep(c, p, line, []);
      assert [line] + [] == [line];
      assert line[0] == 'e';
      if k < 6 {
        assert OnLine(c, p, line) == p.(name := Name(e)[..0]);
      } else {
        assert line[..6] == "event:";
        TornNameValue(e, k);
        var j: nat := if k == 6 then 0 else k - 7;
        assert OnLine(c, p, line) == p.(name := Name(e)[..j]);
      }
    }
  }

  lemma NoLines()
    ensures Lines("") == []
  {
  }

  lemma NameLineIsLine(e: Event)
    ensures OneLine(NameLine(e))
  {
    NameIsWord(e);
    WordIsPlain(Name(e));
    hide Name;
    OneLineJoins("event: ", Name(e));
  }

  lemma OneLinePrefix(s: string, k: nat)
    requires OneLine(s) && k <= |s|
    ensures OneLine(s[..k])
  {
  }

  lemma TornNameValue(e: Event, k: nat)
    requires 6 <= k <= |NameLine(e)|
    ensures TrimSpace(NameLine(e)[..k][6..]) == Name(e)[..if k == 6 then 0 else k - 7]
  {
    hide TrimSpace, Name;
    NameIsWord(e);
    NothingToTrim();
    if k == 6 {
      assert NameLine(e)[..k][6..] == "";
    } else {
      var part := Name(e)[..k - 7];
      assert NameLine(e)[..k][6..] == " " + part;
      BlankDropped(part);
      if k > 7 {
        WordIsFixed(part);
      }
    }
  }

  /** A beginning of the data line leaves a beginning of the body, or nothing. */
  lemma TornData(c: Codec, p: Parser, e: Event, k: nat)
    requires Encodes(c, e) && !p.stopped && p.data == [] && k <= |DataLine(c, e)|
    ensures var q := Feed(c, p, Lines(DataLine(c, e)[..k]));
            q == p || exists j :: 0 <= j <= |c.encode(e)| && q == p.(data := [TrimSpace(c.encode(e)[..j])])
  {
    LinesOfFrame(c, e);
    NoLines();
    NoFeed(c, p);
    hide TrimSpace, Lines, Feed, OnLine, OneLine, Encodes;
    if k > 0 {
      var line := DataLine(c, e)[..k];
      OneLinePrefix(DataLine(c, e), k);
      LastLine(line);
      OneStep(c, p, line, []);
      assert [line] + [] == [line];
      NoFeed(c, OnLine(c, p, line));
      DataStep(c, p, e, k);
    }
  }

  lemma DataStep(c: Codec, p: Parser, e: Event, k: nat)
    requires p.data == [] && 0 < k <= |DataLine(c, e)|
    ensures var q := OnLine(c, p, DataLine(c, e)[..k]);
            q == p || exists j :: 0 <= j <= |c.encode(e)| && q == p.(data := [TrimSpace(c.encode(e)[..j])])
  {
    hide TrimSpace;
    var line := DataLine(c, e)[..k];
    assert line[0] == 'd';
    if k >= 5 {
      assert line[..5] == "data:";
      var j: nat := if k == 5 then 0 else k - 6;
      TornDataValue(c, e, k);
      assert OnLine(c, p, line) == p.(data := [] + [TrimSpace(c.encode(e)[..j])]);
    }
  }

  lemma TornDataValue(c: Codec, e: Event, k: nat)
    requires 5 <= k <= |DataLine(c, e)|
    ensures TrimSpace(DataLine(c, e)[..k][5..]) == TrimSpace(c.encode(e)[..if k == 5 then 0 else k - 6])
  {
    hide TrimSpace;
    if k == 5 {
      assert DataLine(c, e)[..k][5..] == "" == c.encode(e)[..0];
    } else {
      assert DataLine(c, e)[..k][5..] == " " + c.encode(e)[..k - 6];
      BlankDropped(c.encode(e)[..k - 6]);
    }
  }

  lemma EndInName(c: Codec, p: Parser, e: Event, j: nat)
    requires Encodes(c, e) && !p.stopped && p.data == [] && j <= |Name(e)| && p.name == Name(e)[..j]
    ensures Torn(e, p.events, Emit(c, p).events)
  {
    hide TrimSpace, Name, DecodeEvent;
    NothingToTrim();
    NameIsWord(e);
    if j > 0 {
      WordIsFixed(p.name);
      if j < |Name(e)| {
        PartialNameUnknown(c, e, j, "");
      } else {
        assert Name(e)[..j] == Name(e);
        Known(c, e, "");
        assert !e.Heartbeat? ==> Unreadable(c, e, 0);
      }
    }
  }

  lemma EndInData(c: Codec, p: Parser, e: Event, j: nat)
    requires Encodes(c, e) && !p.stopped && p.name == Name(e)
    requires j <= |c.encode(e)| && p.data == [TrimSpace(c.encode(e)[..j])]
    ensures Torn(e, p.events, Emit(c, p).events)
  {
    hide TrimSpace, Name, DecodeEvent, Trimmed;
    NameIsWord(e);
    WordIsFixed(Name(e));
    VisibleOne(e, p.events);
    var json := c.encode(e);
    Known(c, e, TrimSpace(json[..j]));
    if j == |json| {
      assert json[..j] == json;
      TrimmedIsFixed(json);
    } else {
      assert !e.Heartbeat? ==> Unreadable(c, e, j);
    }
  }

  lemma VisibleOne(e: Event, before: seq<ClientEvent>)
    ensures before + Visible([e]) == if e.Heartbeat? then before else before + [Received(e)]
  {
  }

  /** Where a cut may fall: in the name line, in the data line, or between the two line ends after it. */
  lemma CutFalls(c: Codec, e: Event, k: nat)
    requires k < |Frame(c, e)|
    ensures var (name, data, cut) := (NameLine(e), DataLine(c, e), Frame(c, e)[..k]);
            if k <= |name| then cut == name[..k]
            else if k - |name| - 1 <= |data| then cut == name + "\n" + data[..k - |name| - 1]
            else cut == name + "\n" + (data + "\n" + "")
  {
    hide NameLine, DataLine;
  }

  /** Reading `body`, which is a beginning of the frame of `e`, and then the end of the stream. */
  ghost predicate ReadTorn(c: Codec, p: Parser, e: Event, body: string) {
    var q := Feed(c, p, Lines(body));
    !q.stopped && q.events == p.events && Torn(e, p.events, Emit(c, q).events)
  }

  lemma TornInName(c: Codec, p: Parser, e: Event, k: nat)
    requires Encodes(c, e) && Idle(p) && k <= |NameLine(e)|
    ensures ReadTorn(c, p, e, NameLine(e)[..k])
  {
    hide Encodes, Lines, Feed, Emit, Name, Torn;
    TornName(c, p, e, k);
    var q := Feed(c, p, Lines(NameLine(e)[..k]));
    var j: nat :| j <= |Name(e)| && q == p.(name := Name(e)[..j]);
    EndInName(c, q, e, j);
  }

  lemma TornInData(c: Codec, p: Parser, e: Event, m: nat)
    requires Encodes(c, e) && Idle(p) && m <= |DataLine(c, e)|
    ensures ReadTorn(c, p, e, NameLine(e) + "\n" + DataLine(c, e)[..m])
  {
    LinesOfFrame(c, e);
    hide Encodes, Lines, Feed, OnLine, Emit, OneLine, Name, Torn, NameLine, DataLine;
    var rest := DataLine(c, e)[..m];
    var p1 := p.(name := Name(e));
    LineThenLines(NameLine(e), rest);
    OneStep(c, p, NameLine(e), Lines(rest));
    ReadName(c, p, e);
    TornData(c, p1, e, m);
    EndAfterName(c, p1, e, Feed(c, p1, Lines(rest)));
  }

  lemma TwoLines(a: string, b: string)
    requires OneLine(a) && OneLine(b)
    ensures Lines(a + "\n" + (b + "\n" + "")) == [a, b]
  {
    LineThenLines(a, b + "\n" + "");
    LineThenLines(b, "");
    NoLines();
    hide Lines;
    assert [a] + ([b] + []) == [a, b];
  }

  lemma TwoSteps(c: Codec, p: Parser, a: string, b: string)
    requires !p.stopped && !OnLine(c, p, a).stopped
    ensures Feed(c, p, [a, b]) == OnLine(c, OnLine(c, p, a), b)
  {
    OneStep(c, p, a, [b]);
    assert [a] + [b] == [a, b];
    OneStep(c, OnLine(c, p, a), b, []);
    assert [b] + [] == [b];
    NoFeed(c, OnLine(c, OnLine(c, p, a), b));
    hide Feed, OnLine;
  }

  lemma TornAtEnd(c: Codec, p: Parser, e: Event)
    requires Encodes(c, e) && Idle(p)
    ensures ReadTorn(c, p, e, NameLine(e) + "\n" + (DataLine(c, e) + "\n" + ""))
  {
    LinesOfFrame(c, e);
    hide Encodes, Lines, Feed, OnLine, Emit, OneLine, Name, Torn, NameLine, DataLine, TrimSpace, Visible;
    var p1 := p.(name := Name(e));
    var q := p1.(data := [] + [c.encode(e)]);
    TwoLines(NameLine(e), DataLine(c, e));
    ReadName(c, p, e);
    ReadData(c, p1, e);
    TwoSteps(c, p, NameLine(e), DataLine(c, e));
    EndInWhole(c, q, e);
  }

  lemma EndInWhole(c: Codec, p: Parser, e: Event)
    requires Encodes(c, e) && !p.stopped && p.name == Name(e) && p.data == [c.encode(e)]
    ensures Torn(e, p.events, Emit(c, p).events)
  {
    hide Encodes, Emit, Torn, Name, TrimSpace;
    WholeIsTrimmed(c, e);
    EndInData(c, p, e, |c.encode(e)|);
  }

  /** However a frame is cut short, the client never sees anything but this event, or a failure. */
  lemma TornFrame(c: Codec, p: Parser, e: Event, k: nat)
    requires Encodes(c, e) && Idle(p) && k < |Frame(c, e)|
    ensures ReadTorn(c, p, e, Frame(c, e)[..k])
  {
    hide *;
    CutFalls(c, e, k);
    if k <= |NameLine(e)| {
      TornInName(c, p, e, k);
    } else if k - |NameLine(e)| - 1 <= |DataLine(c, e)| {
      TornInData(c, p, e, k - |NameLine(e)| - 1);
    } else {
      TornAtEnd(c, p, e);
    }
  }

  lemma EndAfterName(c: Codec, p: Parser, e: Event, q: Parser)
    requires Encodes(c, e) && !p.stopped && p.data == [] && p.name == Name(e)
    requires q == p || exists j :: 0 <= j <= |c.encode(e)| && q == p.(data := [TrimSpace(c.encode(e)[..j])])
    ensures Torn(e, p.events, Emit(c, q).events)
  {
    hide Torn, Emit, Encodes, Name, TrimSpace;
    if q == p {
      assert Name(e)[..|Name(e)|] == Name(e);
      EndInName(c, p, e, |Name(e)|);
    } else {
      var j: nat :| j <= |c.encode(e)| && q == p.(data := [TrimSpace(c.encode(e)[..j])]);
      EndInData(c, q, e, j);
    }
  }

  lemma WholeIsTrimmed(c: Codec, e: Event)
    requires Encodes(c, e)
    ensures TrimSpace(c.encode(e)[..|c.encode(e)|]) == c.encode(e)
  {
    hide TrimSpace, Trimmed;
    TrimmedIsFixed(c.encode(e));
    assert c.encode(e)[..|c.encode(e)|] == c.encode(e);
  }

  lemma NoFeed(c: Codec, p: Parser)
    ensures Feed(c, p, []) == p
  {
  }

  lemma {:induction false} FramesJoin(c: Codec, a: seq<Event>, b: seq<Event>)
    ensures Frames(c, a + b) == Frames(c, a) + Frames(c, b)
    decreases |a|
  {
    hide Frame;
    if a == [] {
      assert a + b == b;
    } else {
      assert (a + b)[1..] == a[1..] + b;
      FramesJoin(c, a[1..], b);
    }
  }

  lemma {:induction false} VisibleJoin(a: seq<Event>, b: seq<Event>)
    ensures Visible(a + b) == Visible(a) + Visible(b)
    decreases |a|
  {
    if a == [] {
      assert a + b == b;
    } else {
      assert (a + b)[1..] == a[1..] + b;
      VisibleJoin(a[1..], b);
    }
  }

  lemma CutFirst(first: string, rest: string, budget: Option<nat>)
    requires budget.Some? && budget.value < |first|
    ensures Cut(first + rest, budget) == first[..budget.value]
  {
  }

  lemma CutNothing(budget: Option<nat>)
    ensures Cut("", budget) == ""
  {
  }

  lemma CutBoth(first: string, rest: string, budget: Option<nat>, left: Option<nat>)
    requires if budget.None? then left == None else |first| <= budget.value && left == Some(budget.value - |first|)
    ensures Cut(first + rest, budget) == first + Cut(rest, left)
  {
  }

  /** A cut stream is a number of whole frames and, unless they are all, a proper beginning of the next. */
  lemma {:induction false} CutFrames(c: Codec, events: seq<Event>, budget: Option<nat>) returns (k: nat, m: nat)
    ensures k <= |events| && (k < |events| ==> m < |Frame(c, events[k])|)
    ensures Cut(Frames(c, events), budget) ==
            Frames(c, events[..k]) + if k < |events| then Frame(c, events[k])[..m] else ""
    decreases |events|
  {
    hide Frame, Cut;
    if events == [] {
      k, m := 0, 0;
      CutNothing(budget);
    } else {
      var (first, rest) := (Frame(c, events[0]), Frames(c, events[1..]));
      if budget.Some? && budget.value < |first| {
        k, m := 0, budget.value;
        CutFirst(first, rest, budget);
      } else {
        var left := if budget.None? then None else Some(budget.value - |first|);
        var k', m' := CutFrames(c, events[1..], left);
        CutBoth(first, rest, budget, left);
        k, m := k' + 1, m';
        assert events[..k][1..] == events[1..][..k'];
        assert k < |events| ==> events[1..][k'] == events[k];
      }
    }
  }

  /** What a client may receive of a stream that was to carry `events`. */
  ghost predicate Beginning(events: seq<Event>, received: seq<ClientEvent>, readError: bool, k: nat) {
    && k <= |events|
    && if readError then received == Visible(events[..k]) + [Failure]
       else received == Visible(events[..k]) || (k < |events| && received == Visible(events[..k]) + [Failure])
  }

  /** Wherever the connection breaks, the client receives a beginning of the events, and then at most one failure: never an
      event that was not sent, and never one with a different body. */
  lemma TornStream(c: Codec, events: seq<Event>, budget: Option<nat>, readError: bool)
    requires Lawful(c, events)
    ensures exists k :: Beginning(events, Client(c, Cut(Frames(c, events), budget), readError), readError, k)
  {
    var k, m := CutFrames(c, events, budget);
    hide Lawful, Lines, Feed, Frame, Emit, Visible;
    if k == |events| {
      assert events[..k] == events;
      assert Frames(c, events) + "" == Frames(c, events);
      RoundTrip(c, events);
      assert Beginning(events, Client(c, Cut(Frames(c, events), budget), readError), readError, k);
    } else {
      LawfulParts(c, events, k);
      var (p, e) := (START.(events := [] + Visible(events[..k])), events[k]);
      ReadFrames(c, START, events[..k], Frame(c, e)[..m]);
      TornFrame(c, p, e, m);
      var q := Feed(c, p, Lines(Frame(c, e)[..m]));
      assert Client(c, Cut(Frames(c, events), budget), readError) == AtEnd(c, q, readError);
      TornEnds(c, p, events, k, q, readError);
    }
  }

  lemma TornEnds(c: Codec, p: Parser, events: seq<Event>, k: nat, q: Parser, readError: bool)
    requires k < |events| && !q.stopped && q.events == p.events == Visible(events[..k])
    requires Torn(events[k], p.events, Emit(c, q).events)
    ensures exists i :: Beginning(events, AtEnd(c, q, readError), readError, i)
  {
    hide Emit;
    var received := AtEnd(c, q, readError);
    VisibleJoin(events[..k], [events[k]]);
    assert events[..k + 1] == events[..k] + [events[k]];
    hide Visible;
    if !readError && received == p.events + Visible([events[k]]) {
      assert Beginning(events, received, readError, k + 1);
    } else {
      assert Beginning(events, received, readError, k);
    }
  }
}
