/** `internal/transport/http/memory_markdown.go`: the length-prefixed entries of a daily memory file, printed and parsed. */
module Markdown {
  import opened Clock
  import opened Text

  const YEAR_10000: Time := 253_402_300_800_000_000_000
  const DAY := 86_400 * SECOND

  const BEGIN := "<!-- MemoryEntry:BEGIN id="
  const END := "<!-- MemoryEntry:END id="
  const MARKER_END := " -->"
  const BYTES := " bytes="
  const SEPARATOR := "\n---\n\n"

  datatype Error = InvalidRequest | Conflict | MarkdownError | DatabaseError

  datatype Result<+T> = Ok(value: T) | Err(error: Error) {
    predicate IsFailure() {
      Err?
    }

    function PropagateFailure<U>(): Result<U>
      requires Err?
    {
      Err(error)
    }

    function Extract(): T
      requires Ok?
    {
      value
    }
  }

  /** The part of a memory the log renders, already normalised. */
  datatype Memory = Memory(id: string, agentId: string, userId: string, question: string, answer: string,
                           recordedAt: Time)

  datatype Entry = Entry(id: string, recordedAt: Time, payload: string, content: string)

  /** RFC 3339 timestamps, section 5.6: how a time is written and read, left abstract. */
  datatype Stamps = Stamps(format: Time -> string, parse: string -> Option<Time>)

  /** The whole second a time falls in, which is what a timestamp keeps of it. */
  function Whole(t: Time): Time {
    t - t % SECOND
  }

  /** The UTC day a time falls in; each has its own file. */
  function Day(t: Time): int {
    t / DAY
  }

  /** Times whose timestamp is neither Go's zero time nor out of the four-digit years. */
  predicate Datable(t: Time) {
    ZERO_TIME < Whole(t) && t < YEAR_10000
  }

  /** What is assumed of timestamps: they read back as the second they were written for, on one line. */
  ghost predicate Lawful(st: Stamps) {
    forall t {:trigger Stamped(st, t)} | Datable(t) :: Stamped(st, t)
  }

  ghost predicate Stamped(st: Stamps, t: Time) {
    var f := st.format(t);
    f != "" && Trimmed(f) && '\n' !in f && st.parse(f) == Some(Whole(t)) && st.format(Whole(t)) == f
  }

  // ---- Validation ----

  predicate IsPathChar(c: char) {
    'a' <= c <= 'z' || 'A' <= c <= 'Z' || '0' <= c <= '9' || c == '-' || c == '_'
  }

  predicate ValidPathId(value: string) {
    value != "" && Trimmed(value) && forall i | 0 <= i < |value| :: IsPathChar(value[i])
  }

  predicate ValidMarkerId(value: string) {
    var id := TrimSpace(value);
    id != "" && '\r' !in id && '\n' !in id && !Contains(id, MARKER_END)
  }

  // ---- Rendering ----

  function Payload(st: Stamps, item: Memory, recordedAt: Time): string {
    "## Memory\n\nMemoryID: " + item.id + "\nRecordedAt: " + st.format(recordedAt)
    + "\n\n## Question\n\n" + item.question + "\n\n## Answer\n\n" + item.answer + "\n"
  }

  function BeginLine(id: string, length: nat): string {
    BEGIN + id + BYTES + Decimal(length) + MARKER_END
  }

  function EndMark(id: string): string {
    END + id + MARKER_END
  }

  function EntryText(st: Stamps, item: Memory): string {
    var payload := Payload(st, item, item.recordedAt);
    BeginLine(item.id, |payload|) + "\n" + payload + EndMark(item.id) + "\n"
  }

  function RenderEntry(st: Stamps, item: Memory): Result<string> {
    if !ValidMarkerId(item.id) then Err(InvalidRequest)
    else if item.recordedAt == ZERO_TIME then Err(MarkdownError)
    else Ok(EntryText(st, item))
  }

  function Header(item: Memory): string {
    "# Memory\n\nUserID: " + item.userId + "\nAgentID: " + item.agentId + "\n\n"
  }

  function RenderFile(st: Stamps, item: Memory): Result<string> {
    var entry :- RenderEntry(st, item);
    Ok(Header(item) + entry)
  }

  function RenderAppend(st: Stamps, item: Memory): Result<string> {
    var entry :- RenderEntry(st, item);
    Ok(SEPARATOR + entry)
  }

  // ---- Parsing ----

  /** The value of the first line that starts with `name`, lines and value trimmed. */
  function FirstField(text: string, name: string): Option<string>
    decreases |text|
  {
    var newline := Index(text, "\n");
    var line := TrimSpace(if newline.Some? then text[..newline.value] else text);
    if name <= line then Some(TrimSpace(line[|name|..]))
    else if newline.None? then None
    else FirstField(text[newline.value + 1..], name)
  }

  /** `memoryIDFromMarkdownEntry`. */
  function MemoryId(payload: string): Option<string> {
    var field := FirstField(payload, "MemoryID:");
    if field == Some("") then None else field
  }

  /** `recordedAtFromMarkdownEntry`. */
  function RecordedAt(st: Stamps, payload: string): Option<Time> {
    var field := FirstField(payload, "RecordedAt:");
    if field.None? then None else st.parse(field.value)
  }

  /** `parseMemoryEntryBeginLine`: the ID and the payload length. */
  function ParseBeginLine(line: string): Option<(string, nat)> {
    if !(BEGIN <= line) || !HasSuffix(line, MARKER_END) then None
    else
      var metadata := TrimSuffix(TrimPrefix(line, BEGIN), MARKER_END);
      var separator := LastIndex(metadata, BYTES);
      if separator.None? || separator.value + |BYTES| > |metadata| then None
      else
        var id := metadata[..separator.value];
        var length := Atoi(metadata[separator.value + |BYTES|..]);
        if !ValidMarkerId(id) || length.None? || length.value < 0 then None
        else Some((id, length.value))
  }

  datatype Scan = NoMarker | Broken | Found(entry: Entry, rest: string)

  /** The entry whose begin line announced `id` and `length`, read from the text after that line. */
  function ReadBody(st: Stamps, id: string, length: nat, body: string): Scan
    ensures ReadBody(st, id, length, body) != NoMarker
    ensures ReadBody(st, id, length, body).Found? ==> |ReadBody(st, id, length, body).rest| <= |body|
  {
    if length > |body| then Broken
    else
      var (payload, tail) := (body[..length], body[length..]);
      var recordedAt := RecordedAt(st, payload);
      if !(EndMark(id) <= tail) || MemoryId(payload) != Some(id) || recordedAt.None? then Broken
      else Found(Entry(id, recordedAt.value, payload, TrimSpace(payload)), tail[|EndMark(id)|..])
  }

  /** The next entry of a text, read from its begin line on. */
  function ReadEntry(st: Stamps, text: string): Scan
    ensures ReadEntry(st, text) != NoMarker
    ensures ReadEntry(st, text).Found? ==> |ReadEntry(st, text).rest| < |text|
  {
    var lineEnd := Index(text, "\n");
    if lineEnd.None? then Broken
    else
      var begin := ParseBeginLine(text[..lineEnd.value]);
      if begin.None? then Broken else ReadBody(st, begin.value.0, begin.value.1, text[lineEnd.value + 1..])
  }

  function ScanEntry(st: Stamps, text: string): Scan
    ensures ScanEntry(st, text).Found? ==> |ScanEntry(st, text).rest| < |text|
  {
    var start := Index(text, BEGIN);
    if start.None? then NoMarker else ReadEntry(st, text[start.value..])
  }

  function ParseFrom(st: Stamps, text: string, entries: map<string, Entry>): Result<map<string, Entry>>
    decreases |text|
  {
    match ScanEntry(st, text)
    case NoMarker => Ok(entries)
    case Broken => Err(MarkdownError)
    case Found(entry, rest) =>
      if entry.id in entries then Err(MarkdownError) else ParseFrom(st, rest, entries[entry.id := entry])
  }

  /** `memoryMarkdownEntriesByID`. */
  function Parse(st: Stamps, content: string): Result<map<string, Entry>> {
    if ScanEntry(st, content).NoMarker? then Err(MarkdownError) else ParseFrom(st, content, map[])
  }

  predicate MatchesMemory(st: Stamps, entry: Entry, item: Memory) {
    entry.id == item.id && entry.payload == Payload(st, item, entry.recordedAt)
  }

  lemma Slices(data: string, i: nat, j: nat)
    requires i <= j <= |data|
    ensures data[i..][..j - i] == data[i..j] && data[i..][j - i..] == data[j..]
  {
  }

  /** The middle of the parser's loop: the entry that begins at `beginStart`, and where the cursor moves next. */
  method ReadAt(st: Stamps, data: string, beginStart: nat) returns (r: Option<(Entry, nat)>)
    requires beginStart <= |data|
    ensures r.None? ==> ReadEntry(st, data[beginStart..]) == Broken
    ensures r.Some? ==> beginStart < r.value.1 <= |data|
    ensures r.Some? ==> ReadEntry(st, data[beginStart..]) == Found(r.value.0, data[r.value.1..])
  {
    hide Index, ParseBeginLine, MemoryId, RecordedAt, EndMark, TrimSpace;
    var lineEndRelative := Index(data[beginStart..], "\n");
    if lineEndRelative.None? {
      return None;
    }
    var lineEnd := beginStart + lineEndRelative.value;
    Slices(data, beginStart, lineEnd);
    var begin := ParseBeginLine(data[beginStart..lineEnd]);
    if begin.None? {
      return None;
    }
    var (id, payloadLength) := begin.value;
    var payloadStart := lineEnd + 1;
    var payloadEnd := payloadStart + payloadLength;
    Slices(data, beginStart, payloadStart);
    if payloadEnd > |data| {
      return None;
    }
    var payload := data[payloadStart..payloadEnd];
    Slices(data, payloadStart, payloadEnd);
    var expectedEnd := EndMark(id);
    if !(expectedEnd <= data[payloadEnd..]) || MemoryId(payload) != Some(id) {
      return None;
    }
    var recordedAt := RecordedAt(st, payload);
    if recordedAt.None? {
      return None;
    }
    Slices(data, payloadEnd, payloadEnd + |expectedEnd|);
    return Some((Entry(id, recordedAt.value, payload, TrimSpace(payload)), payloadEnd + |expectedEnd|));
  }

  /** The parser as it runs: a cursor moves over the data, and a map fills up. */
  method EntriesById(st: Stamps, data: string) returns (r: Result<map<string, Entry>>)
    ensures r == Parse(st, data)
  {
    hide Index, ReadEntry;
    var entries: map<string, Entry> := map[];
    var cursor := 0;
    var foundMarker := false;
    assert data[0..] == data;
    while cursor < |data|
      invariant 0 <= cursor <= |data|
      invariant foundMarker ==> ScanEntry(st, data) != NoMarker
      invariant foundMarker <==> cursor > 0
      invariant ParseFrom(st, data, map[]) == ParseFrom(st, data[cursor..], entries)
    {
      var relativeStart := Index(data[cursor..], BEGIN);
      if relativeStart.None? {
        break;
      }
      foundMarker := true;
      var beginStart := cursor + relativeStart.value;
      Slices(data, cursor, beginStart);
      var read := ReadAt(st, data, beginStart);
      if read.None? {
        return Err(MarkdownError);
      }
      var (entry, next) := read.value;
      if entry.id in entries {
        return Err(MarkdownError);
      }
      entries := entries[entry.id := entry];
      cursor := next;
    }
    if !foundMarker {
      return Err(MarkdownError);
    }
    return Ok(entries);
  }
}
