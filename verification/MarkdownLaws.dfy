/** What the printer and the parser of `memory_markdown.go` promise each other. */
module MarkdownLaws {
  import opened Arith
  import opened Clock
  import opened Text
  import opened Markdown

  /** What `normalizeMemory` and the validations leave: a trimmed, single-line ID and a time that can be written down. */
  ghost predicate Loggable(item: Memory) {
    ValidMarkerId(item.id) && Trimmed(item.id) && Datable(item.recordedAt)
  }

  /** The entry a memory is written as. */
  function EntryOf(st: Stamps, item: Memory): Entry {
    var payload := Payload(st, item, item.recordedAt);
    Entry(item.id, Whole(item.recordedAt), payload, TrimSpace(payload))
  }

  // ---- Lines and fields ----

  lemma NewlineAt(line: string, rest: string)
    requires '\n' !in line
    ensures Index(line + "\n" + rest, "\n") == Some(|line|)
  {
    hide Index;
    var s := line + "\n" + rest;
    assert s[|line|..|line| + 1] == "\n";
    forall j: nat | j < |line|
      ensures !OccursAt(s, "\n", j)
    {
      assert s[j] == line[j];
      assert s[j..j + 1] == [s[j]];
    }
    IndexUnique(s, "\n", |line|);
  }

  lemma FieldLine(line: string, rest: string, name: string)
    requires '\n' !in line
    ensures FirstField(line + "\n" + rest, name) ==
            if name <= TrimSpace(line) then Some(TrimSpace(TrimSpace(line)[|name|..])) else FirstField(rest, name)
  {
    hide Index, TrimSpace;
    NewlineAt(line, rest);
    var s := line + "\n" + rest;
    assert s[..|line|] == line && s[|line| + 1..] == rest;
  }

  lemma HeadingIsTrimmed()
    ensures Trimmed("## Memory") && Trimmed("")
  {
    hide Trimmed;
    PlainIsTrimmed("## Memory");
    TrimmedEnds("");
  }

  function AfterStamp(item: Memory): string {
    "\n## Question\n\n" + item.question + "\n\n## Answer\n\n" + item.answer + "\n"
  }

  lemma Regroup(a: string, n: string, b: string, id: string, c: string, stamp: string, d: string, q: string, e: string,
                answer: string)
    ensures (a + n + n + b) + id + (n + c) + stamp + (n + d) + q + e + answer + n
         == a + n + ("" + n + ((b + id) + n + ((c + stamp) + n + (d + q + e + answer + n))))
  {
  }

  lemma Pieces()
    ensures "## Memory\n\nMemoryID: " == "## Memory" + "\n" + "\n" + "MemoryID: "
    ensures "\nRecordedAt: " == "\n" + "RecordedAt: "
    ensures "\n\n## Question\n\n" == "\n" + "\n## Question\n\n"
  {
  }

  lemma PayloadLines(st: Stamps, item: Memory, t: Time)
    ensures Payload(st, item, t) ==
            "## Memory" + "\n" + ("" + "\n" + (("MemoryID:" + " " + item.id) + "\n" + (("RecordedAt:" + " " + st.format(t)) + "\n"
            + AfterStamp(item))))
  {
    Pieces();
    Regroup("## Memory", "\n", "MemoryID: ", item.id, "RecordedAt: ", st.format(t), "\n## Question\n\n", item.question,
            "\n\n## Answer\n\n", item.answer);
    assert "MemoryID:" + " " + item.id == "MemoryID: " + item.id;
    assert "RecordedAt:" + " " + st.format(t) == "RecordedAt: " + st.format(t);
    hide Payload;
  }

  /** The two names of fields, as far as the parser needs to know them. */
  ghost predicate FieldName(name: string) {
    && |name| >= 2 && '\n' !in name && Ascii(name)
    && name[0] != '#' && LeadingSpace(name + " ") == 0
  }

  lemma IdIsFieldName()
    ensures FieldName("MemoryID:")
  {
  }

  lemma TimeIsFieldName()
    ensures FieldName("RecordedAt:")
  {
  }

  /** The heading and the blank line after it hold no field. */
  lemma HeadingIsSkipped(rest: string, name: string)
    requires FieldName(name)
    ensures FirstField("## Memory" + "\n" + ("" + "\n" + rest), name) == FirstField(rest, name)
  {
    HeadingIsTrimmed();
    hide TrimSpace, FirstField, LeadingSpace;
    assert "## Memory"[0] == '#';
    FieldLine("## Memory", "" + "\n" + rest, name);
    FieldLine("", rest, name);
  }

  /** A line with a field is found by its own name. */
  lemma FieldIsFound(name: string, value: string, rest: string)
    requires FieldName(name) && Trimmed(value) && value != "" && '\n' !in value
    ensures FirstField((name + " " + value) + "\n" + rest, name) == Some(value)
  {
    hide TrimSpace, FirstField, LeadingSpace, TrailingSpace;
    var line := name + " " + value;
    LabelledLine(name, value);
    assert name <= line;
    FieldLine(line, rest, name);
  }

  /** The line of another field is passed over. */
  lemma FieldIsSkipped(other: string, name: string, value: string, rest: string)
    requires FieldName(other) && Trimmed(value) && value != "" && '\n' !in value && name != "" && name[0] != other[0]
    ensures FirstField((other + " " + value) + "\n" + rest, name) == FirstField(rest, name)
  {
    hide TrimSpace, FirstField, LeadingSpace, TrailingSpace;
    var line := other + " " + value;
    LabelledLine(other, value);
    assert line[0] == other[0];
    FieldLine(line, rest, name);
  }

  /** The value a line `name: value` yields. */
  lemma LabelledLine(name: string, value: string)
    requires Trimmed(value) && value != "" && |name| >= 2 && Ascii(name) && LeadingSpace(name + " ") == 0
    ensures TrimSpace(name + " " + value) == name + " " + value
    ensures TrimSpace((name + " " + value)[|name|..]) == value
  {
    hide TrimSpace, LeadingSpace, TrailingSpace;
    LabelledIsTrimmed(name + " ", value);
    assert (name + " " + value)[|name|..] == " " + value;
    BlankIsTrimmed(value);
  }

  /** The parser finds in a rendered payload the ID and the second it was rendered with, whatever the texts contain. */
  lemma PayloadFields(st: Stamps, item: Memory)
    requires Lawful(st) && Loggable(item)
    ensures MemoryId(Payload(st, item, item.recordedAt)) == Some(item.id)
    ensures RecordedAt(st, Payload(st, item, item.recordedAt)) == Some(Whole(item.recordedAt))
  {
    IdIsLine(item);
    assert Stamped(st, item.recordedAt);
    hide TrimSpace, Trimmed, FirstField, Payload, Lawful, Loggable, AfterStamp;
    var stamp := st.format(item.recordedAt);
    var fromStamp := ("RecordedAt:" + " " + stamp) + "\n" + AfterStamp(item);
    var fromId := ("MemoryID:" + " " + item.id) + "\n" + fromStamp;
    PayloadLines(st, item, item.recordedAt);
    IdIsFieldName();
    TimeIsFieldName();
    hide FieldName;
    HeadingIsSkipped(fromId, "MemoryID:");
    HeadingIsSkipped(fromId, "RecordedAt:");
    FieldIsFound("MemoryID:", item.id, fromStamp);
    FieldIsSkipped("MemoryID:", "RecordedAt:", item.id, fromStamp);
    FieldIsFound("RecordedAt:", stamp, AfterStamp(item));
  }

  lemma IdIsLine(item: Memory)
    requires Loggable(item)
    ensures Trimmed(item.id) && item.id != "" && '\n' !in item.id && Datable(item.recordedAt)
  {
    hide TrimSpace, Contains;
  }

  // ---- The begin line ----

  lemma {:induction false} LastIndexOf(before: string, p: string, after: string)
    requires p != "" && (forall i | 0 < i < |p| :: p[i] != p[0]) && p[0] !in after
    ensures LastIndex(before + p + after, p) == Some(|before|)
  {
    var s := before + p + after;
    if after == "" {
      assert s == before + p;
      assert s[|s| - |p|..] == p;
    } else {
      var at := |s| - |p|;
      if at < |before| + |p| {
        assert s[at] == p[at - |before|];
      } else {
        assert s[at] == after[at - |before| - |p|];
      }
      assert s[at..][0] == s[at];
      assert !HasSuffix(s, p);
      assert s[..|s| - 1] == before + p + after[..|after| - 1];
      LastIndexOf(before, p, after[..|after| - 1]);
    }
  }

  lemma BeginLineParses(id: string, length: nat)
    requires ValidMarkerId(id)
    ensures ParseBeginLine(BeginLine(id, length)) == Some((id, length))
  {
    hide Decimal, Atoi, LastIndex, ValidMarkerId;
    var digits := Decimal(length);
    var metadata := id + BYTES + digits;
    var line := BeginLine(id, length);
    assert line == BEGIN + (metadata + MARKER_END);
    assert line[|BEGIN|..] == metadata + MARKER_END;
    assert line[|line| - |MARKER_END|..] == MARKER_END;
    assert (metadata + MARKER_END)[|metadata|..] == MARKER_END;
    assert (metadata + MARKER_END)[..|metadata|] == metadata;
    assert ' ' !in digits by {
      assert AllDigits(digits);
    }
    LastIndexOf(id, BYTES, digits);
    assert metadata[..|id|] == id && metadata[|id| + |BYTES|..] == digits;
    AtoiDecimal(length);
  }

  lemma MarkerLinesAreSingle(id: string, length: nat)
    requires '\n' !in id
    ensures '\n' !in BeginLine(id, length)
  {
    hide Decimal;
    assert '\n' !in Decimal(length) by {
      assert AllDigits(Decimal(length));
    }
  }

  lemma IdIsSingleLine(id: string)
    requires ValidMarkerId(id) && Trimmed(id)
    ensures '\n' !in id && id != ""
  {
  }

  // ---- One entry ----

  /** The parser's view of what follows an entry's begin line. */
  lemma BodyReads(st: Stamps, item: Memory, t: string)
    requires Lawful(st) && Loggable(item)
    ensures var payload := Payload(st, item, item.recordedAt);
            ReadBody(st, item.id, |payload|, payload + (EndMark(item.id) + t)) == Found(EntryOf(st, item), t)
  {
    hide MemoryId, RecordedAt, Payload, EndMark, TrimSpace, ValidMarkerId, Trimmed;
    var payload := Payload(st, item, item.recordedAt);
    PayloadFields(st, item);
    var body := payload + (EndMark(item.id) + t);
    assert body[..|payload|] == payload && body[|payload|..] == EndMark(item.id) + t;
    assert (EndMark(item.id) + t)[|EndMark(item.id)|..] == t;
  }

  /** A text that starts with a begin line is read from the body after it. */
  lemma LineReads(st: Stamps, id: string, length: nat, body: string)
    requires ValidMarkerId(id) && Trimmed(id)
    ensures ReadEntry(st, BeginLine(id, length) + "\n" + body) == ReadBody(st, id, length, body)
  {
    hide Index, ParseBeginLine, ReadBody, BeginLine, ValidMarkerId, Trimmed;
    IdIsSingleLine(id);
    MarkerLinesAreSingle(id, length);
    NewlineAt(BeginLine(id, length), body);
    BeginLineParses(id, length);
    var text := BeginLine(id, length) + "\n" + body;
    assert text[..|BeginLine(id, length)|] == BeginLine(id, length);
    assert text[|BeginLine(id, length)| + 1..] == body;
  }

  /** Reading back one rendered entry, whatever bytes the question and the answer hold and whatever follows. */
  lemma EntryReads(st: Stamps, item: Memory, t: string)
    requires Lawful(st) && Loggable(item)
    ensures ReadEntry(st, EntryText(st, item) + t) == Found(EntryOf(st, item), "\n" + t)
  {
    hide ReadEntry, ReadBody, Payload, BeginLine, EndMark, EntryOf, ValidMarkerId, Trimmed;
    var payload := Payload(st, item, item.recordedAt);
    BodyReads(st, item, "\n" + t);
    LineReads(st, item.id, |payload|, payload + (EndMark(item.id) + ("\n" + t)));
    assert EntryText(st, item) + t
        == BeginLine(item.id, |payload|) + "\n" + (payload + (EndMark(item.id) + ("\n" + t)));
  }

  // ---- Finding the marker ----

  /** Text in which no marker starts is skipped. */
  lemma SkipText(st: Stamps, c: string, w: string)
    requires forall j: nat | j < |c| :: !OccursAt(c + w, BEGIN, j)
    ensures ScanEntry(st, c + w) == ScanEntry(st, w)
  {
    hide Index, ReadEntry;
    IndexIsFirst(w, BEGIN);
    IndexIsFirst(c + w, BEGIN);
    forall j: nat
      ensures OccursAt(w, BEGIN, j) <==> OccursAt(c + w, BEGIN, |c| + j)
    {
      OccursAfter(c, w, BEGIN, j);
    }
    var (at, at') := (Index(w, BEGIN), Index(c + w, BEGIN));
    if at'.Some? {
      assert at'.value >= |c|;
      assert OccursAt(w, BEGIN, at'.value - |c|);
    }
    if at.Some? {
      assert OccursAt(c + w, BEGIN, |c| + at.value);
      assert at' == Some(|c| + at.value);
      assert (c + w)[|c| + at.value..] == w[at.value..];
    }
  }

  lemma OccursAfter(c: string, w: string, p: string, j: nat)
    ensures OccursAt(w, p, j) <==> OccursAt(c + w, p, |c| + j)
  {
    if j + |p| <= |w| {
      assert w[j..j + |p|] == (c + w)[|c| + j..|c| + j + |p|];
    }
  }

  /** A marker cannot start at a character other than its first. */
  lemma StartsWithAngle(s: string, j: nat)
    requires OccursAt(s, BEGIN, j)
    ensures s[j] == '<'
  {
    assert s[j..j + |BEGIN|][0] == BEGIN[0];
  }

  /** No marker extends over a line break. */
  lemma MarkerIsOneLine(s: string, j: nat, k: nat)
    requires k < |s| && s[k] == '\n' && j <= k < j + |BEGIN|
    ensures !OccursAt(s, BEGIN, j)
  {
    assert BEGIN[k - j] in BEGIN && '\n' !in BEGIN;
    if j + |BEGIN| <= |s| {
      assert s[j..j + |BEGIN|][k - j] == s[k];
    }
  }

  lemma PlainTextIsSkipped(st: Stamps, c: string, w: string)
    requires '<' !in c
    ensures ScanEntry(st, c + w) == ScanEntry(st, w)
  {
    hide ScanEntry;
    forall j: nat | j < |c|
      ensures !OccursAt(c + w, BEGIN, j)
    {
      if OccursAt(c + w, BEGIN, j) {
        StartsWithAngle(c + w, j);
      }
    }
    SkipText(st, c, w);
  }

  /** A line break after a text without markers completes none of them. */
  lemma TailIsSkipped(st: Stamps, tail: string, w: string)
    requires ScanEntry(st, tail) == NoMarker
    ensures ScanEntry(st, tail + "\n" + w) == ScanEntry(st, w)
  {
    hide ReadEntry, Index;
    IndexIsFirst(tail, BEGIN);
    var c := tail + "\n";
    forall j: nat | j < |c|
      ensures !OccursAt(c + w, BEGIN, j)
    {
      if j + |BEGIN| <= |tail| {
        assert tail[j..j + |BEGIN|] == (c + w)[j..j + |BEGIN|];
        assert !OccursAt(tail, BEGIN, j);
      } else {
        MarkerIsOneLine(c + w, j, |tail|);
      }
    }
    SkipText(st, c, w);
  }

  lemma EntryBegins(st: Stamps, item: Memory, t: string)
    ensures BEGIN <= EntryText(st, item) + t
  {
    hide Payload, Decimal, EndMark;
    var payload := Payload(st, item, item.recordedAt);
    assert BEGIN <= BeginLine(item.id, |payload|);
  }

  lemma EntryScans(st: Stamps, item: Memory, t: string)
    requires Lawful(st) && Loggable(item)
    ensures ScanEntry(st, EntryText(st, item) + t) == Found(EntryOf(st, item), "\n" + t)
  {
    hide ReadEntry, EntryText, EntryOf, ValidMarkerId, Trimmed;
    EntryBegins(st, item, t);
    EntryReads(st, item, t);
    var text := EntryText(st, item) + t;
    assert text[0..] == text;
  }

  // ---- Extending a text ----

  lemma ReadExtends(st: Stamps, text: string, t: string)
    requires ReadEntry(st, text).Found?
    ensures ReadEntry(st, text + t) == Found(ReadEntry(st, text).entry, ReadEntry(st, text).rest + t)
  {
    hide Index, ParseBeginLine, ReadBody;
    IndexIsFirst(text, "\n");
    var e := Index(text, "\n").value;
    NewlineStays(text, t, e);
    assert (text + t)[..e] == text[..e];
    assert (text + t)[e + 1..] == text[e + 1..] + t;
    var (id, length) := ParseBeginLine(text[..e]).value;
    BodyExtends(st, id, length, text[e + 1..], t);
  }

  lemma NewlineStays(text: string, t: string, e: nat)
    requires Index(text, "\n") == Some(e)
    ensures Index(text + t, "\n") == Some(e)
  {
    FirstStays(text, t, "\n", e);
  }

  /** The first occurrence in a text is the first in every extension. */
  lemma FirstStays(text: string, t: string, p: string, e: nat)
    requires Index(text, p) == Some(e)
    ensures Index(text + t, p) == Some(e)
  {
    hide Index;
    IndexIsFirst(text, p);
    assert (text + t)[e..e + |p|] == text[e..e + |p|];
    forall j: nat | j < e
      ensures !OccursAt(text + t, p, j)
    {
      assert (text + t)[j..j + |p|] == text[j..j + |p|];
      assert !OccursAt(text, p, j);
    }
    IndexUnique(text + t, p, e);
  }

  lemma BodyExtends(st: Stamps, id: string, length: nat, body: string, t: string)
    requires ReadBody(st, id, length, body).Found?
    ensures ReadBody(st, id, length, body + t) ==
            Found(ReadBody(st, id, length, body).entry, ReadBody(st, id, length, body).rest + t)
  {
    hide MemoryId, RecordedAt, EndMark, TrimSpace;
    assert (body + t)[..length] == body[..length];
    assert (body + t)[length..] == body[length..] + t;
    var tail := body[length..];
    assert (tail + t)[..|EndMark(id)|] == tail[..|EndMark(id)|];
    assert (tail + t)[|EndMark(id)|..] == tail[|EndMark(id)|..] + t;
  }

  lemma ScanExtends(st: Stamps, text: string, t: string)
    requires ScanEntry(st, text).Found?
    ensures ScanEntry(st, text + t) == Found(ScanEntry(st, text).entry, ScanEntry(st, text).rest + t)
  {
    hide Index, ReadEntry;
    var at := Index(text, BEGIN).value;
    FirstStays(text, t, BEGIN, at);
    assert (text + t)[at..] == text[at..] + t;
    ReadExtends(st, text[at..], t);
  }

  // ---- Whole files ----

  /** Parsing goes on where an accepted text ends: what follows it counts as if it stood alone after the old entries. */
  lemma {:induction false} ParseContinues(st: Stamps, text: string, w: string, entries: map<string, Entry>)
    requires ParseFrom(st, text, entries).Ok?
    ensures ParseFrom(st, text + "\n" + w, entries) == ParseFrom(st, w, ParseFrom(st, text, entries).value)
    decreases |text|
  {
    hide ScanEntry;
    var scan := ScanEntry(st, text);
    if scan.NoMarker? {
      TailIsSkipped(st, text, w);
    } else {
      ScanExtends(st, text, "\n" + w);
      assert text + "\n" + w == text + ("\n" + w);
      assert scan.rest + ("\n" + w) == scan.rest + "\n" + w;
      ParseContinues(st, scan.rest, w, entries[scan.entry.id := scan.entry]);
    }
  }

  lemma AcceptedHasMarker(st: Stamps, data: string)
    requires Parse(st, data).Ok?
    ensures ScanEntry(st, data).Found?
  {
    hide ScanEntry;
  }

  /** The parser accepts one entry more: appending it to any accepted file adds it to the map and changes nothing else. */
  lemma AppendParses(st: Stamps, data: string, item: Memory)
    requires Lawful(st) && Loggable(item) && Parse(st, data).Ok? && item.id !in Parse(st, data).value
    ensures Parse(st, data + SEPARATOR + EntryText(st, item)) == Ok(Parse(st, data).value[item.id := EntryOf(st, item)])
  {
    hide ScanEntry, EntryText, EntryOf, ParseFrom, Loggable, Lawful;
    var m := Parse(st, data).value;
    var w := "---\n\n" + EntryText(st, item);
    assert data + SEPARATOR + EntryText(st, item) == data + "\n" + w;
    ParseContinues(st, data, w, map[]);
    LastEntryParses(st, "---\n\n", item, m);
    AcceptedHasMarker(st, data);
    ScanExtends(st, data, "\n" + w);
    assert data + "\n" + w == data + ("\n" + w);
  }

  lemma LastEntryParses(st: Stamps, before: string, item: Memory, entries: map<string, Entry>)
    requires Lawful(st) && Loggable(item) && item.id !in entries && '<' !in before
    ensures ScanEntry(st, before + EntryText(st, item)) == Found(EntryOf(st, item), "\n")
    ensures ParseFrom(st, before + EntryText(st, item), entries) == Ok(entries[item.id := EntryOf(st, item)])
  {
    hide ScanEntry, EntryText, Payload, ValidMarkerId, Trimmed;
    PlainTextIsSkipped(st, before, EntryText(st, item));
    EntryScans(st, item, "");
    assert EntryText(st, item) + "" == EntryText(st, item);
    NoMarkerInNewline(st);
  }

  lemma NoMarkerInNewline(st: Stamps)
    ensures ScanEntry(st, "\n") == NoMarker && ScanEntry(st, "") == NoMarker
  {
    hide ReadEntry;
  }

  /** The header of a new file holds no marker: its IDs are made of path characters. */
  lemma HeaderIsPlain(item: Memory)
    requires ValidPathId(item.userId) && ValidPathId(item.agentId)
    ensures '<' !in Header(item)
  {
    hide Trimmed;
    assert '<' !in item.userId && '<' !in item.agentId by {
      assert !IsPathChar('<');
    }
  }

  /** A new file holds exactly the memory it was created for. */
  lemma CreateParses(st: Stamps, item: Memory)
    requires Lawful(st) && Loggable(item) && ValidPathId(item.userId) && ValidPathId(item.agentId)
    ensures Parse(st, Header(item) + EntryText(st, item)) == Ok(map[item.id := EntryOf(st, item)])
  {
    hide ScanEntry, EntryText, EntryOf, Header, ValidPathId, ValidMarkerId, Trimmed, ParseFrom;
    HeaderIsPlain(item);
    LastEntryParses(st, Header(item), item, map[]);
  }

  // ---- Logs ----

  /** The file that creating with the first memory and appending the others leaves. */
  function Log(st: Stamps, items: seq<Memory>): string
    requires items != []
  {
    var last := items[|items| - 1];
    if |items| == 1 then Header(last) + EntryText(st, last)
    else Log(st, items[..|items| - 1]) + SEPARATOR + EntryText(st, last)
  }

  ghost predicate Distinct(items: seq<Memory>) {
    forall i, j | 0 <= i < j < |items| :: items[i].id != items[j].id
  }

  /** Round trip: a log of distinct memories parses back to exactly those memories. */
  lemma {:induction false} LogParses(st: Stamps, items: seq<Memory>)
    requires Lawful(st) && items != [] && Distinct(items) && forall i | 0 <= i < |items| :: Loggable(items[i])
    requires ValidPathId(items[0].userId) && ValidPathId(items[0].agentId)
    ensures Parse(st, Log(st, items)).Ok?
    ensures var m := Parse(st, Log(st, items)).value;
            && (forall id | id in m :: exists i :: 0 <= i < |items| && items[i].id == id)
            && (forall i | 0 <= i < |items| :: items[i].id in m && m[items[i].id] == EntryOf(st, items[i]))
  {
    hide Parse, EntryText, EntryOf, Header, ValidPathId, ValidMarkerId, Trimmed, Lawful, Loggable;
    var (front, last) := (items[..|items| - 1], items[|items| - 1]);
    if |items| == 1 {
      CreateParses(st, last);
    } else {
      LogParses(st, front);
      var m := Parse(st, Log(st, front)).value;
      assert last.id !in m;
      AppendParses(st, Log(st, front), last);
      forall id | id in m
        ensures exists i :: 0 <= i < |items| && items[i].id == id
      {
        var i :| 0 <= i < |front| && front[i].id == id;
        assert items[i].id == id;
      }
    }
  }

  // ---- Torn writes ----

  lemma NoNewlineNoIndex(s: string)
    requires '\n' !in s
    ensures Index(s, "\n") == None
  {
    hide Index;
    IndexIsFirst(s, "\n");
    forall j: nat
      ensures !OccursAt(s, "\n", j)
    {
      if j < |s| {
        assert s[j..j + 1] == [s[j]];
      }
    }
  }

  lemma TornBodyReads(st: Stamps, item: Memory, k: nat)
    requires Lawful(st) && Loggable(item)
    requires k <= |Payload(st, item, item.recordedAt)| + |EndMark(item.id)|
    ensures var payload := Payload(st, item, item.recordedAt);
            ReadBody(st, item.id, |payload|, (payload + (EndMark(item.id) + "\n"))[..k]) ==
            if k < |payload| + |EndMark(item.id)| then Broken else Found(EntryOf(st, item), "")
  {
    hide MemoryId, RecordedAt, Payload, EndMark, TrimSpace, ValidMarkerId, Trimmed, EntryOf;
    var (payload, end) := (Payload(st, item, item.recordedAt), EndMark(item.id));
    var body := (payload + (end + "\n"))[..k];
    if k >= |payload| {
      assert body[|payload|..] == (end + "\n")[..k - |payload|];
      if k == |payload| + |end| {
        assert body == payload + (end + "");
        BodyReads(st, item, "");
      }
    }
  }

  /** A torn entry whose marker has arrived is never read as anything but itself, whole. */
  lemma TornEntryReads(st: Stamps, item: Memory, k: nat)
    requires Lawful(st) && Loggable(item) && k < |EntryText(st, item)|
    ensures ReadEntry(st, EntryText(st, item)[..k]) ==
            if k < |EntryText(st, item)| - 1 then Broken else Found(EntryOf(st, item), "")
  {
    hide Index, ReadBody, Payload, EndMark, BeginLine, ParseBeginLine, ValidMarkerId, Trimmed, EntryOf;
    var payload := Payload(st, item, item.recordedAt);
    var begin := BeginLine(item.id, |payload|);
    var rest := payload + (EndMark(item.id) + "\n");
    assert EntryText(st, item) == begin + "\n" + rest;
    var torn := EntryText(st, item)[..k];
    IdIsSingleLine(item.id);
    if k <= |begin| {
      MarkerLinesAreSingle(item.id, |payload|);
      assert torn == begin[..k];
      NoNewlineNoIndex(torn);
    } else {
      assert torn == begin + "\n" + rest[..k - |begin| - 1];
      LineReads(st, item.id, |payload|, rest[..k - |begin| - 1]);
      TornBodyReads(st, item, k - |begin| - 1);
    }
  }

  lemma TornEntryScans(st: Stamps, before: string, item: Memory, k: nat)
    requires Lawful(st) && Loggable(item) && k < |EntryText(st, item)| && '<' !in before
    ensures ScanEntry(st, before + EntryText(st, item)[..k]) ==
            if k < |BEGIN| then NoMarker
            else if k < |EntryText(st, item)| - 1 then Broken
            else Found(EntryOf(st, item), "")
  {
    hide ReadEntry, EntryText, EntryOf, Loggable, Lawful;
    var torn := EntryText(st, item)[..k];
    PlainTextIsSkipped(st, before, torn);
    if k >= |BEGIN| {
      EntryBegins(st, item, "");
      assert EntryText(st, item) + "" == EntryText(st, item);
      assert BEGIN <= torn;
      assert torn[0..] == torn;
      TornEntryReads(st, item, k);
    }
  }

  lemma TornEntryParses(st: Stamps, before: string, item: Memory, k: nat, entries: map<string, Entry>)
    requires Lawful(st) && Loggable(item) && k < |EntryText(st, item)| && '<' !in before && item.id !in entries
    ensures ParseFrom(st, before + EntryText(st, item)[..k], entries) ==
            if k < |BEGIN| then Ok(entries)
            else if k < |EntryText(st, item)| - 1 then Err(MarkdownError)
            else Ok(entries[item.id := EntryOf(st, item)])
  {
    hide ScanEntry, EntryText, Loggable, Lawful;
    TornEntryScans(st, before, item, k);
    NoMarkerInNewline(st);
  }

  /** Any proper prefix of an append leaves a file that parses as before, not at all, or - when only the last line break is
      missing - with the whole new entry. Which of the three depends on the length alone. */
  lemma TornAppend(st: Stamps, data: string, item: Memory, k: nat)
    requires Lawful(st) && Loggable(item) && Parse(st, data).Ok? && item.id !in Parse(st, data).value
    requires k < |SEPARATOR| + |EntryText(st, item)|
    ensures Parse(st, data + (SEPARATOR + EntryText(st, item))[..k]) ==
            if k < |SEPARATOR| + |BEGIN| then Parse(st, data)
            else if k < |SEPARATOR| + |EntryText(st, item)| - 1 then Err(MarkdownError)
            else Ok(Parse(st, data).value[item.id := EntryOf(st, item)])
  {
    hide ScanEntry, EntryText, EntryOf, Loggable, Lawful;
    EntryIsLong(st, item);
    if k == 0 {
      assert data + (SEPARATOR + EntryText(st, item))[..k] == data;
    } else {
      SeparatorTorn(EntryText(st, item), k);
      var before := "---\n\n"[..Min(k - 1, 5)];
      var written := EntryText(st, item)[..NotNegative(k - 6)];
      var torn := (SEPARATOR + EntryText(st, item))[..k];
      assert data + torn == data + "\n" + (before + written);
      AppendedParses(st, data, before + written, torn);
      TornEntryParses(st, before, item, NotNegative(k - 6), Parse(st, data).value);
    }
  }

  /** What is left of a torn append after its first line break: a part of the separator, then a part of the entry. */
  lemma SeparatorTorn(entry: string, k: nat)
    requires 0 < k <= 6 + |entry|
    ensures |SEPARATOR| == 6
    ensures (SEPARATOR + entry)[..k] == "\n" + ("---\n\n"[..Min(k - 1, 5)] + entry[..NotNegative(k - 6)])
    ensures '<' !in "---\n\n"[..Min(k - 1, 5)]
  {
    assert SEPARATOR == "\n" + "---\n\n";
  }

  /** Parsing an accepted file with more text after its last line break. */
  lemma AppendedParses(st: Stamps, data: string, w: string, torn: string)
    requires Parse(st, data).Ok? && torn == "\n" + w
    ensures Parse(st, data + torn) == ParseFrom(st, w, Parse(st, data).value)
  {
    hide ScanEntry;
    assert data + torn == data + "\n" + w;
    ParseContinues(st, data, w, map[]);
    AcceptedHasMarker(st, data);
    ScanExtends(st, data, torn);
  }

  lemma EntryIsLong(st: Stamps, item: Memory)
    ensures |EntryText(st, item)| > |BEGIN| + 1
  {
    hide Payload, EndMark, Decimal;
  }

  /** A torn creation leaves a file the parser refuses, unless only the last line break is missing. */
  lemma TornCreate(st: Stamps, item: Memory, k: nat)
    requires Lawful(st) && Loggable(item) && ValidPathId(item.userId) && ValidPathId(item.agentId)
    requires k < |Header(item)| + |EntryText(st, item)|
    ensures Parse(st, (Header(item) + EntryText(st, item))[..k]) ==
            if k < |Header(item)| + |EntryText(st, item)| - 1 then Err(MarkdownError)
            else Ok(map[item.id := EntryOf(st, item)])
  {
    hide ScanEntry, EntryText, EntryOf, Loggable, Lawful, ValidPathId, Header;
    HeaderIsPlain(item);
    EntryIsLong(st, item);
    var (header, entry) := (Header(item), EntryText(st, item));
    var torn := (header + entry)[..k];
    if k <= |header| {
      assert torn == header[..k] + entry[..0];
      TornEntryScans(st, header[..k], item, 0);
    } else {
      assert torn == header + entry[..k - |header|];
      TornEntryScans(st, header, item, k - |header|);
      TornEntryParses(st, header, item, k - |header|, map[]);
    }
  }

  // ---- What the payload does not tell apart ----

  const ANSWER := "\n\n## Answer\n\n"

  /** The question and the answer as they stand in the payload. */
  function Texts(question: string, answer: string): string {
    question + ANSWER + answer
  }

  /** Two copies of the answer heading overlap in at most its last two line breaks. */
  lemma HeadingsBarelyOverlap(text: string, i: nat, j: nat)
    requires OccursAt(text, ANSWER, i) && OccursAt(text, ANSWER, j) && i < j
    ensures j >= i + |ANSWER| - 2
  {
    var d := j - i;
    OccursCharacter(text, ANSWER, j, 0);
    OccursCharacter(text, ANSWER, j, 1);
    if d + 1 < |ANSWER| {
      OccursCharacter(text, ANSWER, i, d);
      OccursCharacter(text, ANSWER, i, d + 1);
    }
  }

  lemma HeadingAfterQuestion(question: string, answer: string)
    ensures OccursAt(Texts(question, answer), ANSWER, |question|)
    ensures Texts(question, answer)[..|question| + 2] == question + "\n\n"
  {
    assert ANSWER[..2] == "\n\n";
  }

  /** Where the heading occurs in the padded question, the texts can be read as ones with a shorter question. */
  lemma ShorterReading(question: string, answer: string, p: nat)
    requires OccursAt(question + "\n\n", ANSWER, p)
    ensures exists q, a :: |q| < |question| && Texts(q, a) == Texts(question, answer)
  {
    var (text, padded) := (Texts(question, answer), question + "\n\n");
    HeadingAfterQuestion(question, answer);
    assert padded[p..p + |ANSWER|] == text[p..p + |ANSWER|];
    assert Texts(text[..p], text[p + |ANSWER|..]) == text;
  }

  lemma ShorterMeansHeading(question: string, answer: string, q: string, a: string)
    requires |q| < |question| && Texts(q, a) == Texts(question, answer)
    ensures OccursAt(question + "\n\n", ANSWER, |q|)
  {
    var (text, padded) := (Texts(question, answer), question + "\n\n");
    HeadingAfterQuestion(question, answer);
    HeadingAfterQuestion(q, a);
    HeadingsBarelyOverlap(text, |q|, |question|);
    assert padded[|q|..|q| + |ANSWER|] == text[|q|..|q| + |ANSWER|];
  }

  /** A question and answer can be mistaken for ones with a shorter question exactly when the answer heading occurs in the
      question followed by two line breaks. */
  lemma AmbiguousIff(question: string, answer: string)
    ensures (exists q, a :: |q| < |question| && Texts(q, a) == Texts(question, answer))
            <==> Contains(question + "\n\n", ANSWER)
  {
    hide Index, Texts;
    IndexIsFirst(question + "\n\n", ANSWER);
    if Contains(question + "\n\n", ANSWER) {
      ShorterReading(question, answer, Index(question + "\n\n", ANSWER).value);
    }
    if q, a :| |q| < |question| && Texts(q, a) == Texts(question, answer) {
      ShorterMeansHeading(question, answer, q, a);
    }
  }

  /** Between questions without the answer heading, equal payloads mean equal questions and answers. */
  lemma PayloadTellsApart(st: Stamps, x: Memory, y: Memory, t: Time)
    requires x.id == y.id
    requires !Contains(x.question + "\n\n", ANSWER) && !Contains(y.question + "\n\n", ANSWER)
    ensures Payload(st, x, t) == Payload(st, y, t) <==> x.question == y.question && x.answer == y.answer
  {
    hide Contains;
    if Payload(st, x, t) == Payload(st, y, t) {
      SameTexts(st, x, y, t);
      AmbiguousIff(x.question, x.answer);
      AmbiguousIff(y.question, y.answer);
      assert !(|y.question| < |x.question|) && !(|x.question| < |y.question|);
      assert x.question == Texts(x.question, x.answer)[..|x.question|] == y.question;
      assert x.answer == Texts(x.question, x.answer)[|x.question| + |ANSWER|..] == y.answer;
    }
  }

  lemma SameTexts(st: Stamps, x: Memory, y: Memory, t: Time)
    requires x.id == y.id && Payload(st, x, t) == Payload(st, y, t)
    ensures Texts(x.question, x.answer) == Texts(y.question, y.answer)
  {
    var before := "## Memory\n\nMemoryID: " + x.id + "\nRecordedAt: " + st.format(t) + "\n\n## Question\n\n";
    assert Payload(st, x, t) == before + (Texts(x.question, x.answer) + "\n");
    assert Payload(st, y, t) == before + (Texts(y.question, y.answer) + "\n");
    SameRest(before, Texts(x.question, x.answer), Texts(y.question, y.answer));
  }

  lemma SameRest(before: string, x: string, y: string)
    requires before + (x + "\n") == before + (y + "\n")
    ensures x == y
  {
    var (l, r) := (before + (x + "\n"), before + (y + "\n"));
    assert |l| == |r|;
    assert x == l[|before|..|l| - 1];
    assert y == r[|before|..|r| - 1];
  }
}
