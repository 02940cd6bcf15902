/** Which texts the parser of a daily file accepts, whoever wrote them, and as what. */
module MarkdownGrammar {
  import opened Clock
  import opened Text
  import opened Markdown
  import opened MarkdownLaws

  // ---- Begin lines ----

  /** A begin line: an ID that markers allow and a length that is not negative, each in its place. */
  ghost predicate IsBeginLine(line: string, id: string, length: nat, digits: string) {
    && line == BEGIN + id + BYTES + digits + MARKER_END
    && ValidMarkerId(id) && Atoi(digits) == Some(length)
  }

  lemma NumberHasNoBlank(digits: string)
    requires Atoi(digits).Some?
    ensures ' ' !in digits
  {
    hide DigitsValue;
  }

  lemma BytesIsApart()
    ensures BYTES != "" && BYTES[0] == ' ' && forall i | 0 < i < |BYTES| :: BYTES[i] != BYTES[0]
  {
  }

  lemma EndIsCut(middle: string)
    ensures BEGIN <= BEGIN + middle + MARKER_END && HasSuffix(BEGIN + middle + MARKER_END, MARKER_END)
    ensures TrimSuffix(TrimPrefix(BEGIN + middle + MARKER_END, BEGIN), MARKER_END) == middle
  {
    var line := BEGIN + middle + MARKER_END;
    assert line == BEGIN + (middle + MARKER_END);
    assert line[|BEGIN|..] == middle + MARKER_END;
    assert line[|line| - |MARKER_END|..] == MARKER_END;
  }

  /** Every such line is read as its ID and its length. */
  lemma BeginLineIsRead(line: string, id: string, length: nat, digits: string)
    requires IsBeginLine(line, id, length, digits)
    ensures ParseBeginLine(line) == Some((id, length))
  {
    hide ValidMarkerId, Atoi, LastIndex, TrimSuffix, TrimPrefix, HasSuffix;
    NumberHasNoBlank(digits);
    BytesIsApart();
    var metadata := id + BYTES + digits;
    assert line == BEGIN + metadata + MARKER_END;
    EndIsCut(metadata);
    LastIndexOf(id, BYTES, digits);
    assert metadata[..|id|] == id && metadata[|id| + |BYTES|..] == digits;
  }

  /** And no other line is read at all. */
  lemma ReadIsBeginLine(line: string) returns (digits: string)
    requires ParseBeginLine(line).Some?
    ensures IsBeginLine(line, ParseBeginLine(line).value.0, ParseBeginLine(line).value.1, digits)
  {
    hide ValidMarkerId, Atoi, LastIndex;
    var afterBegin := line[|BEGIN|..];
    var metadata := TrimSuffix(afterBegin, MARKER_END);
    LastIndexIsLast(metadata, BYTES);
    var at := LastIndex(metadata, BYTES).value;
    digits := metadata[at + |BYTES|..];
    assert metadata == metadata[..at] + BYTES + digits;
    SuffixOfRest(line, afterBegin);
    assert line == BEGIN + metadata + MARKER_END;
  }

  lemma SuffixOfRest(line: string, rest: string)
    requires |rest| >= |MARKER_END| && |rest| <= |line| && rest == line[|line| - |rest|..] && HasSuffix(line, MARKER_END)
    ensures HasSuffix(rest, MARKER_END)
  {
    assert rest[|rest| - |MARKER_END|..] == line[|line| - |MARKER_END|..];
  }

  // ---- Fields ----

  /** Lines with their line ends; the last has none. */
  function Unlines(lines: seq<string>): string
    requires lines != []
  {
    if |lines| == 1 then lines[0] else lines[0] + "\n" + Unlines(lines[1..])
  }

  /** The value a line gives to a field. */
  predicate Gives(line: string, name: string) {
    name <= TrimSpace(line)
  }

  /** A field has the value of the first line that gives it one, whatever the lines are. */
  lemma {:induction false} FieldIsFirst(lines: seq<string>, name: string, i: nat)
    requires i < |lines| && forall line | line in lines :: '\n' !in line
    requires Gives(lines[i], name) && forall j | 0 <= j < i :: !Gives(lines[j], name)
    ensures FirstField(Unlines(lines), name) == Some(TrimSpace(TrimSpace(lines[i])[|name|..]))
    decreases |lines|
  {
    hide FirstField, TrimSpace;
    if |lines| == 1 {
      OneLineField(lines[0], name);
    } else {
      FieldLine(lines[0], Unlines(lines[1..]), name);
      if i > 0 {
        FieldIsFirst(lines[1..], name, i - 1);
      }
    }
  }

  /** And none if no line gives it one. */
  lemma {:induction false} FieldIsMissing(lines: seq<string>, name: string)
    requires lines != [] && forall line | line in lines :: '\n' !in line && !Gives(line, name)
    ensures FirstField(Unlines(lines), name) == None
    decreases |lines|
  {
    hide FirstField, TrimSpace;
    if |lines| == 1 {
      OneLineField(lines[0], name);
    } else {
      FieldLine(lines[0], Unlines(lines[1..]), name);
      FieldIsMissing(lines[1..], name);
    }
  }

  lemma OneLineField(line: string, name: string)
    requires '\n' !in line
    ensures FirstField(line, name) == if Gives(line, name) then Some(TrimSpace(TrimSpace(line)[|name|..])) else None
  {
    NoLineEnd(line);
    hide Index, TrimSpace;
  }

  lemma NoLineEnd(line: string)
    requires '\n' !in line
    ensures Index(line, "\n") == None
  {
    hide Index;
    forall j: nat
      ensures !OccursAt(line, "\n", j)
    {
      if j < |line| {
        assert line[j..j + 1] == [line[j]];
      }
    }
    IndexIsFirst(line, "\n");
  }

  // ---- Entries ----

  /** An entry as it stands in a text: what precedes it, its begin line, and the payload it announces. */
  datatype Piece = Piece(before: string, line: string, payload: string, entry: Entry)

  function PieceText(x: Piece): string {
    x.before + (x.line + "\n" + (x.payload + EndMark(x.entry.id)))
  }

  /** The begin line is the first place after the last entry that looks like one; it tells the ID and the length of the payload;
      the payload tells the ID again, and a time. */
  ghost predicate Readable(st: Stamps, x: Piece) {
    && (forall j: nat | j < |x.before| :: !OccursAt(x.before + x.line, BEGIN, j))
    && '\n' !in x.line
    && (exists digits :: IsBeginLine(x.line, x.entry.id, |x.payload|, digits))
    && FirstField(x.payload, "MemoryID:") == Some(x.entry.id)
    && (exists stamp :: FirstField(x.payload, "RecordedAt:") == Some(stamp) && st.parse(stamp) == Some(x.entry.recordedAt))
    && x.entry.payload == x.payload && x.entry.content == TrimSpace(x.payload)
  }

  /** The two fields of a payload that the parser looks at. */
  lemma TwoFields(st: Stamps, payload: string, id: string)
    requires TrimSpace(id) != ""
    ensures MemoryId(payload) == Some(id) <==> FirstField(payload, "MemoryID:") == Some(id)
    ensures forall t :: RecordedAt(st, payload) == Some(t) <==>
                        exists stamp :: FirstField(payload, "RecordedAt:") == Some(stamp) && st.parse(stamp) == Some(t)
  {
    NothingToKeep();
    hide FirstField, TrimSpace;
  }

  lemma NothingToKeep()
    ensures TrimSpace("") == ""
  {
  }

  lemma MarkedHasText(line: string, id: string, length: nat, digits: string)
    requires IsBeginLine(line, id, length, digits)
    ensures TrimSpace(id) != ""
  {
    hide Atoi, TrimSpace;
  }

  /** Nothing that looks like a begin line. */
  ghost predicate Unmarked(text: string) {
    forall j: nat :: !OccursAt(text, BEGIN, j)
  }

  lemma OccursInFirst(s: string, t: string, p: string, j: nat)
    requires j + |p| <= |s|
    ensures OccursAt(s + t, p, j) <==> OccursAt(s, p, j)
  {
    assert (s + t)[j..j + |p|] == s[j..j + |p|];
  }

  lemma PieceIsFound(st: Stamps, x: Piece, rest: string)
    requires Readable(st, x)
    ensures Index(PieceText(x) + rest, BEGIN) == Some(|x.before|)
  {
    hide ValidMarkerId, Atoi, MemoryId, RecordedAt, TrimSpace, EndMark, Index;
    var tail := "\n" + (x.payload + EndMark(x.entry.id)) + rest;
    var text := x.before + x.line + tail;
    assert PieceText(x) + rest == text;
    var digits :| IsBeginLine(x.line, x.entry.id, |x.payload|, digits);
    BeginsWithMark(x.line, x.entry.id, |x.payload|, digits);
    forall j: nat | j < |x.before|
      ensures !OccursAt(text, BEGIN, j)
    {
      OccursInFirst(x.before + x.line, tail, BEGIN, j);
    }
    assert text[|x.before|..|x.before| + |BEGIN|] == x.line[..|BEGIN|];
    IndexUnique(text, BEGIN, |x.before|);
  }

  lemma BeginsWithMark(line: string, id: string, length: nat, digits: string)
    requires IsBeginLine(line, id, length, digits)
    ensures |line| >= |BEGIN| && line[..|BEGIN|] == BEGIN
  {
    hide ValidMarkerId, Atoi;
    assert line == BEGIN + (id + BYTES + digits + MARKER_END);
  }

  lemma PieceIsRead(st: Stamps, x: Piece, rest: string)
    requires Readable(st, x)
    ensures ReadEntry(st, x.line + "\n" + (x.payload + EndMark(x.entry.id)) + rest) == Found(x.entry, rest)
  {
    hide ValidMarkerId, Atoi, MemoryId, RecordedAt, TrimSpace, EndMark, Index, ParseBeginLine;
    var digits :| IsBeginLine(x.line, x.entry.id, |x.payload|, digits);
    BeginLineIsRead(x.line, x.entry.id, |x.payload|, digits);
    var body := x.payload + EndMark(x.entry.id) + rest;
    var text := x.line + "\n" + body;
    assert x.line + "\n" + (x.payload + EndMark(x.entry.id)) + rest == text;
    NewlineAt(x.line, body);
    assert text[..|x.line|] == x.line && text[|x.line| + 1..] == body;
    BodyOfPiece(st, x, rest);
  }

  lemma BodyOfPiece(st: Stamps, x: Piece, rest: string)
    requires Readable(st, x)
    ensures ReadBody(st, x.entry.id, |x.payload|, x.payload + EndMark(x.entry.id) + rest) == Found(x.entry, rest)
  {
    hide ValidMarkerId, Atoi, MemoryId, RecordedAt, TrimSpace, EndMark, FirstField;
    var digits :| IsBeginLine(x.line, x.entry.id, |x.payload|, digits);
    MarkedHasText(x.line, x.entry.id, |x.payload|, digits);
    TwoFields(st, x.payload, x.entry.id);
    var tail := EndMark(x.entry.id) + rest;
    var body := x.payload + EndMark(x.entry.id) + rest;
    assert body == x.payload + tail;
    assert body[..|x.payload|] == x.payload && body[|x.payload|..] == tail;
    assert tail[|EndMark(x.entry.id)|..] == rest;
  }

  /** An entry in its place is found. */
  lemma ScanFinds(st: Stamps, x: Piece, rest: string)
    requires Readable(st, x)
    ensures ScanEntry(st, PieceText(x) + rest) == Found(x.entry, rest)
  {
    hide ReadEntry, Index, Readable, EndMark;
    PieceIsFound(st, x, rest);
    PieceIsRead(st, x, rest);
    var text := PieceText(x) + rest;
    assert text[|x.before|..] == x.line + "\n" + (x.payload + EndMark(x.entry.id)) + rest;
  }

  lemma ScanStops(st: Stamps, text: string)
    ensures ScanEntry(st, text) == NoMarker <==> Unmarked(text)
  {
    IndexIsFirst(text, BEGIN);
    hide Index, ReadEntry;
  }

  lemma NoEarlierLine(text: string, n: nat)
    requires Index(text, "\n") == Some(n)
    ensures n < |text| && text == text[..n] + "\n" + text[n + 1..] && '\n' !in text[..n]
  {
    IndexIsFirst(text, "\n");
    hide Index;
    OccursCharacter(text, "\n", n, 0);
    forall j: nat | j < n
      ensures text[j] != '\n'
    {
      assert !OccursAt(text, "\n", j);
      assert text[j..j + 1] == [text[j]];
    }
  }

  lemma ReadIsPiece(st: Stamps, text: string) returns (line: string, payload: string)
    requires ReadEntry(st, text).Found?
    ensures var (e, rest) := (ReadEntry(st, text).entry, ReadEntry(st, text).rest);
            && text == line + "\n" + (payload + EndMark(e.id)) + rest
            && '\n' !in line && ParseBeginLine(line) == Some((e.id, |payload|))
            && MemoryId(payload) == Some(e.id) && RecordedAt(st, payload) == Some(e.recordedAt)
            && e.payload == payload && e.content == TrimSpace(payload)
  {
    hide MemoryId, RecordedAt, TrimSpace, EndMark, Index, ParseBeginLine;
    var n := Index(text, "\n").value;
    NoEarlierLine(text, n);
    line := text[..n];
    var body := text[n + 1..];
    payload := BodyIsPiece(st, ParseBeginLine(line).value.0, ParseBeginLine(line).value.1, body);
  }

  lemma BodyIsPiece(st: Stamps, id: string, length: nat, body: string) returns (payload: string)
    requires ReadBody(st, id, length, body).Found?
    ensures var (e, rest) := (ReadBody(st, id, length, body).entry, ReadBody(st, id, length, body).rest);
            && body == payload + EndMark(e.id) + rest && |payload| == length && e.id == id
            && MemoryId(payload) == Some(id) && RecordedAt(st, payload) == Some(e.recordedAt)
            && e.payload == payload && e.content == TrimSpace(payload)
  {
    hide MemoryId, RecordedAt, TrimSpace, EndMark;
    payload := body[..length];
    var tail := body[length..];
    assert tail == EndMark(id) + tail[|EndMark(id)|..];
  }

  /** Whatever is found is an entry in its place. */
  lemma FoundIsPiece(st: Stamps, text: string) returns (x: Piece)
    requires ScanEntry(st, text).Found?
    ensures Readable(st, x) && x.entry == ScanEntry(st, text).entry && text == PieceText(x) + ScanEntry(st, text).rest
  {
    hide ReadEntry, Index, EndMark, ParseBeginLine, MemoryId, RecordedAt, TrimSpace, IsBeginLine, OccursAt,
         FirstField;
    IndexIsFirst(text, BEGIN);
    var start := Index(text, BEGIN).value;
    var found := text[start..];
    var line, payload := ReadIsPiece(st, found);
    var digits := ReadIsBeginLine(line);
    var e := ReadEntry(st, found).entry;
    x := Piece(text[..start], line, payload, e);
    var tail := "\n" + (payload + EndMark(e.id)) + ReadEntry(st, found).rest;
    assert text == x.before + line + tail;
    NothingBefore(x.before, line, tail, e.id, |payload|, digits);
    MarkedHasText(line, e.id, |payload|, digits);
    TwoFields(st, payload, e.id);
  }

  lemma NothingBefore(before: string, line: string, tail: string, id: string, length: nat, digits: string)
    requires IsBeginLine(line, id, length, digits)
    requires forall j: nat | j < |before| :: !OccursAt(before + line + tail, BEGIN, j)
    ensures forall j: nat | j < |before| :: !OccursAt(before + line, BEGIN, j)
  {
    BeginsWithMark(line, id, length, digits);
    hide IsBeginLine;
    forall j: nat | j < |before|
      ensures !OccursAt(before + line, BEGIN, j)
    {
      OccursInFirst(before + line, tail, BEGIN, j);
    }
  }

  // ---- Texts ----

  function FileText(pieces: seq<Piece>, last: string): string {
    if pieces == [] then last else PieceText(pieces[0]) + FileText(pieces[1..], last)
  }

  ghost predicate AllReadable(st: Stamps, pieces: seq<Piece>) {
    forall i | 0 <= i < |pieces| :: Readable(st, pieces[i])
  }

  /** The entries, none under an ID that is taken. */
  ghost predicate Distinct(pieces: seq<Piece>, taken: set<string>) {
    && (forall i | 0 <= i < |pieces| :: pieces[i].entry.id !in taken)
    && (forall i, j | 0 <= i < j < |pieces| :: pieces[i].entry.id != pieces[j].entry.id)
  }

  ghost function Ids(pieces: seq<Piece>): set<string> {
    set i | 0 <= i < |pieces| :: pieces[i].entry.id
  }

  /** `m` is `before` and these entries, each under its ID. */
  ghost predicate Holds(m: map<string, Entry>, before: map<string, Entry>, pieces: seq<Piece>) {
    && m.Keys == before.Keys + Ids(pieces)
    && (forall id | id in before :: id in m && m[id] == before[id])
    && (forall i | 0 <= i < |pieces| :: pieces[i].entry.id in m && m[pieces[i].entry.id] == pieces[i].entry)
  }

  lemma IdsNext(pieces: seq<Piece>)
    requires pieces != []
    ensures Ids(pieces) == {pieces[0].entry.id} + Ids(pieces[1..])
  {
    assert forall i | 0 < i < |pieces| :: pieces[i] == pieces[1..][i - 1];
  }

  lemma HoldsNext(m: map<string, Entry>, before: map<string, Entry>, pieces: seq<Piece>)
    requires pieces != []
    requires var e := pieces[0].entry;
             Holds(m, before[e.id := e], pieces[1..]) && Distinct(pieces[1..], before.Keys + {e.id}) && e.id !in before
    ensures Holds(m, before, pieces) && Distinct(pieces, before.Keys)
  {
    var e := pieces[0].entry;
    IdsNext(pieces);
    hide Ids;
    assert forall i | 0 < i < |pieces| :: pieces[i] == pieces[1..][i - 1];
  }

  /** What the parser accepts is a text of such entries. */
  lemma {:induction false} ParsedIsText(st: Stamps, text: string, entries: map<string, Entry>)
    returns (pieces: seq<Piece>, last: string)
    requires ParseFrom(st, text, entries).Ok?
    ensures text == FileText(pieces, last) && AllReadable(st, pieces) && Unmarked(last)
    ensures Distinct(pieces, entries.Keys) && Holds(ParseFrom(st, text, entries).value, entries, pieces)
    ensures pieces == [] <==> ScanEntry(st, text) == NoMarker
    decreases |text|
  {
    hide ScanEntry, Readable, PieceText, Unmarked;
    ScanStops(st, text);
    if ScanEntry(st, text) == NoMarker {
      pieces, last := [], text;
    } else {
      var x := FoundIsPiece(st, text);
      var rest := ScanEntry(st, text).rest;
      var others;
      others, last := ParsedIsText(st, rest, entries[x.entry.id := x.entry]);
      pieces := [x] + others;
      assert pieces[1..] == others;
      HoldsNext(ParseFrom(st, text, entries).value, entries, pieces);
    }
  }

  /** And every such text is accepted. */
  lemma {:induction false} TextIsParsed(st: Stamps, pieces: seq<Piece>, last: string, entries: map<string, Entry>)
    requires AllReadable(st, pieces) && Unmarked(last) && Distinct(pieces, entries.Keys)
    ensures ParseFrom(st, FileText(pieces, last), entries).Ok?
    ensures Holds(ParseFrom(st, FileText(pieces, last), entries).value, entries, pieces)
    ensures pieces == [] <==> ScanEntry(st, FileText(pieces, last)) == NoMarker
    decreases |pieces|
  {
    hide ScanEntry, Readable, PieceText, Unmarked;
    if pieces == [] {
      ScanStops(st, last);
    } else {
      var x := pieces[0];
      ScanFinds(st, x, FileText(pieces[1..], last));
      TextIsParsed(st, pieces[1..], last, entries[x.entry.id := x.entry]);
      HoldsNext(ParseFrom(st, FileText(pieces, last), entries).value, entries, pieces);
    }
  }

  lemma HoldsOne(m: map<string, Entry>, n: map<string, Entry>, before: map<string, Entry>, pieces: seq<Piece>)
    requires Holds(m, before, pieces) && Holds(n, before, pieces)
    ensures m == n
  {
    forall id | id in m
      ensures m[id] == n[id]
    {
      if id in Ids(pieces) {
        var i :| 0 <= i < |pieces| && pieces[i].entry.id == id;
      }
    }
  }

  /** A daily file is accepted if and only if it is such a text, with one entry at least and no ID twice; and then it stands for
      exactly its entries. */
  lemma ParseIff(st: Stamps, content: string, m: map<string, Entry>)
    ensures Parse(st, content) == Ok(m) <==>
            exists pieces, last ::
              && pieces != [] && content == FileText(pieces, last) && AllReadable(st, pieces) && Unmarked(last)
              && Distinct(pieces, {}) && Holds(m, map[], pieces)
  {
    hide ScanEntry, ParseFrom, FileText, AllReadable, Unmarked, Distinct, Holds;
    var none: map<string, Entry> := map[];
    assert none.Keys == {};
    if Parse(st, content) == Ok(m) {
      var pieces, last := ParsedIsText(st, content, none);
    }
    if pieces, last :|
      && pieces != [] && content == FileText(pieces, last) && AllReadable(st, pieces) && Unmarked(last)
      && Distinct(pieces, {}) && Holds(m, map[], pieces)
    {
      TextIsParsed(st, pieces, last, none);
      HoldsOne(m, ParseFrom(st, content, none).value, none, pieces);
    }
  }
}
